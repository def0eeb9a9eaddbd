/**
 * The messages of the BProto generator, for any schema: a message is a sequence of items, each the
 * value of one field of the schema with the number and the type of the field in front.
 */
module BProtoModel {
  import opened Bytes
  import opened Lists

  /** Numbers of size bytes, data of any length, data of a fixed length. */
  datatype FieldType = Uint(size: nat) | Data | ConstData(size: nat)

  datatype Cardinality = Optional | Required | Repeated | RequiredRepeated

  datatype Field = Field(id: uint16, ftype: FieldType, card: Cardinality)

  type Schema = seq<Field>

  const MAX_DATA := 0xFFFF_FFFF

  /** The two would be cases of the same switch in the generated code. */
  predicate SameKey(f: Field, g: Field) {
    f.id == g.id && (f.ftype.Uint? || g.ftype.Uint? ==> f.ftype == g.ftype)
  }

  predicate FieldTypeOk(t: FieldType) {
    match t
    case Uint(size) => size == 1 || size == 2 || size == 4 || size == 8
    case Data => true
    case ConstData(size) => size <= MAX_DATA
  }

  ghost predicate SchemaOk(schema: Schema) {
    && (forall i :: 0 <= i < |schema| ==> FieldTypeOk(schema[i].ftype))
    && (forall i, j :: 0 <= i < j < |schema| ==> !SameKey(schema[i], schema[j]))
  }

  /** BPROTO_TYPE_UINT8 .. BPROTO_TYPE_UINT64, BPROTO_TYPE_DATA, BPROTO_TYPE_CONSTDATA */
  function TypeCode(t: FieldType): uint16 {
    match t
    case Uint(size) => if size == 1 then 1 else if size == 2 then 2 else if size == 4 then 3 else 4
    case Data => 5
    case ConstData(_) => 6
  }

  function UintSize(code: uint16): nat {
    if code == 1 then 1 else if code == 2 then 2 else if code == 3 then 4 else 8
  }

  datatype Value = Num(n: nat) | Payload(s: seq<byte>)

  /** A value of field k. */
  datatype Item = Item(k: nat, v: Value)

  predicate ValueOk(t: FieldType, v: Value) {
    match t
    case Uint(size) => v.Num? && v.n < Power256(size)
    case Data => v.Payload? && |v.s| <= MAX_DATA
    case ConstData(size) => v.Payload? && |v.s| == size <= MAX_DATA
  }

  predicate ItemOk(schema: Schema, i: Item) {
    i.k < |schema| && ValueOk(schema[i.k].ftype, i.v)
  }

  ghost predicate ItemsOk(schema: Schema, items: seq<Item>) {
    forall i :: 0 <= i < |items| ==> ItemOk(schema, items[i])
  }

  function EncodeValue(t: FieldType, v: Value): seq<byte>
    requires ValueOk(t, v)
  {
    if t.Uint? then ToLittleEndian(v.n, t.size) else ToLittleEndian(|v.s|, 4) + v.s
  }

  /** What a Writer adds for a value. */
  function EncodeItem(schema: Schema, i: Item): seq<byte>
    requires ItemOk(schema, i)
  {
    Enc16(schema[i.k].id) + Enc16(TypeCode(schema[i.k].ftype)) + EncodeValue(schema[i.k].ftype, i.v)
  }

  ghost function Encode(schema: Schema, items: seq<Item>): seq<byte>
    requires ItemsOk(schema, items)
  {
    if items == [] then [] else EncodeItem(schema, items[0]) + Encode(schema, items[1..])
  }

  // ---------------------------------------------------------------- reading one entry

  /** An entry of a message, without a schema. */
  datatype Entry = Entry(id: uint16, code: uint16, v: Value, len: nat)

  function ReadEntry(s: seq<byte>): (r: Option<Entry>)
    ensures r.Some? ==> 4 < r.value.len <= |s|
  {
    if |s| < 4 then None
    else
      var id, code := Dec16(s[0], s[1]), Dec16(s[2], s[3]);
      if 1 <= code <= 4 then
        var size := UintSize(code);
        if |s| - 4 < size then None
        else Some(Entry(id, code, Num(FromLittleEndian(s[4..4 + size])), 4 + size))
      else if code == 5 || code == 6 then
        if |s| - 4 < 4 then None
        else
          var len := FromLittleEndian(s[4..8]);
          if |s| - 8 < len then None
          else Some(Entry(id, code, Payload(s[8..8 + len]), 8 + len))
      else None
  }

  /** The case of the switches over type and id that an entry comes to. */
  predicate Matches(f: Field, e: Entry) {
    f.id == e.id && f.ftype.Uint? == (e.code <= 4) && (f.ftype.Uint? ==> f.ftype.size == UintSize(e.code))
  }

  /** The checks in that case. */
  predicate Fits(f: Field, e: Entry) {
    && TypeCode(f.ftype) == e.code
    && (f.ftype.ConstData? ==> e.v.Payload? && |e.v.s| == f.ftype.size)
  }

  function FindField(schema: Schema, e: Entry): (r: Option<nat>)
    ensures r.Some? ==> r.value < |schema| && Matches(schema[r.value], e)
    ensures r.None? ==> forall k :: 0 <= k < |schema| ==> !Matches(schema[k], e)
  {
    FindFrom(schema, e, 0)
  }

  function FindFrom(schema: Schema, e: Entry, k: nat): (r: Option<nat>)
    requires k <= |schema|
    ensures r.Some? ==> k <= r.value < |schema| && Matches(schema[r.value], e)
    ensures r.None? ==> forall j :: k <= j < |schema| ==> !Matches(schema[j], e)
    decreases |schema| - k
  {
    if k == |schema| then None
    else if Matches(schema[k], e) then Some(k)
    else FindFrom(schema, e, k + 1)
  }

  /** One round of the loop of Parser_Init. */
  function ParseItem(schema: Schema, s: seq<byte>): (r: Option<(Item, nat)>)
    ensures r.Some? ==> 0 < r.value.1 <= |s|
  {
    match ReadEntry(s)
    case None => None
    case Some(e) =>
      match FindField(schema, e)
      case None => None
      case Some(k) => if Fits(schema[k], e) then Some((Item(k, e.v), e.len)) else None
  }

  function ParseAll(schema: Schema, s: seq<byte>): Option<seq<Item>>
    decreases |s|
  {
    if s == [] then Some([])
    else
      match ParseItem(schema, s)
      case None => None
      case Some((item, len)) =>
        match ParseAll(schema, s[len..])
        case None => None
        case Some(rest) => Some([item] + rest)
  }

  lemma EntryOfValue(t: FieldType, v: Value, id: uint16, s: seq<byte>)
    requires FieldTypeOk(t) && ValueOk(t, v) && Enc16(id) + Enc16(TypeCode(t)) + EncodeValue(t, v) <= s
    ensures ReadEntry(s) == Some(Entry(id, TypeCode(t), v, 4 + |EncodeValue(t, v)|))
  {
    hide ToLittleEndian, FromLittleEndian, Power256;
    PowersOf256();
    var start := Enc16(id) + Enc16(TypeCode(t)) + EncodeValue(t, v);
    HeadOfEntry(id, TypeCode(t), EncodeValue(t, v), s);
    if t.Uint? {
      FromToLittleEndian(v.n, t.size);
      SliceOfPrefix(start, s, 4, 4 + t.size);
      assert start[4..4 + t.size] == EncodeValue(t, v);
    } else {
      FromToLittleEndian(|v.s|, 4);
      SliceOfPrefix(start, s, 4, 8);
      SliceOfPrefix(start, s, 8, 8 + |v.s|);
      assert start[4..8] == ToLittleEndian(|v.s|, 4);
      assert start[8..8 + |v.s|] == v.s;
    }
  }

  lemma HeadOfEntry(id: uint16, code: uint16, body: seq<byte>, s: seq<byte>)
    requires Enc16(id) + Enc16(code) + body <= s
    ensures |s| >= 4 && Dec16(s[0], s[1]) == id && Dec16(s[2], s[3]) == code
  {
    var start := Enc16(id) + Enc16(code) + body;
    assert s[0] == start[0] == Enc16(id)[0] && s[1] == start[1] == Enc16(id)[1];
    assert s[2] == start[2] == Enc16(code)[0] && s[3] == start[3] == Enc16(code)[1];
  }

  lemma OnlyMatch(schema: Schema, k: nat, e: Entry)
    requires SchemaOk(schema) && k < |schema| && Matches(schema[k], e)
    ensures FindField(schema, e) == Some(k)
  {
    var j := FindField(schema, e);
    if j.value < k {
      assert SameKey(schema[j.value], schema[k]);
    } else if k < j.value {
      assert SameKey(schema[k], schema[j.value]);
    }
  }

  /** What a Writer adds is read back. */
  lemma ItemRead(schema: Schema, i: Item, s: seq<byte>)
    requires SchemaOk(schema) && ItemOk(schema, i) && EncodeItem(schema, i) <= s
    ensures ParseItem(schema, s) == Some((i, |EncodeItem(schema, i)|))
  {
    var f := schema[i.k];
    EntryOfValue(f.ftype, i.v, f.id, s);
    OnlyMatch(schema, i.k, ReadEntry(s).value);
  }

  /** What is read is what a Writer would have added. */
  lemma ReadIsItem(schema: Schema, s: seq<byte>)
    requires SchemaOk(schema) && ParseItem(schema, s).Some?
    ensures var (i, len) := ParseItem(schema, s).value; ItemOk(schema, i) && s[..len] == EncodeItem(schema, i)
  {
    hide ToLittleEndian, FromLittleEndian, Power256, Enc16, Dec16, SchemaOk;
    var e := ReadEntry(s).value;
    var k := FindField(schema, e).value;
    var f := schema[k];
    PowersOf256();
    FieldsOk(schema, k);
    Enc16Dec16(s[0], s[1]);
    Enc16Dec16(s[2], s[3]);
    assert s[..4] == [s[0], s[1]] + [s[2], s[3]];
    if f.ftype.Uint? {
      ToFromLittleEndian(s[4..4 + f.ftype.size]);
      assert s[..e.len] == s[..4] + s[4..4 + f.ftype.size];
    } else {
      ToFromLittleEndian(s[4..8]);
      assert s[..e.len] == s[..4] + (s[4..8] + s[8..e.len]);
    }
  }

  lemma FieldsOk(schema: Schema, k: nat)
    requires SchemaOk(schema) && k < |schema|
    ensures FieldTypeOk(schema[k].ftype)
  {
  }

  lemma Enc16Dec16(lo: byte, hi: byte)
    ensures Enc16(Dec16(lo, hi)) == [lo, hi]
  {
  }

  // ---------------------------------------------------------------- whole messages

  function Count(items: seq<Item>, k: nat): nat {
    if items == [] then 0 else (if items[0].k == k then 1 else 0) + Count(items[1..], k)
  }

  predicate CardOk(c: Cardinality, n: nat) {
    match c
    case Optional => n <= 1
    case Required => n == 1
    case Repeated => true
    case RequiredRepeated => n >= 1
  }

  ghost predicate CountsOk(schema: Schema, items: seq<Item>) {
    forall k :: 0 <= k < |schema| ==> CardOk(schema[k].card, Count(items, k))
  }

  /** What Parser_Init decides. */
  ghost predicate Accepts(schema: Schema, s: seq<byte>) {
    ParseAll(schema, s).Some? && CountsOk(schema, ParseAll(schema, s).value)
  }

  lemma {:induction false} EncodedParses(schema: Schema, items: seq<Item>)
    requires SchemaOk(schema) && ItemsOk(schema, items)
    ensures ParseAll(schema, Encode(schema, items)) == Some(items)
  {
    if items != [] {
      EncodedParses(schema, items[1..]);
      var s, first := Encode(schema, items), EncodeItem(schema, items[0]);
      ItemRead(schema, items[0], s);
      assert s[|first|..] == Encode(schema, items[1..]);
      assert items == [items[0]] + items[1..];
    }
  }

  lemma {:induction false} ParsedIsEncoded(schema: Schema, s: seq<byte>)
    requires SchemaOk(schema) && ParseAll(schema, s).Some?
    ensures ItemsOk(schema, ParseAll(schema, s).value) && Encode(schema, ParseAll(schema, s).value) == s
    decreases |s|
  {
    if s != [] {
      var (i, len) := ParseItem(schema, s).value;
      ReadIsItem(schema, s);
      ParsedIsEncoded(schema, s[len..]);
      var rest := ParseAll(schema, s[len..]).value;
      assert ([i] + rest)[1..] == rest;
      assert s == s[..len] + s[len..];
    }
  }

  /**
   * For any schema, a buffer is accepted if and only if it is what a Writer makes of some values
   * in the numbers the schema asks for; and those values are unique.
   */
  lemma AcceptsExactlyWritten(schema: Schema, s: seq<byte>)
    requires SchemaOk(schema)
    ensures Accepts(schema, s) <==>
      exists items :: ItemsOk(schema, items) && CountsOk(schema, items) && Encode(schema, items) == s
    ensures forall items :: ItemsOk(schema, items) && Encode(schema, items) == s ==> ParseAll(schema, s) == Some(items)
  {
    if Accepts(schema, s) {
      ParsedIsEncoded(schema, s);
    }
    forall items | ItemsOk(schema, items) && Encode(schema, items) == s ensures ParseAll(schema, s) == Some(items) {
      EncodedParses(schema, items);
    }
  }
}
