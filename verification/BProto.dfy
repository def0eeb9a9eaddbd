/**
 * The Writer and the Parser the BProto generator emits, for any schema: what is a set of variables
 * for each field in the generated code is a sequence with a place for each field here.
 *
 * The ghost fields of the Parser are the items of the message, where they begin in the buffer, the
 * window of items each field is looked for in, and the item at which looking goes on. `Unread` is
 * what a user has to know: the values of a field that have not been got yet.
 */
module BProto {
  import opened BProtoModel
  import opened Bytes
  import opened Lists

  /** The values of a field in the order of the message. */
  function ValuesOf(items: seq<Item>, k: nat): seq<Value> {
    if items == [] then [] else (if items[0].k == k then [items[0].v] else []) + ValuesOf(items[1..], k)
  }

  lemma {:induction false} ValuesOfAppend(items: seq<Item>, more: seq<Item>, k: nat)
    ensures ValuesOf(items + more, k) == ValuesOf(items, k) + ValuesOf(more, k)
    ensures Count(items + more, k) == Count(items, k) + Count(more, k)
  {
    if items == [] {
      assert items + more == more;
    } else {
      ValuesOfAppend(items[1..], more, k);
      assert (items + more)[1..] == items[1..] + more;
    }
  }

  lemma {:induction false} NoValues(items: seq<Item>, k: nat)
    requires forall i :: 0 <= i < |items| ==> items[i].k != k
    ensures ValuesOf(items, k) == [] && Count(items, k) == 0
  {
    if items != [] {
      NoValues(items[1..], k);
    }
  }

  /** A part of the message that can be read in a shorter piece of it as well. */
  lemma ReadShorter(s: seq<byte>, n: nat)
    requires ReadEntry(s).Some? && ReadEntry(s).value.len <= n <= |s|
    ensures ReadEntry(s[..n]) == ReadEntry(s)
  {
    var t := s[..n];
    assert t[0] == s[0] && t[1] == s[1] && t[2] == s[2] && t[3] == s[3];
    var e := ReadEntry(s).value;
    if e.code <= 4 {
      SliceOfSlice(s, 0, n, 4, 4 + UintSize(e.code));
    } else {
      SliceOfSlice(s, 0, n, 4, 8);
      SliceOfSlice(s, 0, n, 8, e.len);
    }
  }

  // ---------------------------------------------------------------- the parser

  /** Where the items of the message begin; the last place is its end. */
  ghost predicate Placed(schema: Schema, buf: seq<byte>, items: seq<Item>, offs: seq<nat>) {
    && |offs| == |items| + 1 && offs[0] == 0 && offs[|items|] <= |buf|
    && (forall j :: 0 <= j < |items| ==> PlaceOk(schema, buf, items[j], offs[j], offs[j + 1]))
  }

  ghost predicate PlaceOk(schema: Schema, buf: seq<byte>, item: Item, from: nat, to: nat) {
    from < to <= |buf| && ParseItem(schema, buf[from..]) == Some((item, to - from))
  }

  /** A window with all items of a field in it, that ends with one. */
  datatype Window = Window(first: nat, end: nat)

  ghost predicate WindowOk(items: seq<Item>, k: nat, w: Window) {
    && w.first <= w.end <= |items|
    && (forall i :: 0 <= i < |items| && !(w.first <= i < w.end) ==> items[i].k != k)
    && (w.first < w.end ==> items[w.end - 1].k == k)
  }

  lemma PlacesAscend(schema: Schema, buf: seq<byte>, items: seq<Item>, offs: seq<nat>, i: nat, j: nat)
    requires Placed(schema, buf, items, offs) && i <= j <= |items|
    ensures offs[i] <= offs[j] <= |buf| && (i < j ==> offs[i] < offs[j])
    decreases j - i
  {
    if i < j {
      PlacesAscend(schema, buf, items, offs, i, j - 1);
      assert PlaceOk(schema, buf, items[j - 1], offs[j - 1], offs[j]);
    }
  }

  /** The test in the loop of Parser_Get finds the items of the field. */
  lemma SameField(schema: Schema, e: Entry, m: nat, k: nat)
    requires SchemaOk(schema) && FindField(schema, e) == Some(m) && m < |schema| && k < |schema| && Fits(schema[m], e)
    ensures e.code == TypeCode(schema[k].ftype) && e.id == schema[k].id <==> m == k
  {
    if e.code == TypeCode(schema[k].ftype) && e.id == schema[k].id {
      assert FieldTypeOk(schema[k].ftype);
      OnlyMatch(schema, k, e);
    }
  }

  lemma {:induction false} NextValue(items: seq<Item>, a: nat, j: nat, k: nat)
    requires a <= j < |items| && items[j].k == k && forall i :: a <= i < j ==> items[i].k != k
    ensures ValuesOf(items[a..], k) == [items[j].v] + ValuesOf(items[j + 1..], k)
  {
    assert items[a..] == items[a..j] + items[j..];
    ValuesOfAppend(items[a..j], items[j..], k);
    NoValues(items[a..j], k);
    assert items[j..][1..] == items[j + 1..];
  }

  /** What the generated parser has for a field: a window of the message, and how far it has got. */
  datatype FieldPos = FieldPos(start: nat, span: nat, pos: nat)

  ghost predicate FieldOk(items: seq<Item>, offs: seq<nat>, k: nat, w: Window, at: nat, f: FieldPos) {
    && WindowOk(items, k, w) && w.first <= at <= w.end < |offs|
    && f.start == offs[w.first] && f.start + f.span == offs[w.end] && f.start + f.pos == offs[at]
  }

  /** What the loop of Parser_Init has found of field k in the items so far. */
  ghost predicate Seen(bufLen: nat, items: seq<Item>, offs: seq<nat>, k: nat, w: Window, f: FieldPos, count: nat)
    requires |offs| == |items| + 1
  {
    && count == Count(items, k)
    && (if count == 0 then f == FieldPos(bufLen, 0, 0) && forall i :: 0 <= i < |items| ==> items[i].k != k
        else WindowOk(items, k, w) && w.first < w.end && offs[w.first] < offs[w.end] <= bufLen
             && f == FieldPos(offs[w.first], offs[w.end] - offs[w.first], 0))
  }

  /** An item more, for its own field and for another. */
  lemma SeenMore(bufLen: nat, items: seq<Item>, offs: seq<nat>, k: nat, w: Window, f: FieldPos, count: nat, item: Item, to: nat)
    requires |offs| == |items| + 1 && Seen(bufLen, items, offs, k, w, f, count) && offs[|items|] < to <= bufLen
    requires count > 0 ==> offs[w.first] <= offs[|items|]
    ensures item.k != k ==> Seen(bufLen, items + [item], offs + [to], k, w, f, count)
    ensures item.k == k ==>
      var first := if f.start == bufLen then |items| else w.first;
      var start := if f.start == bufLen then offs[|items|] else f.start;
      Seen(bufLen, items + [item], offs + [to], k, Window(first, |items| + 1), FieldPos(start, to - start, f.pos), count + 1)
  {
    ValuesOfAppend(items, [item], k);
    assert [item][1..] == [];
    var more, places := items + [item], offs + [to];
    assert forall i :: 0 <= i < |items| ==> more[i] == items[i];
    assert forall i :: 0 <= i < |offs| ==> places[i] == offs[i];
  }

  lemma PlacedMore(schema: Schema, buf: seq<byte>, items: seq<Item>, offs: seq<nat>, item: Item, to: nat)
    requires Placed(schema, buf, items, offs) && PlaceOk(schema, buf, item, offs[|items|], to)
    ensures Placed(schema, buf, items + [item], offs + [to])
  {
    hide PlaceOk;
    var more, places := items + [item], offs + [to];
    forall j | 0 <= j < |more| ensures PlaceOk(schema, buf, more[j], places[j], places[j + 1]) {
      if j < |items| {
        assert PlaceOk(schema, buf, items[j], offs[j], offs[j + 1]);
      }
    }
    assert to <= |buf| by { PlaceEnds(schema, buf, item, offs[|items|], to); }
  }

  lemma PlaceEnds(schema: Schema, buf: seq<byte>, item: Item, from: nat, to: nat)
    requires PlaceOk(schema, buf, item, from, to)
    ensures from < to <= |buf|
  {
  }

  /** The window of a field when the whole message has been read. */
  lemma SeenIsOk(bufLen: nat, items: seq<Item>, offs: seq<nat>, k: nat, w: Window, f: FieldPos, count: nat)
    requires |offs| == |items| + 1 && Seen(bufLen, items, offs, k, w, f, count) && offs[|items|] == bufLen
    ensures var v := if count == 0 then Window(|items|, |items|) else w;
      FieldOk(items, offs, k, v, v.first, f) && ValuesOf(items[v.first..], k) == ValuesOf(items, k)
  {
    var v := if count == 0 then Window(|items|, |items|) else w;
    assert items == items[..v.first] + items[v.first..];
    ValuesOfAppend(items[..v.first], items[v.first..], k);
    NoValues(items[..v.first], k);
  }

  function Prepend(items: seq<Item>, rest: Option<seq<Item>>): Option<seq<Item>> {
    if rest.None? then None else Some(items + rest.value)
  }

  lemma NothingSeen(schema: Schema, buf: seq<byte>, bufLen: nat, n: nat)
    ensures Placed(schema, buf, [], [0])
    ensures forall k :: 0 <= k < n ==> Seen(bufLen, [], [0], k, Window(0, 0), FieldPos(bufLen, 0, 0), 0)
  {
  }

  lemma StartBelow(schema: Schema, buf: seq<byte>, items: seq<Item>, offs: seq<nat>, k: nat, w: Window, f: FieldPos, count: nat)
    requires Placed(schema, buf, items, offs) && Seen(|buf|, items, offs, k, w, f, count)
    ensures f.start == |buf| || f.start <= offs[|items|]
  {
    if count > 0 {
      PlacesAscend(schema, buf, items, offs, w.first, |items|);
    }
  }

  /** One round of Parser_Init, as far as the items are concerned. */
  lemma ParseMore(schema: Schema, s: seq<byte>, items: seq<Item>)
    requires s != []
    ensures var r := ParseItem(schema, s);
      if r.None? then ParseAll(schema, s).None? && Prepend(items, ParseAll(schema, s)).None?
      else Prepend(items, ParseAll(schema, s)) == Prepend(items + [r.value.0], ParseAll(schema, s[r.value.1..]))
  {
    var r := ParseItem(schema, s);
    if r.Some? {
      var rest := ParseAll(schema, s[r.value.1..]);
      if rest.Some? {
        assert items + ([r.value.0] + rest.value) == items + [r.value.0] + rest.value;
      }
    }
  }

  lemma ParseEnds(schema: Schema, s: seq<byte>, items: seq<Item>)
    ensures Prepend([], ParseAll(schema, s)) == ParseAll(schema, s)
    ensures Prepend(items, ParseAll(schema, [])) == Some(items)
  {
    assert items + [] == items;
    var all := ParseAll(schema, s);
    if all.Some? {
      assert [] + all.value == all.value;
    }
  }

  lemma NoneLeft(items: seq<Item>, k: nat, w: Window, a: nat)
    requires WindowOk(items, k, w) && a <= w.end && forall i :: a <= i < w.end ==> items[i].k != k
    ensures ValuesOf(items[a..], k) == [] && ValuesOf(items[w.end..], k) == []
  {
    NoValues(items[a..], k);
    NoValues(items[w.end..], k);
  }

  lemma IsPlace(schema: Schema, buf: seq<byte>, item: Item, from: nat, to: nat)
    requires from < to <= |buf| && ParseItem(schema, buf[from..]) == Some((item, to - from))
    ensures PlaceOk(schema, buf, item, from, to)
  {
  }

  lemma WindowInside(items: seq<Item>, k: nat, w: Window, bufLen: nat, offs: seq<nat>, f: FieldPos, count: nat)
    requires |offs| == |items| + 1 && Seen(bufLen, items, offs, k, w, f, count) && count > 0
    ensures w.first < w.end <= |items|
  {
  }

  class Parser {
    const schema: Schema
    var buf: seq<byte>
    var fields: seq<FieldPos>
    // the items of the message, where they begin, the window of each field, and the item it has got to
    ghost var items: seq<Item>
    ghost var offs: seq<nat>
    ghost var windows: seq<Window>
    ghost var at: seq<nat>

    ghost predicate Valid()
      reads this
    {
      && SchemaOk(schema) && |fields| == |windows| == |at| == |schema| && |offs| == |items| + 1
      && Placed(schema, buf, items, offs)
      && (forall k :: 0 <= k < |schema| ==> FieldOk(items, offs, k, windows[k], at[k], fields[k]))
    }

    /** The values of a field that have not been got yet. */
    ghost function Unread(k: nat): seq<Value>
      requires Valid() && k < |schema|
      reads this
    {
      assert FieldOk(items, offs, k, windows[k], at[k], fields[k]);
      ValuesOf(items[at[k]..], k)
    }

    constructor (schema: Schema)
      requires SchemaOk(schema)
      ensures this.schema == schema
    {
      this.schema := schema;
    }

    /** Everything of Seen, for all fields. */
    ghost predicate AllSeen(counts: seq<nat>)
      reads this
    {
      && |fields| == |windows| == |counts| == |schema|
      && |offs| == |items| + 1 && offs[|items|] <= |buf| && Placed(schema, buf, items, offs)
      && (forall k :: 0 <= k < |schema| ==> Seen(|buf|, items, offs, k, windows[k], fields[k], counts[k]))
    }

    /** Parser_Init: a buffer is accepted if the fields come in the right form and number. */
    method Init(data: seq<byte>) returns (ok: bool)
      requires SchemaOk(schema)
      modifies this
      ensures ok <==> Accepts(schema, data)
      ensures ok ==> Valid() && buf == data && Some(items) == ParseAll(schema, data)
      ensures ok ==> forall k :: 0 <= k < |schema| ==> Unread(k) == ValuesOf(items, k)
    {
      hide SchemaOk, FieldOk, PlaceOk, Seen, WindowOk, ParseAll, Prepend, Matches, Fits, ReadEntry, Placed, ValuesOf;
      buf := data;
      fields := seq(|schema|, i => FieldPos(|data|, 0, 0));
      var counts := seq(|schema|, i => 0);
      items, offs, windows := [], [0], seq(|schema|, i => Window(0, 0));
      NothingSeen(schema, buf, |data|, |schema|);
      var pos, left := 0, |buf|;
      assert buf[0..] == buf;
      ParseEnds(schema, buf, []);
      while left > 0
        invariant pos + left == |buf| && buf == data && AllSeen(counts) && offs[|items|] == pos
        invariant ParseAll(schema, data) == Prepend(items, ParseAll(schema, buf[pos..]))
        decreases left
      {
        assert buf[pos..pos + left] == buf[pos..];
        ParseMore(schema, buf[pos..], items);
        var e := NextEntry(pos, left);
        if e.None? {
          return false;
        }
        var m := FindField(schema, e.value);
        if m.None? || !Fits(schema[m.value], e.value) {
          return false;
        }
        assert buf[pos..][e.value.len..] == buf[pos + e.value.len..];
        SeeItem(m.value, pos, pos + e.value.len, e.value.v, counts);
        pos := pos + e.value.len;
        left := left - e.value.len;
        counts := counts[m.value := counts[m.value] + 1];
      }
      assert buf[pos..] == [];
      ParseEnds(schema, buf, items);
      SetWindows(counts);
      ok := CheckCounts(counts);
    }

    ghost method SetWindows(counts: seq<nat>)
      requires AllSeen(counts) && offs[|items|] == |buf| && SchemaOk(schema)
      modifies `windows, `at
      ensures Valid() && forall k :: 0 <= k < |schema| ==> Unread(k) == ValuesOf(items, k) && counts[k] == Count(items, k)
    {
      hide SchemaOk, FieldOk, Seen, Placed;
      AllSeenIsValid(counts);
      var was, n := windows, |items|;
      var now := seq(|schema|, k requires 0 <= k < |schema| && |was| == |counts| == |schema| =>
        if counts[k] == 0 then Window(n, n) else was[k]);
      windows := now;
      at := seq(|schema|, k requires 0 <= k < |schema| && |now| == |schema| => now[k].first);
    }

    /** An entry has been read: the window of its field is extended over it. */
    method SeeItem(m: nat, from: nat, to: nat, ghost v: Value, ghost counts: seq<nat>)
      requires AllSeen(counts) && m < |schema| && offs[|items|] == from < to <= |buf|
      requires ParseItem(schema, buf[from..]) == Some((Item(m, v), to - from))
      modifies `fields, `items, `offs, `windows
      ensures AllSeen(counts[m := counts[m] + 1]) && offs[|items|] == to && items == old(items) + [Item(m, v)]
    {
      hide PlaceOk, ParseItem, WindowOk;
      ghost var item := Item(m, v);
      assert PlaceOk(schema, buf, item, from, to) by { IsPlace(schema, buf, item, from, to); }
      PlacedMore(schema, buf, items, offs, item, to);
      forall k | 0 <= k < |schema| ensures fields[k].start == |buf| || fields[k].start <= from {
        StartBelow(schema, buf, items, offs, k, windows[k], fields[k], counts[k]);
      }
      forall k | 0 <= k < |schema| ensures
        && (k != m ==> Seen(|buf|, items + [item], offs + [to], k, windows[k], fields[k], counts[k]))
        && (k == m ==> var f := fields[k]; var start := if f.start == |buf| then from else f.start;
              var first := if f.start == |buf| then |items| else windows[k].first;
              Seen(|buf|, items + [item], offs + [to], k, Window(first, |items| + 1), FieldPos(start, to - start, f.pos), counts[k] + 1))
      {
        if counts[k] > 0 {
          WindowInside(items, k, windows[k], |buf|, offs, fields[k], counts[k]);
          PlacesAscend(schema, buf, items, offs, windows[k].first, |items|);
        }
        SeenMore(|buf|, items, offs, k, windows[k], fields[k], counts[k], item, to);
      }
      hide Seen;
      var f := fields[m];
      var start := f.start;
      if start == |buf| {
        start := from;
      }
      windows := windows[m := Window(if f.start == |buf| then |items| else windows[m].first, |items| + 1)];
      fields := fields[m := FieldPos(start, to - start, f.pos)];
      items, offs := items + [item], offs + [to];
    }

    lemma AllSeenIsValid(counts: seq<nat>)
      requires AllSeen(counts) && offs[|items|] == |buf|
      ensures forall k :: 0 <= k < |schema| ==>
        var v := if counts[k] == 0 then Window(|items|, |items|) else windows[k];
        v.first <= |items| && FieldOk(items, offs, k, v, v.first, fields[k]) && ValuesOf(items[v.first..], k) == ValuesOf(items, k)
        && counts[k] == Count(items, k)
    {
      forall k | 0 <= k < |schema| ensures
        var v := if counts[k] == 0 then Window(|items|, |items|) else windows[k];
        v.first <= |items| && FieldOk(items, offs, k, v, v.first, fields[k]) && ValuesOf(items[v.first..], k) == ValuesOf(items, k)
        && counts[k] == Count(items, k)
      {
        SeenIsOk(|buf|, items, offs, k, windows[k], fields[k], counts[k]);
      }
    }

    /** The conditions on the numbers of values. */
    method CheckCounts(counts: seq<nat>) returns (ok: bool)
      requires |counts| == |schema|
      ensures ok <==> forall k :: 0 <= k < |schema| ==> CardOk(schema[k].card, counts[k])
    {
      var k := 0;
      while k < |schema|
        invariant 0 <= k <= |schema| && forall j :: 0 <= j < k ==> CardOk(schema[j].card, counts[j])
      {
        if !CardOk(schema[k].card, counts[k]) {
          return false;
        }
        k := k + 1;
      }
      ok := true;
    }

    method SetPos(k: nat, p: nat, ghost j: nat)
      requires Valid() && k < |schema| && FieldOk(items, offs, k, windows[k], j, fields[k].(pos := p))
      modifies `fields, `at
      ensures Valid() && Unread(k) == ValuesOf(items[j..], k)
      ensures forall i :: 0 <= i < |schema| && i != k ==> Unread(i) == old(Unread(i))
    {
      hide FieldOk;
      fields := fields[k := fields[k].(pos := p)];
      at := at[k := j];
    }

    /** Reads an entry at a place of the buffer with so much left of it. */
    method NextEntry(place: nat, left: nat) returns (r: Option<Entry>)
      requires place + left <= |buf|
      ensures r == ReadEntry(buf[place..place + left])
    {
      ghost var s := buf[place..place + left];
      if left < 4 {
        return None;
      }
      var id, code := Dec16(buf[place], buf[place + 1]), Dec16(buf[place + 2], buf[place + 3]);
      if 1 <= code <= 4 {
        var size := UintSize(code);
        if left - 4 < size {
          return None;
        }
        SliceOfSlice(buf, place, place + left, 4, 4 + size);
        return Some(Entry(id, code, Num(FromLittleEndian(buf[place + 4..place + 4 + size])), 4 + size));
      }
      if code == 5 || code == 6 {
        if left - 4 < 4 {
          return None;
        }
        SliceOfSlice(buf, place, place + left, 4, 8);
        var len := FromLittleEndian(buf[place + 4..place + 8]);
        if left - 8 < len {
          return None;
        }
        SliceOfSlice(buf, place, place + left, 8, 8 + len);
        return Some(Entry(id, code, Payload(buf[place + 8..place + 8 + len]), 8 + len));
      }
      r := None;
    }

    /** The item at a place is read there, also when only the rest of a window is left. */
    lemma ItemAt(j: nat, left: nat)
      requires Valid() && j < |items| && offs[j + 1] <= offs[j] + left <= |buf|
      ensures ReadEntry(buf[offs[j]..offs[j] + left]).Some?
      ensures var e := ReadEntry(buf[offs[j]..offs[j] + left]).value;
        && e.len == offs[j + 1] - offs[j] && e.v == items[j].v && items[j].k < |schema|
        && FindField(schema, e) == Some(items[j].k) && Fits(schema[items[j].k], e)
    {
      assert PlaceOk(schema, buf, items[j], offs[j], offs[j + 1]);
      var s := buf[offs[j]..];
      ReadShorter(s, left);
      assert s[..left] == buf[offs[j]..offs[j] + left];
    }

    /** Parser_Get for field k: the next value of the field, if there is one. */
    method Get(k: nat) returns (r: Option<Value>)
      requires Valid() && k < |schema|
      modifies `fields, `at
      ensures Valid() && forall j :: 0 <= j < |schema| && j != k ==> Unread(j) == old(Unread(j))
      ensures if old(Unread(k)) == [] then r == None && Unread(k) == []
              else r == Some(old(Unread(k))[0]) && Unread(k) == old(Unread(k))[1..]
    {
      hide PlaceOk, SchemaOk, Matches, Fits, ReadEntry, Placed, WindowOk;
      assert FieldOk(items, offs, k, windows[k], at[k], fields[k]);
      ghost var w, j := windows[k], at[k];
      var f := fields[k];
      PlacesAscend(schema, buf, items, offs, at[k], w.end);
      PlacesAscend(schema, buf, items, offs, w.end, |items|);
      var p, left := f.pos, f.span - f.pos;
      while left > 0
        invariant fields == old(fields) && at == old(at)
        invariant at[k] <= j <= w.end && f.start + p == offs[j] && f.start + p + left == offs[w.end]
        invariant forall i :: at[k] <= i < j ==> items[i].k != k
        decreases left
      {
        PlacesAscend(schema, buf, items, offs, j + 1, w.end);
        ItemAt(j, left);
        var e := NextEntry(f.start + p, left);
        p := p + e.value.len;
        left := left - e.value.len;
        SameField(schema, e.value, items[j].k, k);
        if e.value.code == TypeCode(schema[k].ftype) && e.value.id == schema[k].id {
          NextValue(items, at[k], j, k);
          SetPos(k, p, j + 1);
          return Some(e.value.v);
        }
        j := j + 1;
      }
      PlacesAscend(schema, buf, items, offs, j, w.end);
      NoneLeft(items, k, w, at[k]);
      SetPos(k, p, j);
      r := None;
    }

    /** Parser_Reset and Parser_Forward for field k */
    method Reset(k: nat)
      requires Valid() && k < |schema|
      modifies `fields, `at
      ensures Valid() && Unread(k) == ValuesOf(items, k)
      ensures forall j :: 0 <= j < |schema| && j != k ==> Unread(j) == old(Unread(j))
    {
      ghost var w := windows[k];
      assert FieldOk(items, offs, k, w, at[k], fields[k]);
      SetPos(k, 0, w.first);
      assert items == items[..w.first] + items[w.first..];
      ValuesOfAppend(items[..w.first], items[w.first..], k);
      NoValues(items[..w.first], k);
    }

    method Forward(k: nat)
      requires Valid() && k < |schema|
      modifies `fields, `at
      ensures Valid() && Unread(k) == []
      ensures forall j :: 0 <= j < |schema| && j != k ==> Unread(j) == old(Unread(j))
    {
      ghost var w := windows[k];
      assert FieldOk(items, offs, k, w, at[k], fields[k]);
      SetPos(k, fields[k].span, w.end);
      NoValues(items[w.end..], k);
    }

    /** Parser_GotEverything: of no field there is a value that has not been got. */
    method GotEverything() returns (r: bool)
      requires Valid()
      ensures r <==> forall k :: 0 <= k < |schema| ==> Unread(k) == []
    {
      var k := 0;
      while k < |schema|
        invariant 0 <= k <= |schema| && forall j :: 0 <= j < k ==> Unread(j) == []
      {
        AllGot(k);
        if fields[k].pos != fields[k].span {
          return false;
        }
        k := k + 1;
      }
      r := true;
    }

    lemma AllGot(k: nat)
      requires Valid() && k < |schema|
      ensures Unread(k) == [] <==> fields[k].pos == fields[k].span
    {
      var w := windows[k];
      assert FieldOk(items, offs, k, w, at[k], fields[k]);
      PlacesAscend(schema, buf, items, offs, at[k], w.end);
      if at[k] == w.end {
        NoValues(items[w.end..], k);
      } else {
        var rest := items[at[k]..];
        var last := w.end - 1 - at[k];
        assert rest == rest[..last] + rest[last..];
        ValuesOfAppend(rest[..last], rest[last..], k);
      }
    }
  }

  // ---------------------------------------------------------------- the writer

  class Writer {
    const schema: Schema
    const out: array<byte>
    var used: nat
    var counts: seq<nat>
    ghost var items: seq<Item>

    ghost predicate Valid()
      reads this, out
    {
      && SchemaOk(schema) && ItemsOk(schema, items) && |counts| == |schema| && used <= out.Length
      && out[..used] == Encode(schema, items)
      && (forall k :: 0 <= k < |schema| ==> counts[k] == Count(items, k))
    }

    constructor (schema: Schema, out: array<byte>)
      requires SchemaOk(schema)
      ensures Valid() && this.schema == schema && this.out == out && items == []
    {
      this.schema, this.out, used, items := schema, out, 0, [];
      counts := seq(|schema|, i => 0);
    }

    /** Writer_Add for field k; there is room for the value, as the caller provides it. */
    method Add(k: nat, v: Value)
      requires Valid() && k < |schema| && ValueOk(schema[k].ftype, v)
      requires schema[k].card.Optional? || schema[k].card.Required? ==> counts[k] == 0
      requires used + |EncodeItem(schema, Item(k, v))| <= out.Length
      modifies this, out
      ensures Valid() && items == old(items) + [Item(k, v)]
    {
      hide SchemaOk, ItemsOk, Encode, EncodeItem, ValueOk;
      AddedItem(schema, items, Item(k, v));
      WriteItem(k, v);
      counts := counts[k := counts[k] + 1];
      items := items + [Item(k, v)];
    }

    method WriteItem(k: nat, v: Value)
      requires k < |schema| && ValueOk(schema[k].ftype, v)
      requires used + |EncodeItem(schema, Item(k, v))| <= out.Length
      modifies `used, out
      ensures used <= out.Length && out[..used] == old(out[..used]) + EncodeItem(schema, Item(k, v))
    {
      hide ToLittleEndian, TypeCode;
      ghost var was := out[..used];
      var id, code := Enc16(schema[k].id), Enc16(TypeCode(schema[k].ftype));
      Write(id);
      Write(code);
      if schema[k].ftype.Uint? {
        Write(ToLittleEndian(v.n, schema[k].ftype.size));
      } else {
        Write(ToLittleEndian(|v.s|, 4));
        Write(v.s);
        assert was + id + code + ToLittleEndian(|v.s|, 4) + v.s == was + (id + code + (ToLittleEndian(|v.s|, 4) + v.s));
      }
    }

    method Write(s: seq<byte>)
      requires used + |s| <= out.Length
      modifies `used, out
      ensures used == old(used) + |s| && out[..used] == old(out[..used]) + s
    {
      CopyTo(out, used, s);
      assert out[..used + |s|] == old(out[..used]) + s;
      used := used + |s|;
    }

    /** Writer_Finish: the values are there in the numbers the schema asks for, and a Parser accepts them. */
    method Finish() returns (len: nat)
      requires Valid() && CountsOk(schema, items)
      ensures len == used && Accepts(schema, out[..len]) && ParseAll(schema, out[..len]) == Some(items)
    {
      EncodedParses(schema, items);
      len := used;
    }
  }

  lemma {:induction false} EncodeAppend(schema: Schema, items: seq<Item>, item: Item)
    requires ItemsOk(schema, items) && ItemOk(schema, item)
    ensures ItemsOk(schema, items + [item])
    ensures Encode(schema, items + [item]) == Encode(schema, items) + EncodeItem(schema, item)
  {
    hide EncodeItem, ItemOk;
    if items == [] {
      assert items + [item] == [item] && [item][1..] == [];
      assert Encode(schema, [item]) == EncodeItem(schema, item) + Encode(schema, []);
    } else {
      EncodeAppend(schema, items[1..], item);
      var more := items + [item];
      assert more[1..] == items[1..] + [item];
      assert Encode(schema, more) == EncodeItem(schema, items[0]) + Encode(schema, more[1..]);
    }
  }

  lemma AddedItem(schema: Schema, items: seq<Item>, item: Item)
    requires ItemsOk(schema, items) && ItemOk(schema, item)
    ensures ItemsOk(schema, items + [item])
    ensures Encode(schema, items + [item]) == Encode(schema, items) + EncodeItem(schema, item)
    ensures forall k :: Count(items + [item], k) == Count(items, k) + (if item.k == k then 1 else 0)
  {
    EncodeAppend(schema, items, item);
    forall k ensures Count(items + [item], k) == Count(items, k) + (if item.k == k then 1 else 0) {
      ValuesOfAppend(items, [item], k);
      assert [item][1..] == [];
    }
  }
}
