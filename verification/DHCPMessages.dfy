/** What the DHCP client reads of a message: the checks of the header and the walk over the options. */
module DHCPMessages {
  import opened Bytes
  import opened DHCPClientModel
  import opened Lists

  const MAX_DOMAIN_NAME_SERVERS := 16

  /** A number as it is in memory, which is only compared and passed on, and one in network order. */
  function Raw32(s: seq<byte>): uint32
    requires |s| == 4
  {
    ToFromLittleEndian(s);
    PowersOf256();
    FromLittleEndian(s)
  }

  function Net32(s: seq<byte>): uint32
    requires |s| == 4
  {
    var b0: int, b1: int, b2: int := s[0], s[1], s[2];
    0x100_0000 * b0 + 0x1_0000 * b1 + 0x100 * b2 + s[3]
  }

  /** What the options of a message say, the last one of each kind. */
  datatype Found = Found(messageType: Option<byte>, server: Option<uint32>, lease: Option<uint32>, mask: Option<uint32>,
                         router: Option<uint32>, dns: seq<uint32>)

  const NOTHING := Found(None, None, None, None, None, [])

  function Addresses(val: seq<byte>, n: nat): (r: seq<uint32>)
    requires 4 * n <= |val|
    ensures |r| == n
  {
    if n == 0 then [] else Addresses(val, n - 1) + [Raw32(val[4 * (n - 1)..4 * n])]
  }

  /** The switch over the type of an option; a message with an option of a wrong length is ignored. */
  function Apply(f: Found, t: byte, val: seq<byte>): Option<Found> {
    if t == 53 then if |val| != 1 then None else Some(f.(messageType := Some(val[0])))
    else if t == 54 then if |val| != 4 then None else Some(f.(server := Some(Raw32(val))))
    else if t == 51 then if |val| != 4 then None else Some(f.(lease := Some(Net32(val))))
    else if t == 1 then if |val| != 4 then None else Some(f.(mask := Some(Raw32(val))))
    else if t == 3 then if |val| != 4 then None else Some(f.(router := Some(Raw32(val))))
    else if t == 6 then
      if |val| % 4 != 0 then None else Some(f.(dns := Addresses(val, Min(|val| / 4, MAX_DOMAIN_NAME_SERVERS))))
    else Some(f)
  }

  /** The walk over the options. */
  function Walk(s: seq<byte>, haveEnd: bool, f: Found): Option<Found>
    decreases |s|
  {
    if s == [] then (if haveEnd then Some(f) else None)
    else if s[0] == 0 then Walk(s[1..], haveEnd, f)
    else if haveEnd then None
    else if s[0] == 0xFF then Walk(s[1..], true, f)
    else if |s| < 2 || s[1] > |s| - 2 then None
    else
      match Apply(f, s[0], s[2..2 + s[1]])
      case None => None
      case Some(g) => Walk(s[2 + s[1]..], false, g)
  }

  // ---------------------------------------------------------------- which options are accepted

  /** An option, or a byte of padding in between. */
  datatype Element = Pad | Opt(t: byte, val: seq<byte>)

  predicate ElementOk(e: Element) {
    e.Opt? ==> e.t != 0 && e.t != 0xFF && |e.val| <= 255
  }

  ghost predicate ElementsOk(es: seq<Element>) {
    forall i :: 0 <= i < |es| ==> ElementOk(es[i])
  }

  function Wire(e: Element): seq<byte>
    requires ElementOk(e)
  {
    if e.Pad? then [0] else [e.t, |e.val|] + e.val
  }

  ghost function WireAll(es: seq<Element>): seq<byte>
    requires ElementsOk(es)
  {
    if es == [] then [] else Wire(es[0]) + WireAll(es[1..])
  }

  function ApplyAll(f: Found, es: seq<Element>): Option<Found>
    decreases |es|
  {
    if es == [] then Some(f)
    else if es[0].Pad? then ApplyAll(f, es[1..])
    else
      match Apply(f, es[0].t, es[0].val)
      case None => None
      case Some(g) => ApplyAll(g, es[1..])
  }

  // ---------------------------------------------------------------- what the options say

  predicate LengthOk(t: byte, val: seq<byte>) {
    && (t == 53 ==> |val| == 1) && (t == 6 ==> |val| % 4 == 0)
    && (t == 1 || t == 3 || t == 51 || t == 54 ==> |val| == 4)
  }

  /** The last option of a type. */
  function LastOf(es: seq<Element>, t: byte): Option<seq<byte>> {
    if es == [] then None
    else if es[|es| - 1].Opt? && es[|es| - 1].t == t then Some(es[|es| - 1].val)
    else LastOf(es[..|es| - 1], t)
  }

  /** Nothing of the type comes behind it. */
  predicate NoneFrom(es: seq<Element>, i: nat, t: byte) {
    forall j :: i <= j < |es| && es[j].Opt? ==> es[j].t != t
  }

  lemma {:induction false} LastOfIsLast(es: seq<Element>, t: byte) returns (n: nat)
    ensures n <= |es| && NoneFrom(es, n, t)
    ensures if n == 0 then LastOf(es, t) == None else es[n - 1].Opt? && es[n - 1].t == t && LastOf(es, t) == Some(es[n - 1].val)
  {
    n := |es|;
    if es != [] && !(es[n - 1].Opt? && es[n - 1].t == t) {
      n := LastOfIsLast(es[..|es| - 1], t);
      forall j | n <= j < |es| && es[j].Opt? ensures es[j].t != t {
        assert j < |es| - 1 ==> es[..|es| - 1][j] == es[j];
      }
    }
  }

  /** The number an option gives, if it is there and has the right length. */
  function Number(v: Option<seq<byte>>, net: bool, otherwise: Option<uint32>): Option<uint32> {
    if v.Some? && |v.value| == 4 then Some(if net then Net32(v.value) else Raw32(v.value)) else otherwise
  }

  function Byte(v: Option<seq<byte>>, otherwise: Option<byte>): Option<byte> {
    if v.Some? && |v.value| == 1 then Some(v.value[0]) else otherwise
  }

  function Servers(v: Option<seq<byte>>, otherwise: seq<uint32>): seq<uint32> {
    if v.Some? then Addresses(v.value, Min(|v.value| / 4, MAX_DOMAIN_NAME_SERVERS)) else otherwise
  }

  lemma {:induction false} ApplyAllAppend(f: Found, es: seq<Element>, e: Element)
    ensures ApplyAll(f, es + [e]) ==
      if ApplyAll(f, es).None? then None
      else if e.Pad? then ApplyAll(f, es) else Apply(ApplyAll(f, es).value, e.t, e.val)
    decreases |es|
  {
    var all := es + [e];
    if es == [] {
      assert all[1..] == [];
    } else {
      assert all[1..] == es[1..] + [e];
      if es[0].Pad? {
        ApplyAllAppend(f, es[1..], e);
      } else if Apply(f, es[0].t, es[0].val).Some? {
        ApplyAllAppend(Apply(f, es[0].t, es[0].val).value, es[1..], e);
      }
    }
  }

  lemma LastOfAppend(es: seq<Element>, e: Element, t: byte)
    ensures LastOf(es + [e], t) == if e.Opt? && e.t == t then Some(e.val) else LastOf(es, t)
  {
    assert (es + [e])[..|es|] == es;
  }

  /** What a message says of which these are the options. */
  function Says(f: Found, es: seq<Element>): Found {
    Found(Byte(LastOf(es, 53), f.messageType), Number(LastOf(es, 54), false, f.server), Number(LastOf(es, 51), true, f.lease),
          Number(LastOf(es, 1), false, f.mask), Number(LastOf(es, 3), false, f.router), Servers(LastOf(es, 6), f.dns))
  }

  lemma OneMoreOption(f: Found, es: seq<Element>, t: byte, val: seq<byte>)
    ensures Apply(Says(f, es), t, val).Some? <==> LengthOk(t, val)
    ensures LengthOk(t, val) ==> Apply(Says(f, es), t, val).value == Says(f, es + [Opt(t, val)])
  {
    hide LastOf, Raw32, Net32, Addresses;
    LastOfAppend(es, Opt(t, val), 53);
    LastOfAppend(es, Opt(t, val), 54);
    LastOfAppend(es, Opt(t, val), 51);
    LastOfAppend(es, Opt(t, val), 1);
    LastOfAppend(es, Opt(t, val), 3);
    LastOfAppend(es, Opt(t, val), 6);
  }

  lemma OneMorePad(f: Found, es: seq<Element>)
    ensures Says(f, es + [Pad]) == Says(f, es)
  {
    hide LastOf, Byte, Number, Servers;
    forall t: byte ensures LastOf(es + [Pad], t) == LastOf(es, t) {
      LastOfAppend(es, Pad, t);
    }
  }

  /**
   * A message is ignored exactly if some option has the wrong length for its type, and otherwise it
   * says what the last option of each type says.
   */
  lemma {:induction false} LastOptionsCount(f: Found, es: seq<Element>)
    ensures ApplyAll(f, es).Some? <==> forall i :: 0 <= i < |es| && es[i].Opt? ==> LengthOk(es[i].t, es[i].val)
    ensures ApplyAll(f, es).Some? ==> ApplyAll(f, es).value == Says(f, es)
  {
    hide Apply, Says, LengthOk;
    if es == [] {
      NoOptions(f);
    } else {
      var front, e := es[..|es| - 1], es[|es| - 1];
      assert es == front + [e];
      LastOptionsCount(f, front);
      ApplyAllAppend(f, front, e);
      if e.Pad? {
        OneMorePad(f, front);
      } else {
        OneMoreOption(f, front, e.t, e.val);
      }
    }
  }

  lemma NoOptions(f: Found)
    ensures Says(f, []) == f
  {
  }

  /** The options es, the end option and padding. */
  ghost predicate WellFormed(s: seq<byte>, es: seq<Element>, n: nat) {
    ElementsOk(es) && s == WireAll(es) + [0xFF] + Zeros(n)
  }

  lemma {:induction false} OnlyZeros(s: seq<byte>, f: Found)
    ensures Walk(s, true, f) == if s == Zeros(|s|) then Some(f) else None
  {
    if s != [] {
      OnlyZeros(s[1..], f);
      if s == Zeros(|s|) {
        assert s[1..] == Zeros(|s| - 1);
      }
      assert s == [s[0]] + s[1..];
    }
  }

  lemma {:induction false} WalkWellFormed(s: seq<byte>, es: seq<Element>, n: nat, f: Found)
    requires WellFormed(s, es, n)
    ensures Walk(s, false, f) == ApplyAll(f, es)
    decreases |es|
  {
    if es == [] {
      assert s[1..] == Zeros(n);
      OnlyZeros(s[1..], f);
    } else {
      var w := Wire(es[0]);
      var rest := s[|w|..];
      assert WellFormed(rest, es[1..], n) by {
        assert s == w + (WireAll(es[1..]) + [0xFF] + Zeros(n));
      }
      assert s[..|w|] == w && s[0] == w[0];
      if es[0].Pad? {
        WalkWellFormed(rest, es[1..], n, f);
      } else {
        assert s[1] == w[1] && s[2..2 + s[1]] == es[0].val;
        if Apply(f, es[0].t, es[0].val).Some? {
          WalkWellFormed(rest, es[1..], n, Apply(f, es[0].t, es[0].val).value);
        }
      }
    }
  }

  lemma {:induction false} AcceptedIsWellFormed(s: seq<byte>, f: Found) returns (es: seq<Element>, n: nat)
    requires Walk(s, false, f).Some?
    ensures WellFormed(s, es, n)
    decreases |s|
  {
    if s[0] == 0 {
      es, n := AcceptedIsWellFormed(s[1..], f);
      MoreElements(s, Pad, es, n);
      es := [Pad] + es;
    } else if s[0] == 0xFF {
      OnlyZeros(s[1..], f);
      es, n := [], |s| - 1;
      assert s == [s[0]] + s[1..];
    } else {
      var e := Opt(s[0], s[2..2 + s[1]]);
      es, n := AcceptedIsWellFormed(s[2 + s[1]..], Apply(f, e.t, e.val).value);
      assert s[..2 + s[1]] == Wire(e);
      MoreElements(s, e, es, n);
      es := [e] + es;
    }
  }

  lemma MoreElements(s: seq<byte>, e: Element, es: seq<Element>, n: nat)
    requires ElementOk(e) && |Wire(e)| <= |s| && s[..|Wire(e)|] == Wire(e) && WellFormed(s[|Wire(e)|..], es, n)
    ensures WellFormed(s, [e] + es, n)
  {
    assert ([e] + es)[1..] == es;
    assert s == Wire(e) + s[|Wire(e)|..];
    assert Wire(e) + (WireAll(es) + [0xFF] + Zeros(n)) == Wire(e) + WireAll(es) + [0xFF] + Zeros(n);
  }

  /**
   * The options are accepted if and only if they are options of the right form with padding anywhere
   * between them, an end option, and then padding only; and then they say what they say in turn.
   */
  lemma WalkExact(s: seq<byte>, f: Found, r: Found)
    ensures Walk(s, false, f) == Some(r) <==>
      exists es: seq<Element>, n: nat :: WellFormed(s, es, n) && ApplyAll(f, es) == Some(r)
  {
    if Walk(s, false, f) == Some(r) {
      var es, n := AcceptedIsWellFormed(s, f);
      WalkWellFormed(s, es, n, f);
    }
    forall es: seq<Element>, n: nat | WellFormed(s, es, n) && ApplyAll(f, es) == Some(r) ensures Walk(s, false, f) == Some(r) {
      WalkWellFormed(s, es, n, f);
    }
  }

  // ---------------------------------------------------------------- messages

  /** sizeof(struct dhcp_header) */
  const HEADER := 240

  predicate HeaderOk(xid: nat, mac: seq<byte>, s: seq<byte>) {
    && |s| >= HEADER
    && s[0] == 2 && s[1] == 1 && s[2] == 6
    && Raw32(s[4..8]) == xid && s[28..34] == mac
    && Net32(s[236..240]) == 0x63825363
  }

  function KindOf(messageType: byte): Option<Kind> {
    if messageType == 2 then Some(Offer) else if messageType == 5 then Some(Ack)
    else if messageType == 6 then Some(Nak) else None
  }

  function ReplyOf(yiaddr: uint32, f: Found): Option<Reply> {
    if f.messageType.None? || f.server.None? then None
    else
      match KindOf(f.messageType.value)
      case None => None
      case Some(kind) => Some(Reply(kind, f.server.value, yiaddr, f.lease, f.mask, f.router, f.dns))
  }

  /** What recv_handler_done reads, up to where the state of the client matters. */
  function ReadReply(xid: nat, mac: seq<byte>, s: seq<byte>): Option<Reply> {
    if !HeaderOk(xid, mac, s) then None
    else
      match Walk(s[HEADER..], false, NOTHING)
      case None => None
      case Some(f) => ReplyOf(Raw32(s[16..20]), f)
  }

  /** The loop over the servers of a domain name server option. */
  method ReadServers(val: seq<byte>) returns (servers: seq<uint32>)
    requires |val| % 4 == 0
    ensures servers == Addresses(val, Min(|val| / 4, MAX_DOMAIN_NAME_SERVERS))
  {
    var numServers := |val| / 4;
    servers := [];
    var i := 0;
    while i < numServers && i < MAX_DOMAIN_NAME_SERVERS
      invariant 0 <= i <= numServers && i <= MAX_DOMAIN_NAME_SERVERS && servers == Addresses(val, i)
    {
      servers := servers + [Raw32(val[4 * i..4 * i + 4])];
      i := i + 1;
    }
  }

  /** The loop over the options. */
  method ReadOptions(buf: seq<byte>) returns (r: Option<Found>)
    ensures r == Walk(buf, false, NOTHING)
  {
    hide Apply;
    var pos, len := 0, |buf|;
    var haveEnd, found := false, NOTHING;
    assert buf[0..] == buf;
    while len > 0
      invariant 0 <= pos <= pos + len == |buf| && Walk(buf, false, NOTHING) == Walk(buf[pos..], haveEnd, found)
      decreases len
    {
      ghost var rest := buf[pos..];
      assert rest[0] == buf[pos] && rest[1..] == buf[pos + 1..];
      if buf[pos] == 0 {
        pos, len := pos + 1, len - 1;
        continue;
      }
      if haveEnd {
        return None;
      }
      if buf[pos] == 0xFF {
        pos, len := pos + 1, len - 1;
        haveEnd := true;
        continue;
      }
      if len < 2 {
        return None;
      }
      var optType, optLen := buf[pos], buf[pos + 1];
      if optLen > len - 2 {
        return None;
      }
      var optval := buf[pos + 2..pos + 2 + optLen];
      assert rest[1] == optLen && rest[2..2 + optLen] == optval && rest[2 + optLen..] == buf[pos + 2 + optLen..];
      pos, len := pos + 2 + optLen, len - 2 - optLen;
      var next := ReadOption(found, optType, optval);
      if next.None? {
        return None;
      }
      found := next.value;
    }
    assert buf[pos..] == [];
    r := if haveEnd then Some(found) else None;
  }

  method ReadOption(f: Found, t: byte, val: seq<byte>) returns (r: Option<Found>)
    ensures r == Apply(f, t, val)
  {
    if t == 53 {
      if |val| != 1 { return None; }
      r := Some(f.(messageType := Some(val[0])));
    } else if t == 54 {
      if |val| != 4 { return None; }
      r := Some(f.(server := Some(Raw32(val))));
    } else if t == 51 {
      if |val| != 4 { return None; }
      r := Some(f.(lease := Some(Net32(val))));
    } else if t == 1 {
      if |val| != 4 { return None; }
      r := Some(f.(mask := Some(Raw32(val))));
    } else if t == 3 {
      if |val| != 4 { return None; }
      r := Some(f.(router := Some(Raw32(val))));
    } else if t == 6 {
      if |val| % 4 != 0 { return None; }
      var servers := ReadServers(val);
      r := Some(f.(dns := servers));
    } else {
      r := Some(f);
    }
  }
}
