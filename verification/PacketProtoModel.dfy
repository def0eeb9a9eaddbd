/**
 * PacketProto: a stream of packets, each with its length in front, and what a decoder makes of the
 * bytes it has.
 */
module PacketProtoModel {
  import opened Bytes
  import opened Lists

  const MAX_PAYLOAD := 0xFFFF

  function EncodePacket(payload: seq<byte>): seq<byte>
    requires |payload| <= MAX_PAYLOAD
  {
    Enc16(|payload|) + payload
  }

  ghost predicate Fit(mtu: nat, ps: seq<seq<byte>>) {
    forall i :: 0 <= i < |ps| ==> |ps[i]| <= mtu
  }

  ghost function Stream(mtu: nat, ps: seq<seq<byte>>): seq<byte>
    requires mtu <= MAX_PAYLOAD && Fit(mtu, ps)
  {
    if ps == [] then [] else EncodePacket(ps[0]) + Stream(mtu, ps[1..])
  }

  /** What process_data does with the bytes of the buffer. */
  datatype Found = NeedMore | TooLarge | Packet(data: seq<byte>, rest: seq<byte>)

  function Process(mtu: nat, bytes: seq<byte>): Found {
    if |bytes| < 2 then NeedMore
    else
      var len := Dec16(bytes[0], bytes[1]);
      if len > mtu then TooLarge
      else if |bytes| - 2 < len then NeedMore
      else Packet(bytes[2..2 + len], bytes[2 + len..])
  }

  /** The packets in the bytes, and the bytes that are left; none are left after an error. */
  datatype Drained = Drained(packets: seq<seq<byte>>, rest: seq<byte>, error: bool)

  function Drain(mtu: nat, bytes: seq<byte>): Drained
    decreases |bytes|
  {
    match Process(mtu, bytes)
    case NeedMore => Drained([], bytes, false)
    case TooLarge => Drained([], [], true)
    case Packet(data, rest) => var d := Drain(mtu, rest); Drained([data] + d.packets, d.rest, d.error)
  }

  /** The stream in pieces as they are received. */
  function DrainAll(mtu: nat, bytes: seq<byte>, chunks: seq<seq<byte>>): Drained
    decreases |chunks|
  {
    if chunks == [] then Drained([], bytes, false)
    else
      var d := Drain(mtu, bytes + chunks[0]);
      if d.error then d
      else
        var e := DrainAll(mtu, d.rest, chunks[1..]);
        Drained(d.packets + e.packets, e.rest, e.error)
  }

  function Concat(chunks: seq<seq<byte>>): seq<byte> {
    if chunks == [] then [] else chunks[0] + Concat(chunks[1..])
  }

  lemma ProcessPrefix(mtu: nat, ps: seq<seq<byte>>, bytes: seq<byte>, later: seq<byte>)
    requires mtu <= MAX_PAYLOAD && Fit(mtu, ps) && bytes + later == Stream(mtu, ps)
    ensures ps == [] ==> bytes == [] && later == [] && Process(mtu, bytes) == NeedMore
    ensures ps != [] ==> |bytes| + |later| >= 2 + |ps[0]|
    ensures ps != [] && |bytes| < 2 + |ps[0]| ==> Process(mtu, bytes) == NeedMore
    ensures ps != [] && |bytes| >= 2 + |ps[0]| ==>
      Process(mtu, bytes) == Packet(ps[0], bytes[2 + |ps[0]|..]) && bytes[2 + |ps[0]|..] + later == Stream(mtu, ps[1..])
  {
    if ps == [] {
      assert |bytes + later| == 0;
    } else {
      var first := EncodePacket(ps[0]);
      assert first + Stream(mtu, ps[1..]) == bytes + later;
      assert first[0] == Enc16(|ps[0]|)[0] && first[1] == Enc16(|ps[0]|)[1];
      if |bytes| >= 2 {
        assert bytes[0] == (bytes + later)[0] == first[0] && bytes[1] == (bytes + later)[1] == first[1];
      }
      if |bytes| >= |first| {
        assert bytes[..|first|] == (bytes + later)[..|first|] == first;
        assert bytes[2..|first|] == first[2..] == ps[0];
        assert (bytes + later)[|first|..] == bytes[|first|..] + later;
      }
    }
  }

  /** Of the beginning of a stream, the decoder takes whole packets and keeps the rest. */
  lemma {:induction false} DrainPrefix(mtu: nat, ps: seq<seq<byte>>, bytes: seq<byte>, later: seq<byte>)
    requires mtu <= MAX_PAYLOAD && Fit(mtu, ps) && bytes + later == Stream(mtu, ps)
    ensures var d := Drain(mtu, bytes); var k := |d.packets|;
      && !d.error && k <= |ps| && d.packets == ps[..k] && d.rest + later == Stream(mtu, ps[k..])
      && (later == [] ==> k == |ps|)
    decreases |ps|
  {
    hide Process, EncodePacket;
    ProcessPrefix(mtu, ps, bytes, later);
    if ps != [] && |bytes| >= 2 + |ps[0]| {
      DrainPrefix(mtu, ps[1..], bytes[2 + |ps[0]|..], later);
      var d := Drain(mtu, bytes[2 + |ps[0]|..]);
      SlicesOfTail(ps, |d.packets|);
    } else {
      assert ps[0..] == ps && Drain(mtu, bytes) == Drained([], bytes, false);
    }
  }

  /**
   * Whatever pieces the stream comes in, exactly the packets that were encoded come out, in their
   * order, and nothing is left over.
   */
  lemma {:induction false} AnySplit(mtu: nat, ps: seq<seq<byte>>, bytes: seq<byte>, chunks: seq<seq<byte>>)
    requires mtu <= MAX_PAYLOAD && Fit(mtu, ps) && bytes + Concat(chunks) == Stream(mtu, ps)
    requires Drain(mtu, bytes).packets == []
    ensures DrainAll(mtu, bytes, chunks) == Drained(ps, [], false)
    decreases |chunks|
  {
    if chunks == [] {
      DrainPrefix(mtu, ps, bytes, []);
      assert bytes + [] == bytes;
    } else {
      var later := Concat(chunks[1..]);
      assert bytes + Concat(chunks) == (bytes + chunks[0]) + later;
      DrainPrefix(mtu, ps, bytes + chunks[0], later);
      var d := Drain(mtu, bytes + chunks[0]);
      DrainedDry(mtu, bytes + chunks[0]);
      AnySplit(mtu, ps[|d.packets|..], d.rest, chunks[1..]);
      assert ps == ps[..|d.packets|] + ps[|d.packets|..];
    }
  }

  lemma {:induction false} DrainedDry(mtu: nat, bytes: seq<byte>)
    ensures Drain(mtu, Drain(mtu, bytes).rest).packets == []
    decreases |bytes|
  {
    if Process(mtu, bytes).Packet? {
      DrainedDry(mtu, Process(mtu, bytes).rest);
    }
  }
}
