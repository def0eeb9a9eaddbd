/**
 * The encoder of PacketProto, which puts the length in front of a packet it has had received into
 * the right place, and the decoder, which takes packets out of a buffer that wraps.
 */
module PacketProto {
  import opened Bytes
  import opened Lists
  import opened PacketProtoModel

  class Encoder {
    var outputPacket: array?<byte>

    constructor ()
      ensures outputPacket == null
    {
      outputPacket := null;
    }

    /** The payload is going to be received behind the place of the header. */
    method OutputHandlerRecv(data: array<byte>)
      requires outputPacket == null && data.Length >= 2
      modifies this
      ensures outputPacket == data
    {
      outputPacket := data;
    }

    /** The payload is in place; the result is the length of the packet. */
    method InputHandlerDone(inLen: nat) returns (outLen: nat)
      requires outputPacket != null && inLen <= MAX_PAYLOAD && 2 + inLen <= outputPacket.Length
      modifies this, outputPacket
      ensures outputPacket == null && outLen == 2 + inLen
      ensures var packet := old(outputPacket); packet[..outLen] == EncodePacket(old(outputPacket[2..2 + inLen]))
    {
      var pp := Enc16(inLen);
      outputPacket[0] := pp[0];
      outputPacket[1] := pp[1];
      outputPacket := null;
      outLen := 2 + inLen;
    }
  }

  /** What process_data ends with: a packet for the output, or a receive, maybe with an error. */
  datatype Action = Send(data: seq<byte>) | Recv(error: bool)

  class Decoder {
    const outputMtu: nat
    const buf: array<byte>
    var bufStart: nat
    var bufUsed: nat

    ghost predicate Valid()
      reads this
    {
      outputMtu <= MAX_PAYLOAD && buf.Length == 2 + outputMtu && bufStart + bufUsed <= buf.Length
    }

    /** What has been received and not been taken yet. */
    ghost function Content(): seq<byte>
      requires Valid()
      reads this, buf
    {
      buf[bufStart..bufStart + bufUsed]
    }

    /** Where and how much is received. */
    function Space(): nat
      requires Valid()
      reads this
    {
      buf.Length - (bufStart + bufUsed)
    }

    constructor (mtu: nat)
      ensures Valid() && outputMtu == Min(mtu, MAX_PAYLOAD) && Content() == [] && Space() > 0 && fresh(buf)
    {
      outputMtu := Min(mtu, MAX_PAYLOAD);
      buf := new byte[2 + Min(mtu, MAX_PAYLOAD)];
      bufStart, bufUsed := 0, 0;
    }

    /** memmove of the used part to the beginning of the buffer */
    method MoveToFront()
      requires Valid()
      modifies this, buf
      ensures Valid() && Content() == old(Content()) && bufStart == 0
    {
      ghost var was := buf[..];
      var i := 0;
      while i < bufUsed
        invariant 0 <= i <= bufUsed && Valid() && bufStart == old(bufStart) && bufUsed == old(bufUsed)
        invariant forall k :: 0 <= k < i ==> buf[k] == was[bufStart + k]
        invariant forall k :: i <= k < buf.Length ==> buf[k] == was[k]
      {
        buf[i] := buf[bufStart + i];
        i := i + 1;
      }
      bufStart := 0;
    }

    /** A packet goes to the output, or there is a receive, and then there is room for it. */
    method ProcessData() returns (action: Action)
      requires Valid()
      modifies this, buf
      ensures Valid()
      ensures match Process(outputMtu, old(Content()))
        case Packet(data, rest) => action == Send(data) && Content() == rest
        case NeedMore => action == Recv(false) && Content() == old(Content()) && Space() > 0
        case TooLarge => action == Recv(true) && Content() == [] && Space() > 0
    {
      var wasError := false;
      if bufUsed >= 2 {
        var dataLen := Dec16(buf[bufStart], buf[bufStart + 1]);
        if dataLen > outputMtu {
          wasError := true;
        } else if bufUsed - 2 >= dataLen {
          ghost var content := Content();
          var data := buf[bufStart + 2..bufStart + 2 + dataLen];
          forall i | 0 <= i < dataLen ensures data[i] == content[2 + i] {}
          assert data == content[2..2 + dataLen];
          bufStart := bufStart + 2 + dataLen;
          bufUsed := bufUsed - (2 + dataLen);
          assert Content() == content[2 + dataLen..];
          return Send(data);
        }
      }
      if wasError {
        bufStart, bufUsed := 0, 0;
      } else if bufStart + bufUsed == buf.Length {
        MoveToFront();
      }
      action := Recv(wasError);
    }

    /** The bytes have been received into the space that was offered. */
    method InputHandlerDone(data: seq<byte>) returns (action: Action)
      requires Valid() && 0 < |data| <= Space()
      modifies this, buf
      ensures Valid()
      ensures match Process(outputMtu, old(Content()) + data)
        case Packet(packet, rest) => action == Send(packet) && Content() == rest
        case NeedMore => action == Recv(false) && Content() == old(Content()) + data && Space() > 0
        case TooLarge => action == Recv(true) && Content() == [] && Space() > 0
    {
      hide Process;
      CopyTo(buf, bufStart + bufUsed, data);
      assert buf[bufStart..bufStart + bufUsed + |data|] == old(Content()) + data;
      bufUsed := bufUsed + |data|;
      action := ProcessData();
    }

    method OutputHandlerDone() returns (action: Action)
      requires Valid()
      modifies this, buf
      ensures Valid()
      ensures match Process(outputMtu, old(Content()))
        case Packet(data, rest) => action == Send(data) && Content() == rest
        case NeedMore => action == Recv(false) && Content() == old(Content()) && Space() > 0
        case TooLarge => action == Recv(true) && Content() == [] && Space() > 0
    {
      action := ProcessData();
    }

    /** PacketProtoDecoder_Reset */
    method Reset()
      requires Valid()
      modifies this
      ensures Valid() && Content() == [] && Space() == old(Space())
    {
      bufStart := bufStart + bufUsed;
      bufUsed := 0;
    }
  }

  /** What comes next is the first of the packets, or a receive for the rest of it. */
  ghost predicate Expecting(d: Decoder, action: Action, packets: seq<seq<byte>>, later: seq<byte>)
    requires d.Valid() && Fit(d.outputMtu, packets)
    reads d, d.buf
  {
    if action.Send? then
      packets != [] && action.data == packets[0] && d.Content() + later == Stream(d.outputMtu, packets[1..])
    else
      && action == Recv(false) && d.Space() > 0
      && d.Content() + later == Stream(d.outputMtu, packets) && Process(d.outputMtu, d.Content()).NeedMore?
  }

  /** The output takes packet after packet, until the decoder receives again. */
  method TakePackets(d: Decoder, first: Action, ghost packets: seq<seq<byte>>, ghost later: seq<byte>) returns (out: seq<seq<byte>>)
    requires d.Valid() && Fit(d.outputMtu, packets) && Expecting(d, first, packets, later)
    modifies d, d.buf
    ensures d.Valid() && |out| <= |packets| && out == packets[..|out|] && Expecting(d, Recv(false), packets[|out|..], later)
  {
    hide Process, Stream;
    out := [];
    var action := first;
    assert packets[0..] == packets;
    while action.Send?
      invariant d.Valid() && |out| <= |packets| && out == packets[..|out|]
      invariant Expecting(d, action, packets[|out|..], later)
      decreases |packets| - |out|, action.Send?
    {
      out := out + [action.data];
      assert packets[|out| - 1..][1..] == packets[|out|..];
      ProcessPrefix(d.outputMtu, packets[|out|..], d.Content(), later);
      action := d.OutputHandlerDone();
    }
  }

  /** A part of the stream is received, and the packets in it go to the output. */
  method ReceiveSome(d: Decoder, data: seq<byte>, ghost packets: seq<seq<byte>>, ghost later: seq<byte>) returns (out: seq<seq<byte>>)
    requires d.Valid() && Fit(d.outputMtu, packets) && Expecting(d, Recv(false), packets, data + later)
    requires 0 < |data| <= d.Space()
    modifies d, d.buf
    ensures d.Valid() && |out| <= |packets| && out == packets[..|out|] && Expecting(d, Recv(false), packets[|out|..], later)
  {
    hide Process, Stream;
    ghost var more := d.Content() + data;
    assert more + later == d.Content() + (data + later);
    ProcessPrefix(d.outputMtu, packets, more, later);
    var action := d.InputHandlerDone(data);
    out := TakePackets(d, action, packets, later);
  }

  /**
   * A decoder at one end of a stream of packets. However much is received each time, of what space
   * there is, the packets come out as they went in, and there is never an error.
   */
  method DecodeStream(mtu: nat, packets: seq<seq<byte>>, stream: seq<byte>) returns (out: seq<seq<byte>>)
    requires Fit(Min(mtu, MAX_PAYLOAD), packets) && stream == Stream(Min(mtu, MAX_PAYLOAD), packets)
    ensures out == packets
  {
    hide Process, Stream;
    var d := new Decoder(mtu);
    out := [];
    var pos := 0;
    assert packets[0..] == packets && stream[0..] == stream;
    ProcessNothing(d.outputMtu);
    while pos < |stream|
      invariant d.Valid() && d.outputMtu == Min(mtu, MAX_PAYLOAD) && fresh(d) && fresh(d.buf)
      invariant 0 <= pos <= |stream| && |out| <= |packets| && out == packets[..|out|]
      invariant Expecting(d, Recv(false), packets[|out|..], stream[pos..])
      decreases |stream| - pos
    {
      // any amount of data may arrive
      assert 1 <= d.Space();
      var n :| 1 <= n <= d.Space() && n <= |stream| - pos;
      assert stream[pos..] == stream[pos..pos + n] + stream[pos + n..];
      ghost var rest := packets[|out|..];
      var taken := ReceiveSome(d, stream[pos..pos + n], rest, stream[pos + n..]);
      assert rest[|taken|..] == packets[|out| + |taken|..];
      pos := pos + n;
      out := out + taken;
    }
    ProcessPrefix(d.outputMtu, packets[|out|..], d.Content(), []);
    assert d.Content() + [] == d.Content();
  }

  lemma ProcessNothing(mtu: nat)
    ensures Process(mtu, []).NeedMore?
  {
  }
}
