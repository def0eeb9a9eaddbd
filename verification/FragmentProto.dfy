/** The wire format of FragmentProto: a packet is a sequence of chunks. */
module FragmentProto {
  import opened Bytes

  /** sizeof(struct fragmentproto_chunk_header): three uint16_t and one uint8_t, packed. */
  const HEADER: nat := 7

  datatype Chunk = Chunk(id: nat, start: nat, data: seq<byte>, last: bool) {
    predicate Fits() {
      id < 0x1_0000 && start < 0x1_0000 && |data| < 0x1_0000
    }
  }

  function EncodeChunk(c: Chunk): (s: seq<byte>)
    requires c.Fits()
    ensures |s| == HEADER + |c.data|
  {
    Enc16(c.id) + Enc16(c.start) + Enc16(|c.data|) + [if c.last then 1 else 0] + c.data
  }

  function EncodePacket(cs: seq<Chunk>): (s: seq<byte>)
    requires forall c :: c in cs ==> c.Fits()
  {
    if cs == [] then [] else EncodeChunk(cs[0]) + EncodePacket(cs[1..])
  }

  /** fragmentproto_max_chunks_for_frame. */
  function MaxChunksForFrame(carrierMtu: nat, frameMtu: nat): nat
    requires carrierMtu > HEADER
  {
    DivideUp(frameMtu, carrierMtu - HEADER) + 1
  }

  function DivideUp(a: nat, b: nat): nat
    requires b > 0
  {
    (a + b - 1) / b
  }

  lemma EncodePacketCons(c: Chunk, cs: seq<Chunk>)
    requires c.Fits() && forall d :: d in cs ==> d.Fits()
    ensures forall d :: d in [c] + cs ==> d.Fits()
    ensures EncodePacket([c] + cs) == EncodeChunk(c) + EncodePacket(cs)
  {
    assert ([c] + cs)[1..] == cs;
  }

  lemma EncodePacketOne(c: Chunk)
    requires c.Fits()
    ensures EncodePacket([c]) == EncodeChunk(c)
  {
    assert [c][1..] == [];
    assert EncodePacket([]) == [];
  }

  lemma {:induction false} EncodePacketAppend(cs: seq<Chunk>, ds: seq<Chunk>)
    requires forall c :: c in cs ==> c.Fits()
    requires forall d :: d in ds ==> d.Fits()
    ensures forall e :: e in cs + ds ==> e.Fits()
    ensures EncodePacket(cs + ds) == EncodePacket(cs) + EncodePacket(ds)
  {
    hide EncodeChunk;
    if cs == [] {
      assert cs + ds == ds;
    } else {
      EncodePacketAppend(cs[1..], ds);
      assert (cs + ds)[1..] == cs[1..] + ds;
    }
  }
}
