/**
 * What a disassembler cuts up, an assembler puts together again: for every run of the
 * disassembler, its packets, received in order, deliver the packets it was sent.
 */
module FragmentRoundTrip {
  import opened Bytes
  import opened Counting
  import opened FragmentProto
  import D = DisassemblerModel
  import A = AssemblerModel

  // ---------------------------------------------------------------- the chunk stream, read directly

  /** A reader of an in-order chunk stream: the frame it is in, the bytes and chunks so far, the frames read. */
  datatype Reader = Reader(id: nat, acc: seq<byte>, count: nat, done: seq<seq<byte>>)

  /** The chunk comes next in the stream, and the assembler has the room for its frame. */
  predicate Accepts(c: A.Config, rd: Reader, ch: Chunk) {
    && ch.Fits() && ch.id == rd.id && ch.start == |rd.acc|
    && (ch.data == [] ==> ch.last)
    && |rd.acc| + |ch.data| <= c.outputMtu
    && (if ch.last then rd.count + 1 <= c.numChunks else rd.count + 1 < c.numChunks)
  }

  function Read(rd: Reader, ch: Chunk): Reader {
    if ch.last then Reader((rd.id + 1) % 0x1_0000, [], 0, rd.done + [rd.acc + ch.data])
    else rd.(acc := rd.acc + ch.data, count := rd.count + 1)
  }

  predicate AcceptsAll(c: A.Config, rd: Reader, cs: seq<Chunk>)
    decreases |cs|
  {
    cs == [] || (Accepts(c, rd, cs[0]) && AcceptsAll(c, Read(rd, cs[0]), cs[1..]))
  }

  function ReadAll(rd: Reader, cs: seq<Chunk>): Reader
    decreases |cs|
  {
    if cs == [] then rd else ReadAll(Read(rd, cs[0]), cs[1..])
  }

  lemma {:induction false} AcceptsAllFits(c: A.Config, rd: Reader, cs: seq<Chunk>)
    requires AcceptsAll(c, rd, cs)
    ensures forall ch :: ch in cs ==> ch.Fits()
    decreases |cs|
  {
    if cs != [] {
      AcceptsAllFits(c, Read(rd, cs[0]), cs[1..]);
    }
  }

  lemma {:induction false} ReadAppend(c: A.Config, rd: Reader, cs: seq<Chunk>, ds: seq<Chunk>)
    requires AcceptsAll(c, rd, cs) && AcceptsAll(c, ReadAll(rd, cs), ds)
    ensures AcceptsAll(c, rd, cs + ds) && ReadAll(rd, cs + ds) == ReadAll(ReadAll(rd, cs), ds)
    decreases |cs|
  {
    if cs == [] {
      assert cs + ds == ds;
    } else {
      ReadAppend(c, Read(rd, cs[0]), cs[1..], ds);
      assert (cs + ds)[1..] == cs[1..] + ds;
    }
  }

  lemma {:induction false} ReadSplit(c: A.Config, rd: Reader, cs: seq<Chunk>, ds: seq<Chunk>)
    requires AcceptsAll(c, rd, cs + ds)
    ensures AcceptsAll(c, rd, cs) && AcceptsAll(c, ReadAll(rd, cs), ds)
    ensures ReadAll(rd, cs + ds) == ReadAll(ReadAll(rd, cs), ds)
    decreases |cs|
  {
    if cs == [] {
      assert cs + ds == ds;
    } else {
      assert (cs + ds)[1..] == cs[1..] + ds;
      ReadSplit(c, Read(rd, cs[0]), cs[1..], ds);
    }
  }

  lemma {:induction false} ReadAllOnlyAdds(rd: Reader, cs: seq<Chunk>)
    ensures rd.done <= ReadAll(rd, cs).done
    decreases |cs|
  {
    if cs != [] {
      ReadAllOnlyAdds(Read(rd, cs[0]), cs[1..]);
    }
  }

  // ---------------------------------------------------------------- the assembler follows the reader

  /**
   * The assembler holds what the reader is in the middle of, and nothing else; the frame is at
   * most `age` packets old.
   */
  ghost predicate Synced(c: A.Config, p: A.Pool, rd: Reader, age: nat) {
    && A.Inv(c, p)
    && (rd.acc == [] ==> rd.count == 0 && p.used == [])
    && (rd.acc != [] ==> |p.used| == 1 && Halfway(p.used[0], rd) && p.time - p.used[0].time <= age)
  }

  predicate Halfway(f: A.Frame, rd: Reader) {
    && f.id == rd.id && f.length == -1 && f.lengthSoFar == f.sum == |rd.acc| <= |f.buffer|
    && |f.pieces| == rd.count && f.buffer[..|rd.acc|] == rd.acc
  }

  /** The frame the next chunk is added to: the one in progress or a new one. */
  lemma LocateSynced(c: A.Config, p: A.Pool, rd: Reader)
    requires Synced(c, p, rd, 1)
    ensures A.HasSlot(p)
    ensures var q := A.Locate(c, p, rd.id);
      && A.Inv(c, q) && |q.used| == 1 && A.IndexOf(q.used, rd.id) == 0 && q.time == p.time
      && Halfway(q.used[0], rd) && q.used[0].lengthSoFar <= c.outputMtu
  {
    A.LocateInv(c, p, rd.id);
    if rd.acc == [] {
      assert A.IndexOf(p.used, rd.id) == 0 == |p.used|;
      var q := A.Allocate(p, rd.id);
      assert q.used == [A.NewFrame(rd.id, p.time, p.free[0])];
      assert p.free[0][..0] == [];
    } else {
      assert A.InProgress(c, p.time, p.used[0]);
      assert A.IndexOf(p.used, rd.id) == 0;
    }
  }

  lemma AddSynced(c: A.Config, q: A.Pool, rd: Reader, ch: Chunk)
    requires A.Inv(c, q) && |q.used| == 1 && Halfway(q.used[0], rd) && Accepts(c, rd, ch)
    ensures var s := A.Piece(ch.start, ch.data);
      && |q.used[0].buffer| == c.outputMtu && A.Acceptable(q.used[0], s, ch.last)
      && var g := A.AddPiece(q.used[0], q.time, s, ch.last);
      && g.time == q.time && g.id == rd.id && |g.pieces| == rd.count + 1 && |g.buffer| == c.outputMtu
      && g.buffer[..|rd.acc| + |ch.data|] == rd.acc + ch.data
      && (if ch.last then !A.Incomplete(g) && g.length == |rd.acc| + |ch.data|
          else A.Incomplete(g) && |g.pieces| < c.numChunks && Halfway(g, Read(rd, ch)))
  {
    var f, s := q.used[0], A.Piece(ch.start, ch.data);
    assert A.InProgress(c, q.time, f);
    forall i | 0 <= i < |f.pieces| ensures !A.Overlap(f.pieces[i].start, |f.pieces[i].data|, s.start, |s.data|) {
      assert f.pieces[i].End() <= A.BoundOf(f);
    }
    var g := A.AddPiece(f, q.time, s, ch.last);
    assert g.buffer[..|rd.acc| + |ch.data|] == rd.acc + ch.data;
  }

  lemma ChunkSynced(c: A.Config, p: A.Pool, rd: Reader, ch: Chunk)
    requires Synced(c, p, rd, 1) && Accepts(c, rd, ch)
    ensures A.HasSlot(p) && A.Sized(c, p)
    ensures Synced(c, A.ProcessChunk(c, p, ch).pool, Read(rd, ch), 0)
    ensures Synced(c, A.ProcessChunk(c, p, ch).pool, Read(rd, ch), 1)
    ensures A.ProcessChunk(c, p, ch).sent == if ch.last then Some(rd.acc + ch.data) else None
  {
    A.ProcessChunkCorrect(c, p, ch);
    LocateSynced(c, p, rd);
    AddSynced(c, A.Locate(c, p, rd.id), rd, ch);
  }

  lemma TickSynced(c: A.Config, p: A.Pool, rd: Reader)
    requires Synced(c, p, rd, 0)
    ensures Synced(c, A.Tick(c, p), rd, 1)
  {
    A.TickCorrect(c, p);
    if p.time == A.MAX_TIME {
      A.ReduceTimesCorrect(c, p);
      if rd.acc != [] {
        assert A.InProgress(c, p.time, p.used[0]);
        assert p.used == [p.used[0]];
        assert A.Fresh(c, p.time, p.used[1..]) == [];
        assert A.Fresh(c, p.time, p.used) == p.used;
      }
    }
  }

  lemma ParseEncoded(ch: Chunk, rest: seq<byte>)
    requires ch.Fits()
    ensures A.ParseChunk(EncodeChunk(ch) + rest) == Some(ch)
    ensures (EncodeChunk(ch) + rest)[HEADER + |ch.data|..] == rest
  {
    var s := EncodeChunk(ch) + rest;
    assert s[HEADER..HEADER + |ch.data|] == ch.data;
    assert s[0] == Enc16(ch.id)[0] && s[1] == Enc16(ch.id)[1];
    assert s[2] == Enc16(ch.start)[0] && s[3] == Enc16(ch.start)[1];
    assert s[4] == Enc16(|ch.data|)[0] && s[5] == Enc16(|ch.data|)[1];
  }

  lemma ReceiveChunk(c: A.Config, p: A.Pool, ch: Chunk, rest: seq<byte>)
    requires A.Inv(c, p) && ch.Fits()
    ensures A.HasSlot(p) && A.Sized(c, p) && A.Inv(c, A.ProcessChunk(c, p, ch).pool)
    ensures
      var o := A.ProcessChunk(c, p, ch);
      var r := A.ReceivePacket(c, o.pool, rest);
      A.ReceivePacket(c, p, EncodeChunk(ch) + rest) ==
        A.Result(r.pool, (if o.sent.Some? then [o.sent.value] else []) + r.frames)
  {
    hide A.Inv, A.ProcessChunk, A.Tick, A.ParseChunk, A.HasSlot, A.Sized, EncodeChunk;
    A.ProcessChunkCorrect(c, p, ch);
    ParseEncoded(ch, rest);
  }

  /** A packet of in-order chunks is understood by the assembler as by the reader. */
  lemma {:induction false} PacketSynced(c: A.Config, p: A.Pool, rd: Reader, cs: seq<Chunk>)
    requires A.Inv(c, p) && Synced(c, p, rd, 1) && AcceptsAll(c, rd, cs) && (cs == [] ==> Synced(c, p, rd, 0))
    ensures forall ch :: ch in cs ==> ch.Fits()
    ensures Synced(c, A.ReceivePacket(c, p, EncodePacket(cs)).pool, ReadAll(rd, cs), 1)
    ensures rd.done + A.ReceivePacket(c, p, EncodePacket(cs)).frames == ReadAll(rd, cs).done
    decreases |cs|
  {
    hide A.Inv, A.ProcessChunk, A.Tick, A.ReceivePacket, EncodeChunk, Synced, A.HasSlot, A.Sized;
    AcceptsAllFits(c, rd, cs);
    if cs == [] {
      TickSynced(c, p, rd);
      ReceiveNothing(c, p);
    } else {
      ChunkSynced(c, p, rd, cs[0]);
      ReceiveChunk(c, p, cs[0], EncodePacket(cs[1..]));
      PacketSynced(c, A.ProcessChunk(c, p, cs[0]).pool, Read(rd, cs[0]), cs[1..]);
    }
  }

  lemma ReceiveNothing(c: A.Config, p: A.Pool)
    requires A.Inv(c, p)
    ensures A.ReceivePacket(c, p, []) == A.Result(A.Tick(c, p), [])
  {
    A.InvSized(c, p);
  }

  // ---------------------------------------------------------------- how many chunks a frame needs

  /** How many chunks write_chunks makes of `avail` bytes, with `room` left in the packet after a header. */
  function ChunkCount(c: D.Config, avail: nat, room: nat): (n: nat)
    requires c.Valid() && room > 0
    ensures n > 0
    decreases avail
  {
    var len := D.ChunkLen(c, avail, room);
    if len == avail then 1 else 1 + ChunkCount(c, avail - len, RoomAfter(c, room, len))
  }

  /** The room for the next chunk, in the same packet or in a fresh one. */
  function RoomAfter(c: D.Config, room: nat, len: nat): (r: nat)
    requires c.Valid()
    ensures r > 0
  {
    if room - len > HEADER then room - len - HEADER else c.outputMtu - HEADER
  }

  /**
   * A closed formula for a bound of it. With no chunk MTU a chunk ends a frame or a packet; with one,
   * at most every second chunk is shorter than `m`.
   */
  function ChunksNeeded(c: D.Config, avail: nat, freshPacket: bool): nat
    requires c.Valid()
  {
    var room := c.outputMtu - HEADER;
    if c.chunkMtu < 0 then
      var n := DivideUp(avail, room);
      if freshPacket then Max(1, n) else n + 1
    else
      var n := 2 * DivideUp(avail, Min(room, c.chunkMtu));
      if freshPacket then Max(1, n) else n + 1
  }

  lemma DivideUpLess(a: nat, less: nat, m: nat)
    requires m > 0 && less <= a
    ensures DivideUp(a - less, m) <= DivideUp(a, m)
  {
    QuotientMonotone(a - less + m - 1, a + m - 1, m);
  }

  lemma DivideUpOneLess(a: nat, less: nat, m: nat)
    requires 0 < m <= less <= a
    ensures DivideUp(a - less, m) + 1 <= DivideUp(a, m)
  {
    QuotientMonotone(a - less + m - 1, a - 1, m);
    QuotientLess(a + m - 1, m);
  }

  lemma DivideUpPositive(a: nat, m: nat)
    requires m > 0 && a > 0
    ensures DivideUp(a, m) >= 1
  {
    QuotientMonotone(m, a + m - 1, m);
  }

  lemma ChunksNeededStep(c: D.Config, avail: nat, room: nat)
    requires c.Valid() && 0 < room <= c.outputMtu - HEADER
    ensures var len := D.ChunkLen(c, avail, room);
      len < avail ==>
        1 + ChunksNeeded(c, avail - len, RoomAfter(c, room, len) == c.outputMtu - HEADER)
        <= ChunksNeeded(c, avail, room == c.outputMtu - HEADER)
  {
    hide DivideUp;
    var len := D.ChunkLen(c, avail, room);
    var full := c.outputMtu - HEADER;
    if len < avail {
      var m := if c.chunkMtu < 0 then full else Min(full, c.chunkMtu);
      DivideUpLess(avail, len, m);
      if m <= len { DivideUpOneLess(avail, len, m); }
      DivideUpPositive(avail - len, m);
    }
  }

  lemma {:induction false} CountBounded(c: D.Config, avail: nat, room: nat)
    requires c.Valid() && 0 < room <= c.outputMtu - HEADER
    ensures ChunkCount(c, avail, room) <= ChunksNeeded(c, avail, room == c.outputMtu - HEADER)
    decreases avail
  {
    hide ChunksNeeded;
    ChunksNeededStep(c, avail, room);
    var len := D.ChunkLen(c, avail, room);
    if len < avail {
      CountBounded(c, avail - len, RoomAfter(c, room, len));
    } else {
      OneAtLeast(c, avail, room == c.outputMtu - HEADER);
    }
  }

  lemma OneAtLeast(c: D.Config, avail: nat, freshPacket: bool)
    requires c.Valid()
    ensures ChunksNeeded(c, avail, freshPacket) >= 1
  {
    if avail > 0 && c.chunkMtu > 0 {
      DivideUpPositive(avail, Min(c.outputMtu - HEADER, c.chunkMtu));
    }
  }

  // ---------------------------------------------------------------- the disassembler writes what the reader reads

  /** The reader is at the position in the frame from which the disassembler goes on. */
  predicate At(c: A.Config, rd: Reader, id: nat, payload: seq<byte>, used: nat) {
    && used <= |payload| <= c.outputMtu
    && rd.id == id && rd.acc == payload[..used]
  }

  lemma FirstChunkRead(dc: D.Config, ac: A.Config, rd: Reader, id: nat, payload: seq<byte>, used: nat, room: nat)
    requires dc.Valid() && D.Cuttable(dc, id, payload, used, room) && room <= dc.outputMtu - HEADER
    requires At(ac, rd, id, payload, used)
    requires rd.count + ChunkCount(dc, |payload| - used, room) <= ac.numChunks
    ensures var ch := D.FirstChunk(dc, id, payload, used, room);
      && Accepts(ac, rd, ch)
      && (if ch.last then Read(rd, ch) == Reader((id + 1) % 0x1_0000, [], 0, rd.done + [payload])
          else
            && At(ac, Read(rd, ch), id, payload, used + |ch.data|) && Read(rd, ch).done == rd.done
            && Read(rd, ch).count + ChunkCount(dc, |payload| - used - |ch.data|, RoomAfter(dc, room, |ch.data|)) <= ac.numChunks)
  {
    var ch := D.FirstChunk(dc, id, payload, used, room);
    assert payload[..used] + payload[used..used + |ch.data|] == payload[..used + |ch.data|];
    assert payload[..|payload|] == payload;
  }

  lemma {:induction false} CutRead(dc: D.Config, ac: A.Config, rd: Reader, id: nat, payload: seq<byte>, used: nat, room: nat)
    requires dc.Valid() && D.Cuttable(dc, id, payload, used, room) && room <= dc.outputMtu - HEADER
    requires At(ac, rd, id, payload, used)
    requires rd.count + ChunkCount(dc, |payload| - used, room) <= ac.numChunks
    ensures
      var cs, end := D.Cut(dc, id, payload, used, room), D.CutEnd(dc, id, payload, used, room);
      var r := ReadAll(rd, cs);
      && AcceptsAll(ac, rd, cs) && cs != []
      && (if end == |payload| then r == Reader((id + 1) % 0x1_0000, [], 0, rd.done + [payload])
          else At(ac, r, id, payload, end) && r.done == rd.done
               && r.count + ChunkCount(dc, |payload| - end, dc.outputMtu - HEADER) <= ac.numChunks)
    decreases |payload| - used
  {
    hide ChunkCount, D.FirstChunk, Accepts, Read;
    FirstChunkRead(dc, ac, rd, id, payload, used, room);
    var ch := D.FirstChunk(dc, id, payload, used, room);
    if D.GoesOn(payload, room, ch) {
      CutRead(dc, ac, Read(rd, ch), id, payload, used + |ch.data|, room - |ch.data| - HEADER);
      var rest := D.Cut(dc, id, payload, used + |ch.data|, room - |ch.data| - HEADER);
      assert ([ch] + rest)[1..] == rest;
    } else {
      assert [ch][1..] == [];
    }
  }

  // ---------------------------------------------------------------- runs

  /** A disassembler, the assembler that receives its packets in order, and the frames delivered so far. */
  datatype Link = Link(s: D.State, p: A.Pool, delivered: seq<seq<byte>>)

  ghost function Deliver(c: A.Config, l: Link, n: D.Step): (r: Link)
    requires A.Inv(c, l.p)
    ensures A.Inv(c, r.p) && r.s == n.state
  {
    if n.packet.None? then l.(s := n.state)
    else
      var r := A.ReceivePacket(c, l.p, n.packet.value);
      Link(n.state, r.pool, l.delivered + r.frames)
  }

  /** The interfaces only raise events the disassembler is ready for. */
  predicate ValidRun(c: D.Config, s: D.State, events: seq<D.Event>)
    requires D.Ok(c, s)
    decreases |events|
  {
    events == [] ||
    (D.Enabled(c, s, events[0]) && (D.NextOk(c, s, events[0]); ValidRun(c, D.Next(c, s, events[0]).state, events[1..])))
  }

  ghost function Run(dc: D.Config, ac: A.Config, l: Link, events: seq<D.Event>): Link
    requires D.Ok(dc, l.s) && A.Inv(ac, l.p) && ValidRun(dc, l.s, events)
    decreases |events|
  {
    if events == [] then l else
    D.NextOk(dc, l.s, events[0]);
    Run(dc, ac, Deliver(ac, l, D.Next(dc, l.s, events[0])), events[1..])
  }

  /** No packet is cancelled of which a part has been written. */
  predicate CancelsWhole(c: D.Config, s: D.State, events: seq<D.Event>)
    requires D.Ok(c, s) && ValidRun(c, s, events)
    decreases |events|
  {
    events == [] ||
    ((events[0].Cancel? ==> s.used == 0) &&
     (D.NextOk(c, s, events[0]); CancelsWhole(c, D.Next(c, s, events[0]).state, events[1..])))
  }

  /** The payloads given so far and not cancelled, with one more event. */
  function After(sent: seq<seq<byte>>, e: D.Event): seq<seq<byte>> {
    if e.Send? then sent + [e.payload]
    else if e.Cancel? && sent != [] then sent[..|sent| - 1]
    else sent
  }

  function Payloads(sent: seq<seq<byte>>, events: seq<D.Event>): seq<seq<byte>>
    decreases |events|
  {
    if events == [] then sent else Payloads(After(sent, events[0]), events[1..])
  }

  /** The assembler takes frames as long as the disassembler does, in as many chunks as it may cut them into. */
  ghost predicate Compatible(dc: D.Config, ac: A.Config) {
    && dc.Valid() && ac.Valid() && dc.inputMtu <= ac.outputMtu
    && forall n: nat, room: nat :: n <= dc.inputMtu && 0 < room <= dc.outputMtu - HEADER ==>
         ChunkCount(dc, n, room) <= ac.numChunks
  }

  /** `w` has read all that is written; `sent` is the payloads the disassembler has been given to send. */
  predicate WriterAt(dc: D.Config, ac: A.Config, s: D.State, w: Reader, sent: seq<seq<byte>>)
    requires dc.Valid()
  {
    if s.input.Some? then
      && At(ac, w, s.frameId, s.input.value, s.used)
      && w.count + ChunkCount(dc, |s.input.value| - s.used, dc.outputMtu - HEADER) <= ac.numChunks
      && sent == w.done + [s.input.value]
    else
      w == Reader(s.frameId, [], 0, sent)
  }

  /** `rd` has read the packets that are out; `held` is what is written to the output packet in hand. */
  ghost predicate Written(dc: D.Config, ac: A.Config, s: D.State, rd: Reader, held: seq<Chunk>, sent: seq<seq<byte>>) {
    && D.Ok(dc, s) && (rd.acc == [] ==> rd.count == 0)
    && AcceptsAll(ac, rd, held) && (forall ch :: ch in held ==> ch.Fits())
    && WriterAt(dc, ac, s, ReadAll(rd, held), sent)
    && Held(s.out, s.timer, held)
  }

  /** And the assembler is where `rd` is. */
  ghost predicate Linked(dc: D.Config, ac: A.Config, l: Link, rd: Reader, held: seq<Chunk>, sent: seq<seq<byte>>) {
    Written(dc, ac, l.s, rd, held, sent) && Synced(ac, l.p, rd, 1) && rd.done == l.delivered
  }

  predicate Held(out: Option<seq<byte>>, timer: bool, held: seq<Chunk>)
    requires forall ch :: ch in held ==> ch.Fits()
  {
    && (if out.Some? then out.value == EncodePacket(held) else held == [])
    && (timer ==> held != [])
  }

  lemma WriteRead(dc: D.Config, ac: A.Config, s: D.State, rd: Reader, held: seq<Chunk>, sent: seq<seq<byte>>)
    returns (more: seq<Chunk>)
    requires Compatible(dc, ac) && D.Ok(dc, s.(out := None, timer := false)) && s.input.Some?
    requires s.out.Some? && |s.out.value| + HEADER < dc.outputMtu
    requires AcceptsAll(ac, rd, held) && forall ch :: ch in held ==> ch.Fits()
    requires s.out.value == EncodePacket(held)
    requires var w := ReadAll(rd, held);
      && At(ac, w, s.frameId, s.input.value, s.used) && sent == w.done + [s.input.value]
      && w.count + ChunkCount(dc, |s.input.value| - s.used, dc.outputMtu - |s.out.value| - HEADER) <= ac.numChunks
    ensures more == D.Cut(dc, s.frameId, s.input.value, s.used, dc.outputMtu - |s.out.value| - HEADER)
    ensures more != [] && AcceptsAll(ac, rd, held + more) && forall ch :: ch in held + more ==> ch.Fits()
    ensures var n := D.WriteChunks(dc, s);
      && WriterAt(dc, ac, n.state, ReadAll(rd, held + more), sent)
      && (if n.packet.Some? then n.packet.value == EncodePacket(held + more) && n.state.out.None? && !n.state.timer
          else n.state.out == Some(EncodePacket(held + more)))
  {
    hide ChunkCount, D.CutBytes, D.CutEnd, D.Cut, AcceptsAll, ReadAll, EncodePacket;
    var room := dc.outputMtu - |s.out.value| - HEADER;
    more := D.Cut(dc, s.frameId, s.input.value, s.used, room);
    HeldIsWritten(held);
    CutRead(dc, ac, ReadAll(rd, held), s.frameId, s.input.value, s.used, room);
    D.CutBytesAreChunks(dc, s.frameId, s.input.value, s.used, room);
    ReadAppend(ac, rd, held, more);
    EncodePacketAppend(held, more);
  }

  lemma HeldIsWritten(held: seq<Chunk>)
    requires forall ch :: ch in held ==> ch.Fits()
    ensures EncodePacket(held) == [] <==> held == []
  {
    if held != [] {
      assert |EncodePacket(held)| >= |EncodeChunk(held[0])|;
    }
  }

  /** The state in which write_chunks runs for the event, if it does. */
  function Loaded(s: D.State, e: D.Event): D.State {
    match e
    case Send(payload) => s.(input := Some(payload), used := 0)
    case Recv => s.(out := Some([]))
    case _ => s
  }

  /** The chunks the event writes. */
  function Cuts(dc: D.Config, s: D.State, e: D.Event): seq<Chunk>
    requires D.Ok(dc, s) && D.Enabled(dc, s, e)
  {
    var t := Loaded(s, e);
    if (e.Send? || e.Recv?) && t.input.Some? && t.out.Some?
    then D.Cut(dc, t.frameId, t.input.value, t.used, dc.outputMtu - |t.out.value| - HEADER)
    else []
  }

  /** A reader gives up a packet that is cancelled. */
  function Dropped(rd: Reader, e: D.Event): Reader {
    if e.Cancel? then Reader(rd.id, [], 0, rd.done) else rd
  }

  /** What an event writes is what a reader reads next. */
  lemma EventWritten(dc: D.Config, ac: A.Config, s: D.State, rd: Reader, held: seq<Chunk>, sent: seq<seq<byte>>, e: D.Event)
    requires Compatible(dc, ac) && Written(dc, ac, s, rd, held, sent) && D.Enabled(dc, s, e)
    ensures D.Ok(dc, s)
    ensures var n := D.Next(dc, s, e); var all := held + Cuts(dc, s, e); var r := Dropped(rd, e);
      && D.Ok(dc, n.state) && AcceptsAll(ac, r, all) && (forall ch :: ch in all ==> ch.Fits())
      && (if n.packet.Some? then
            && n.packet.value == EncodePacket(all) && all != []
            && Written(dc, ac, n.state, ReadAll(r, all), [], After(sent, e))
          else
            Written(dc, ac, n.state, r, all, After(sent, e)))
  {
    hide AcceptsAll, ReadAll, ChunkCount, D.WriteChunks, EncodePacket, Compatible, D.Cut, At;
    D.NextOk(dc, s, e);
    var t, r := Loaded(s, e), Dropped(rd, e);
    if (e.Send? || e.Recv?) && t.input.Some? && t.out.Some? {
      LoadedReads(dc, ac, s, rd, held, sent, e);
      var more := WriteRead(dc, ac, t, rd, held, After(sent, e));
    } else {
      LoadedIdle(dc, ac, s, rd, held, sent, e);
      assert held + [] == held;
    }
    var all := held + Cuts(dc, s, e);
    if D.Next(dc, s, e).packet.Some? {
      ReadNothing(ac, ReadAll(r, all));
      CountsFromZero(ac, r, all);
      EncodeNothing();
    }
  }

  lemma EncodeNothing()
    ensures EncodePacket([]) == []
  {
  }

  lemma {:induction false} CountsFromZero(c: A.Config, rd: Reader, cs: seq<Chunk>)
    requires AcceptsAll(c, rd, cs) && (rd.acc == [] ==> rd.count == 0)
    ensures ReadAll(rd, cs).acc == [] ==> ReadAll(rd, cs).count == 0
    decreases |cs|
  {
    if cs != [] {
      CountsFromZero(c, Read(rd, cs[0]), cs[1..]);
    }
  }

  lemma {:induction false} StepLinked(dc: D.Config, ac: A.Config, l: Link, rd: Reader, held: seq<Chunk>,
                                      sent: seq<seq<byte>>, e: D.Event)
    returns (rd': Reader, held': seq<Chunk>)
    requires Compatible(dc, ac) && Linked(dc, ac, l, rd, held, sent) && A.Inv(ac, l.p) && D.Enabled(dc, l.s, e)
    requires e.Cancel? ==> l.s.used == 0
    ensures Linked(dc, ac, Deliver(ac, l, D.Next(dc, l.s, e)), rd', held', After(sent, e))
  {
    hide A.Inv, Synced, Written, ReadAll, AcceptsAll, D.Next, A.ReceivePacket, EncodePacket, Compatible, After;
    EventWritten(dc, ac, l.s, rd, held, sent, e);
    WholeIsDropped(dc, ac, l.s, rd, held, sent, e);
    rd', held' := rd, held + Cuts(dc, l.s, e);
    if D.Next(dc, l.s, e).packet.Some? {
      PacketSynced(ac, l.p, rd, held');
      rd', held' := ReadAll(rd, held'), [];
    }
  }

  /** A reader has nothing to give up of a packet of which nothing is written. */
  lemma WholeIsDropped(dc: D.Config, ac: A.Config, s: D.State, rd: Reader, held: seq<Chunk>, sent: seq<seq<byte>>, e: D.Event)
    requires Written(dc, ac, s, rd, held, sent) && D.Enabled(dc, s, e) && (e.Cancel? ==> s.used == 0)
    ensures Dropped(rd, e) == rd
  {
    hide AcceptsAll, ReadAll;
    if e.Cancel? {
      ReadNothing(ac, rd);
    }
  }

  lemma ReadNothing(c: A.Config, rd: Reader)
    ensures AcceptsAll(c, rd, []) && ReadAll(rd, []) == rd
  {
  }

  /** Giving a packet to write, or one to write into, puts the writer where WriteRead wants it. */
  lemma LoadedReads(dc: D.Config, ac: A.Config, s: D.State, rd: Reader, held: seq<Chunk>, sent: seq<seq<byte>>, e: D.Event)
    requires Compatible(dc, ac) && Written(dc, ac, s, rd, held, sent) && D.Enabled(dc, s, e) && (e.Send? || e.Recv?)
    requires Loaded(s, e).input.Some? && Loaded(s, e).out.Some?
    ensures var t := Loaded(s, e); var w := ReadAll(rd, held);
      && D.Ok(dc, t.(out := None, timer := false)) && |t.out.value| + HEADER < dc.outputMtu
      && t.out.value == EncodePacket(held)
      && At(ac, w, t.frameId, t.input.value, t.used) && After(sent, e) == w.done + [t.input.value]
      && w.count + ChunkCount(dc, |t.input.value| - t.used, dc.outputMtu - |t.out.value| - HEADER) <= ac.numChunks
  {
    hide AcceptsAll, ReadAll;
    if e.Send? {
      assert e.payload[..0] == [];
    }
  }

  /** An event that writes nothing. */
  lemma LoadedIdle(dc: D.Config, ac: A.Config, s: D.State, rd: Reader, held: seq<Chunk>, sent: seq<seq<byte>>, e: D.Event)
    requires Compatible(dc, ac) && Written(dc, ac, s, rd, held, sent) && D.Enabled(dc, s, e)
    requires e.Timer? || Loaded(s, e).input.None? || Loaded(s, e).out.None?
    ensures var n := D.Next(dc, s, e); var r := Dropped(rd, e);
      && AcceptsAll(ac, r, held) && WriterAt(dc, ac, n.state, ReadAll(r, held), After(sent, e))
      && (n.packet.None? ==> Held(n.state.out, n.state.timer, held))
      && (n.packet.Some? ==> n.packet.value == EncodePacket(held) && held != [] && Held(n.state.out, n.state.timer, []))
  {
    hide AcceptsAll, ReadAll;
    if e.Send? {
      assert e.payload[..0] == [];
    }
    if e.Cancel? {
      ReadNothing(ac, rd);
      ReadNothing(ac, Dropped(rd, e));
    }
    EncodeNothing();
  }

  lemma {:induction false} RunLinked(dc: D.Config, ac: A.Config, l: Link, rd: Reader, held: seq<Chunk>,
                                     sent: seq<seq<byte>>, events: seq<D.Event>)
    returns (rd': Reader, held': seq<Chunk>)
    requires Compatible(dc, ac) && Linked(dc, ac, l, rd, held, sent) && A.Inv(ac, l.p)
    requires D.Ok(dc, l.s) && ValidRun(dc, l.s, events) && CancelsWhole(dc, l.s, events)
    ensures Linked(dc, ac, Run(dc, ac, l, events), rd', held', Payloads(sent, events))
    decreases |events|
  {
    hide Linked, Deliver, Compatible, A.Inv, D.Next, D.Enabled, D.Ok;
    rd', held' := rd, held;
    if events != [] {
      D.NextOk(dc, l.s, events[0]);
      rd', held' := StepLinked(dc, ac, l, rd, held, sent, events[0]);
      rd', held' := RunLinked(dc, ac, Deliver(ac, l, D.Next(dc, l.s, events[0])), rd', held',
                              After(sent, events[0]), events[1..]);
    }
  }

  /**
   * The round trip. Whatever the interleaving of packets sent, buffers offered and timer expiries,
   * the frames delivered are the payloads sent, in order, each once: all of them as soon as no
   * input is waiting and nothing is left in an output packet, and the first of them at any time.
   * Packets may be cancelled as long as nothing of them has been written; FragmentCancel has the
   * other cancels.
   */
  lemma RoundTrip(dc: D.Config, ac: A.Config, p: A.Pool, events: seq<D.Event>)
    requires Compatible(dc, ac) && A.Initial(ac, p)
    requires ValidRun(dc, D.INITIAL, events) && CancelsWhole(dc, D.INITIAL, events)
    ensures A.Inv(ac, p)
    ensures var l := Run(dc, ac, Link(D.INITIAL, p, []), events);
      && l.delivered <= Payloads([], events)
      && (l.s.input.None? && (l.s.out.None? || l.s.out.value == []) ==> l.delivered == Payloads([], events))
  {
    hide Linked, Synced, Deliver, Compatible, A.Inv, A.Initial, Run, ValidRun, CancelsWhole;
    A.InitialInv(ac, p);
    StartLinked(dc, ac, p);
    var rd', held := RunLinked(dc, ac, Link(D.INITIAL, p, []), Reader(0, [], 0, []), [], [], events);
    EndLinked(dc, ac, Run(dc, ac, Link(D.INITIAL, p, []), events), rd', held, Payloads([], events));
  }

  lemma StartLinked(dc: D.Config, ac: A.Config, p: A.Pool)
    requires Compatible(dc, ac) && A.Initial(ac, p)
    ensures D.Ok(dc, D.INITIAL) && Linked(dc, ac, Link(D.INITIAL, p, []), Reader(0, [], 0, []), [], [])
  {
    A.InitialInv(ac, p);
    hide A.Inv;
  }

  lemma EndLinked(dc: D.Config, ac: A.Config, l: Link, rd: Reader, held: seq<Chunk>, sent: seq<seq<byte>>)
    requires Linked(dc, ac, l, rd, held, sent)
    ensures l.delivered <= sent
    ensures l.s.input.None? && (l.s.out.None? || l.s.out.value == []) ==> l.delivered == sent
  {
    hide Synced, At, ChunkCount;
    ReadAllOnlyAdds(rd, held);
    HeldIsWritten(held);
  }

  /**
   * The parameters DatagramPeerIO chooses fit together: no chunk MTU, and as many chunk slots as
   * fragmentproto_max_chunks_for_frame says.
   */
  lemma DatagramParametersFit(dc: D.Config, ac: A.Config)
    requires dc.Valid() && ac.Valid() && dc.chunkMtu == -1 && dc.inputMtu == ac.outputMtu
    requires ac.numChunks == MaxChunksForFrame(dc.outputMtu, ac.outputMtu)
    ensures Compatible(dc, ac)
  {
    forall n: nat, room: nat | n <= dc.inputMtu && 0 < room <= dc.outputMtu - HEADER
      ensures ChunkCount(dc, n, room) <= ac.numChunks
    {
      CountBounded(dc, n, room);
      DivideUpLess(dc.inputMtu, dc.inputMtu - n, dc.outputMtu - HEADER);
    }
  }
}
