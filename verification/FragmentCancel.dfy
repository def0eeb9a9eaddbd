/**
 * The round trip with packets cancelled at any time. What is delivered is exactly the packets that
 * are not lost, where a packet is lost if it is written to its end over chunks that were left over
 * under its frame id.
 */
module FragmentCancel {
  import A = AssemblerModel
  import opened Bytes
  import opened Counting
  import D = DisassemblerModel
  import opened FragmentLeftovers
  import opened FragmentProto
  import RT = FragmentRoundTrip

  /** A disassembler, what a reader has read of all that it has written, and the reader's view of the assembler. */
  datatype Writer = Writer(s: D.State, w: RT.Reader, v: View)

  const NEW := Writer(D.INITIAL, RT.Reader(0, [], 0, []), START)

  function Write(dc: D.Config, ac: A.Config, x: Writer, e: D.Event): Writer
    requires D.Ok(dc, x.s) && D.Enabled(dc, x.s, e)
  {
    var s, cs := D.Next(dc, x.s, e).state, RT.Cuts(dc, x.s, e);
    if e.Cancel? then Writer(s, RT.Dropped(x.w, e), GiveUp(x.w, x.v))
    else Writer(s, RT.ReadAll(x.w, cs), SeeAll(ac, x.w, x.v, cs))
  }

  function WriteAll(dc: D.Config, ac: A.Config, x: Writer, events: seq<D.Event>): Writer
    requires D.Ok(dc, x.s) && RT.ValidRun(dc, x.s, events)
    decreases |events|
  {
    if events == [] then x else
    D.NextOk(dc, x.s, events[0]);
    WriteAll(dc, ac, Write(dc, ac, x, events[0]), events[1..])
  }

  /** How many frames can be finished in a packet. */
  function PerPacket(dc: D.Config): nat {
    dc.outputMtu / HEADER
  }

  /** It never is many: not in datagrams, with up to six frame slots; the clients have four. */
  lemma DatagramsAreSpacious(dc: D.Config, ac: A.Config)
    requires dc.outputMtu < 0x1_0000 && ac.numFrames <= 6
    ensures Spacious(ac, PerPacket(dc))
  {
    QuotientMonotone(dc.outputMtu, 0xFFFF, HEADER);
    MulMonotone(PerPacket(dc), ac.numFrames + 1, 7);
  }

  ghost predicate Tracked(dc: D.Config, ac: A.Config, l: RT.Link, rd: RT.Reader, v: View, held: seq<Chunk>, sent: seq<seq<byte>>) {
    && RT.Written(dc, ac, l.s, rd, held, sent) && Seen(ac, l.p, rd, v, 1, 0, PerPacket(dc))
    && v.kept == l.delivered && Counts(rd, v)
  }

  function AllWritten(ac: A.Config, s: D.State, rd: RT.Reader, v: View, held: seq<Chunk>): Writer {
    Writer(s, RT.ReadAll(rd, held), SeeAll(ac, rd, v, held))
  }

  lemma {:induction false} PacketLength(cs: seq<Chunk>)
    requires forall ch :: ch in cs ==> ch.Fits()
    ensures HEADER * |cs| <= |EncodePacket(cs)|
  {
    if cs != [] {
      PacketLength(cs[1..]);
    }
  }

  lemma FewFrames(dc: D.Config, cs: seq<Chunk>)
    requires (forall ch :: ch in cs ==> ch.Fits()) && |EncodePacket(cs)| <= dc.outputMtu
    ensures |cs| <= PerPacket(dc)
  {
    PacketLength(cs);
    QuotientMonotone(HEADER * |cs|, dc.outputMtu, HEADER);
    QuotientUnique(HEADER * |cs|, HEADER, |cs|, 0);
  }

  /** Every event keeps the assembler where the view has it, whatever is cancelled. */
  lemma StepTracked(dc: D.Config, ac: A.Config, l: RT.Link, rd: RT.Reader, v: View, held: seq<Chunk>,
                    sent: seq<seq<byte>>, e: D.Event)
    returns (rd': RT.Reader, v': View, held': seq<Chunk>)
    requires RT.Compatible(dc, ac) && Spacious(ac, PerPacket(dc))
    requires Tracked(dc, ac, l, rd, v, held, sent) && A.Inv(ac, l.p) && D.Ok(dc, l.s) && D.Enabled(dc, l.s, e)
    ensures Tracked(dc, ac, RT.Deliver(ac, l, D.Next(dc, l.s, e)), rd', v', held', RT.After(sent, e))
    ensures Write(dc, ac, AllWritten(ac, l.s, rd, v, held), e) == AllWritten(ac, D.Next(dc, l.s, e).state, rd', v', held')
  {
    hide A.Inv, Seen, RT.Written, RT.ReadAll, RT.AcceptsAll, SeeAll, GiveUp, D.Next, A.ReceivePacket, EncodePacket,
         RT.Compatible, RT.After, RT.Cuts, PerPacket, Spacious, Counts, D.Ok;
    RT.EventWritten(dc, ac, l.s, rd, held, sent, e);
    D.NextOk(dc, l.s, e);
    rd', v', held' := RT.Dropped(rd, e), v, held + RT.Cuts(dc, l.s, e);
    if e.Cancel? {
      CancelHolds(dc, ac, l.s, rd, held, sent);
      assert held' == [];
      RT.ReadNothing(ac, rd);
      RT.ReadNothing(ac, rd');
      SeeNothing(ac, rd, v);
      SeeNothing(ac, rd', GiveUp(rd, v));
      GiveUpSeen(ac, l.p, rd, v, 1, 0, PerPacket(dc));
      GiveUpCounts(rd, v);
      v' := GiveUp(rd, v);
      assert Write(dc, ac, AllWritten(ac, l.s, rd, v, held), e) == AllWritten(ac, D.Next(dc, l.s, e).state, rd', v', held');
    } else {
      RT.ReadSplit(ac, rd, held, RT.Cuts(dc, l.s, e));
      SeeAppend(ac, rd, v, held, RT.Cuts(dc, l.s, e));
      assert Write(dc, ac, AllWritten(ac, l.s, rd, v, held), e) == AllWritten(ac, D.Next(dc, l.s, e).state, rd', v', held');
    }
    if D.Next(dc, l.s, e).packet.Some? {
      FewFrames(dc, held');
      PacketSeen(ac, l.p, rd', v', held', 0, PerPacket(dc));
      CountsAll(ac, rd', v', held');
      rd', v', held' := RT.ReadAll(rd', held'), SeeAll(ac, rd', v', held'), [];
      RT.ReadNothing(ac, rd');
      SeeNothing(ac, rd', v');
    }
  }

  lemma SeeNothing(c: A.Config, rd: RT.Reader, v: View)
    ensures SeeAll(c, rd, v, []) == v
  {
  }

  lemma GiveUpCounts(rd: RT.Reader, v: View)
    requires Counts(rd, v)
    ensures Counts(RT.Reader(rd.id, [], 0, rd.done), GiveUp(rd, v)) && GiveUp(rd, v).kept == v.kept
  {
  }

  /** A packet is only cancelled when there is no output packet, and then nothing is written in one. */
  lemma CancelHolds(dc: D.Config, ac: A.Config, s: D.State, rd: RT.Reader, held: seq<Chunk>, sent: seq<seq<byte>>)
    requires RT.Written(dc, ac, s, rd, held, sent) && D.Enabled(dc, s, D.Cancel)
    ensures D.Ok(dc, s) && held == [] && RT.Cuts(dc, s, D.Cancel) == []
    ensures D.Next(dc, s, D.Cancel).packet.None?
  {
    hide RT.ReadAll, RT.AcceptsAll;
  }

  // ---------------------------------------------------------------- runs

  lemma {:induction false} RunTracked(dc: D.Config, ac: A.Config, l: RT.Link, rd: RT.Reader, v: View, held: seq<Chunk>,
                                      sent: seq<seq<byte>>, events: seq<D.Event>)
    returns (rd': RT.Reader, v': View, held': seq<Chunk>)
    requires RT.Compatible(dc, ac) && Spacious(ac, PerPacket(dc))
    requires Tracked(dc, ac, l, rd, v, held, sent) && A.Inv(ac, l.p) && D.Ok(dc, l.s) && RT.ValidRun(dc, l.s, events)
    ensures var r := RT.Run(dc, ac, l, events);
      && Tracked(dc, ac, r, rd', v', held', RT.Payloads(sent, events))
      && WriteAll(dc, ac, AllWritten(ac, l.s, rd, v, held), events) == AllWritten(ac, r.s, rd', v', held')
    decreases |events|
  {
    hide Tracked, RT.Deliver, RT.Compatible, A.Inv, D.Next, D.Enabled, D.Ok, AllWritten, Write, Spacious, PerPacket;
    rd', v', held' := rd, v, held;
    WrittenState(ac, l.s, rd, v, held);
    if events != [] {
      var e := events[0];
      D.NextOk(dc, l.s, e);
      rd', v', held' := StepTracked(dc, ac, l, rd, v, held, sent, e);
      rd', v', held' := RunTracked(dc, ac, RT.Deliver(ac, l, D.Next(dc, l.s, e)), rd', v', held',
                                   RT.After(sent, e), events[1..]);
    }
  }

  lemma WrittenState(ac: A.Config, s: D.State, rd: RT.Reader, v: View, held: seq<Chunk>)
    ensures AllWritten(ac, s, rd, v, held).s == s
  {
  }

  lemma StartTracked(dc: D.Config, ac: A.Config, p: A.Pool)
    requires RT.Compatible(dc, ac) && A.Initial(ac, p)
    ensures D.Ok(dc, D.INITIAL) && A.Inv(ac, p)
    ensures Tracked(dc, ac, RT.Link(D.INITIAL, p, []), NEW.w, NEW.v, [], [])
    ensures AllWritten(ac, D.INITIAL, NEW.w, NEW.v, []) == NEW
  {
    A.InitialInv(ac, p);
    hide A.Inv;
  }

  /** Nothing is waiting to be written or sent. */
  predicate AtRest(s: D.State) {
    s.input.None? && (s.out.None? || s.out.value == [])
  }

  lemma EndTracked(dc: D.Config, ac: A.Config, l: RT.Link, rd: RT.Reader, v: View, held: seq<Chunk>, sent: seq<seq<byte>>)
    requires Tracked(dc, ac, l, rd, v, held, sent)
    ensures var x := AllWritten(ac, l.s, rd, v, held);
      && l.delivered <= x.v.kept && Counts(x.w, x.v)
      && (AtRest(l.s) ==> l.delivered == x.v.kept && x.w.done == sent)
  {
    hide Seen, RT.At, RT.ChunkCount, RT.AcceptsAll;
    KeptGrows(ac, rd, v, held);
    CountsAll(ac, rd, v, held);
    RT.HeldIsWritten(held);
  }

  /**
   * In any run, with any cancels, the packets delivered are exactly those that are not lost: all of
   * them when nothing is waiting, and the first of them at any time. So nothing is missing then if and
   * only if no packet was written to its end over chunks left over under its frame id.
   */
  lemma DeliveredExactly(dc: D.Config, ac: A.Config, p: A.Pool, events: seq<D.Event>)
    requires RT.Compatible(dc, ac) && A.Initial(ac, p) && Spacious(ac, PerPacket(dc))
    requires RT.ValidRun(dc, D.INITIAL, events)
    ensures A.Inv(ac, p)
    ensures var l := RT.Run(dc, ac, RT.Link(D.INITIAL, p, []), events); var x := WriteAll(dc, ac, NEW, events);
      && l.s == x.s && l.delivered <= x.v.kept
      && (AtRest(l.s) ==> l.delivered == x.v.kept && (l.delivered == RT.Payloads([], events) <==> x.v.lost == 0))
  {
    hide Tracked, RT.Compatible, A.Inv, A.Initial, RT.Run, RT.ValidRun, AllWritten, WriteAll, Spacious;
    StartTracked(dc, ac, p);
    var rd, v, held := RunTracked(dc, ac, RT.Link(D.INITIAL, p, []), NEW.w, NEW.v, [], [], events);
    var l := RT.Run(dc, ac, RT.Link(D.INITIAL, p, []), events);
    EndTracked(dc, ac, l, rd, v, held, RT.Payloads([], events));
    WrittenState(ac, l.s, rd, v, held);
  }

  // ---------------------------------------------------------------- one packet cancelled in part

  /** No packet has been cancelled in part so far. */
  ghost predicate Clean(rd: RT.Reader, v: View) {
    v.mode == After(0) && v.lost == 0 && v.kept == rd.done
  }

  /**
   * One packet was cancelled in part when `before` were finished; the next one is being written over
   * what is left of it, or it has been and is lost.
   */
  ghost predicate OneCut(rd: RT.Reader, v: View, before: seq<seq<byte>>) {
    if |rd.done| <= |before| then
      && v.lost == 0 && rd.done == before == v.kept
      && ((v.mode == Over(0) && rd.acc == []) || (v.mode.After? && 0 < v.mode.from <= |rd.acc|))
    else
      && v.lost == 1 && v.mode == After(0) && rd.done[..|before|] == before
      && v.kept == rd.done[..|before|] + rd.done[|before| + 1..]
  }

  lemma {:induction false} CleanAll(c: A.Config, rd: RT.Reader, v: View, cs: seq<Chunk>)
    requires Clean(rd, v)
    ensures Clean(RT.ReadAll(rd, cs), SeeAll(c, rd, v, cs))
    decreases |cs|
  {
    if cs != [] {
      CleanAll(c, RT.Read(rd, cs[0]), See(c, rd, v, cs[0]), cs[1..]);
    }
  }

  lemma OneCutChunk(c: A.Config, rd: RT.Reader, v: View, ch: Chunk, before: seq<seq<byte>>)
    requires OneCut(rd, v, before) && RT.Accepts(c, rd, ch)
    ensures OneCut(RT.Read(rd, ch), See(c, rd, v, ch), before)
  {
    if ch.last {
      var k, payload := |before|, rd.acc + ch.data;
      var done := rd.done + [payload];
      if |rd.done| == k {
        assert done[..k] == before && done[k + 1..] == [];
      } else {
        assert done[..k] == rd.done[..k] && done[k + 1..] == rd.done[k + 1..] + [payload];
      }
    }
  }

  lemma {:induction false} OneCutAll(c: A.Config, rd: RT.Reader, v: View, cs: seq<Chunk>, before: seq<seq<byte>>)
    requires OneCut(rd, v, before) && RT.AcceptsAll(c, rd, cs)
    ensures OneCut(RT.ReadAll(rd, cs), SeeAll(c, rd, v, cs), before)
    decreases |cs|
  {
    if cs != [] {
      OneCutChunk(c, rd, v, cs[0], before);
      OneCutAll(c, RT.Read(rd, cs[0]), See(c, rd, v, cs[0]), cs[1..], before);
    }
  }

  /** A packet is given up of which something is written, or nothing. */
  lemma CutIsOne(rd: RT.Reader, v: View)
    requires Clean(rd, v)
    ensures var r := RT.Reader(rd.id, [], 0, rd.done);
      if rd.acc == [] then Clean(r, GiveUp(rd, v)) else OneCut(r, GiveUp(rd, v), rd.done)
  {
  }

  lemma WholeKeepsCut(rd: RT.Reader, v: View, before: seq<seq<byte>>)
    requires OneCut(rd, v, before) && rd.acc == []
    ensures OneCut(RT.Reader(rd.id, [], 0, rd.done), GiveUp(rd, v), before)
  {
  }

  /** What the reader has of a packet that is cancelled. */
  lemma CancelledBytes(dc: D.Config, ac: A.Config, s: D.State, rd: RT.Reader, held: seq<Chunk>, sent: seq<seq<byte>>)
    requires RT.Written(dc, ac, s, rd, held, sent) && D.Enabled(dc, s, D.Cancel)
    ensures |RT.ReadAll(rd, held).acc| == s.used && RT.ReadAll(rd, held).done == RT.After(sent, D.Cancel)
  {
    hide RT.ReadAll, RT.AcceptsAll;
  }

  lemma StepOneCut(dc: D.Config, ac: A.Config, l: RT.Link, rd: RT.Reader, v: View, held: seq<Chunk>,
                   sent: seq<seq<byte>>, e: D.Event, before: seq<seq<byte>>)
    requires RT.Compatible(dc, ac) && Tracked(dc, ac, l, rd, v, held, sent) && D.Ok(dc, l.s) && D.Enabled(dc, l.s, e)
    requires e.Cancel? ==> l.s.used == 0
    ensures var x := AllWritten(ac, l.s, rd, v, held); var y := Write(dc, ac, x, e);
      && (Clean(x.w, x.v) ==> Clean(y.w, y.v)) && (OneCut(x.w, x.v, before) ==> OneCut(y.w, y.v, before))
  {
    hide Seen, RT.Written, RT.ReadAll, RT.AcceptsAll, SeeAll, GiveUp, D.Next, RT.Compatible, RT.Cuts, Clean, OneCut, D.Ok, Counts, RT.After;
    var x := AllWritten(ac, l.s, rd, v, held);
    if e.Cancel? {
      CancelledBytes(dc, ac, l.s, rd, held, sent);
      if Clean(x.w, x.v) { CutIsOne(x.w, x.v); }
      if OneCut(x.w, x.v, before) { WholeKeepsCut(x.w, x.v, before); }
    } else {
      var cs := RT.Cuts(dc, l.s, e);
      RT.EventWritten(dc, ac, l.s, rd, held, sent, e);
      RT.ReadSplit(ac, rd, held, cs);
      if Clean(x.w, x.v) { CleanAll(ac, x.w, x.v, cs); }
      if OneCut(x.w, x.v, before) { OneCutAll(ac, x.w, x.v, cs, before); }
    }
  }

  lemma {:induction false} RunOneCut(dc: D.Config, ac: A.Config, l: RT.Link, rd: RT.Reader, v: View, held: seq<Chunk>,
                                     sent: seq<seq<byte>>, events: seq<D.Event>, before: seq<seq<byte>>)
    requires RT.Compatible(dc, ac) && Spacious(ac, PerPacket(dc))
    requires Tracked(dc, ac, l, rd, v, held, sent) && A.Inv(ac, l.p) && D.Ok(dc, l.s)
    requires RT.ValidRun(dc, l.s, events) && RT.CancelsWhole(dc, l.s, events)
    ensures AllWritten(ac, l.s, rd, v, held).s == l.s
    ensures var x := AllWritten(ac, l.s, rd, v, held); var y := WriteAll(dc, ac, x, events);
      && (Clean(x.w, x.v) ==> Clean(y.w, y.v)) && (OneCut(x.w, x.v, before) ==> OneCut(y.w, y.v, before))
    decreases |events|
  {
    hide Tracked, RT.Deliver, RT.Compatible, A.Inv, D.Next, D.Enabled, D.Ok, AllWritten, Write, Spacious, PerPacket, Clean, OneCut;
    WrittenState(ac, l.s, rd, v, held);
    if events != [] {
      var e := events[0];
      D.NextOk(dc, l.s, e);
      StepOneCut(dc, ac, l, rd, v, held, sent, e, before);
      var rd', v', held' := StepTracked(dc, ac, l, rd, v, held, sent, e);
      RunOneCut(dc, ac, RT.Deliver(ac, l, D.Next(dc, l.s, e)), rd', v', held', RT.After(sent, e), events[1..], before);
    }
  }

  /**
   * If of all packets that are cancelled only one has been written in part, then exactly the packet
   * written next after it is missing in the end.
   */
  lemma CutCancelLosesNext(dc: D.Config, ac: A.Config, p: A.Pool, events: seq<D.Event>, later: seq<D.Event>)
    requires RT.Compatible(dc, ac) && A.Initial(ac, p) && Spacious(ac, PerPacket(dc))
    requires RT.ValidRun(dc, D.INITIAL, events) && RT.CancelsWhole(dc, D.INITIAL, events)
    ensures A.Inv(ac, p)
    ensures var l := RT.Run(dc, ac, RT.Link(D.INITIAL, p, []), events);
      D.Ok(dc, l.s) && A.Inv(ac, l.p) && (D.Enabled(dc, l.s, D.Cancel) && l.s.used > 0 ==>
        var m := RT.Deliver(ac, l, D.Next(dc, l.s, D.Cancel));
        D.Ok(dc, m.s) && (RT.ValidRun(dc, m.s, later) && RT.CancelsWhole(dc, m.s, later) ==>
          var r := RT.Run(dc, ac, m, later); var k := |RT.After(RT.Payloads([], events), D.Cancel)|;
          var sent := RT.Payloads(RT.After(RT.Payloads([], events), D.Cancel), later);
          AtRest(r.s) ==> k <= |sent| && r.delivered == if k == |sent| then sent else sent[..k] + sent[k + 1..]))
  {
    hide Tracked, RT.Compatible, A.Inv, A.Initial, RT.Run, RT.ValidRun, RT.CancelsWhole, AllWritten, Write, WriteAll, Spacious, Clean, OneCut,
         RT.Deliver, D.Next, D.Enabled, D.Ok, RT.Payloads, RT.After, AtRest, Counts, PerPacket;
    StartTracked(dc, ac, p);
    var start := RT.Link(D.INITIAL, p, []);
    var rd, v, held := RunTracked(dc, ac, start, NEW.w, NEW.v, [], [], events);
    RunOneCut(dc, ac, start, NEW.w, NEW.v, [], [], events, []);
    StartsClean();
    var l, sent := RT.Run(dc, ac, start, events), RT.Payloads([], events);
    TrackedOk(dc, ac, l, rd, v, held, sent);
    if D.Enabled(dc, l.s, D.Cancel) && l.s.used > 0 {
      CutThen(dc, ac, l, rd, v, held, sent, later);
    }
  }

  lemma StartsClean()
    ensures Clean(NEW.w, NEW.v)
  {
  }

  lemma TrackedOk(dc: D.Config, ac: A.Config, l: RT.Link, rd: RT.Reader, v: View, held: seq<Chunk>, sent: seq<seq<byte>>)
    requires Tracked(dc, ac, l, rd, v, held, sent)
    ensures D.Ok(dc, l.s) && A.Inv(ac, l.p) && RT.Written(dc, ac, l.s, rd, held, sent)
  {
  }

  lemma CutThen(dc: D.Config, ac: A.Config, l: RT.Link, rd: RT.Reader, v: View, held: seq<Chunk>, sent: seq<seq<byte>>, later: seq<D.Event>)
    requires RT.Compatible(dc, ac) && Spacious(ac, PerPacket(dc)) && Tracked(dc, ac, l, rd, v, held, sent)
    requires A.Inv(ac, l.p) && D.Ok(dc, l.s) && D.Enabled(dc, l.s, D.Cancel) && l.s.used > 0
    requires var x := AllWritten(ac, l.s, rd, v, held); Clean(x.w, x.v)
    ensures var m := RT.Deliver(ac, l, D.Next(dc, l.s, D.Cancel));
      D.Ok(dc, m.s) && (RT.ValidRun(dc, m.s, later) && RT.CancelsWhole(dc, m.s, later) ==>
        var r := RT.Run(dc, ac, m, later); var k := |RT.After(sent, D.Cancel)|;
        var all := RT.Payloads(RT.After(sent, D.Cancel), later);
        AtRest(r.s) ==> k <= |all| && r.delivered == if k == |all| then all else all[..k] + all[k + 1..])
  {
    hide Tracked, RT.Compatible, A.Inv, RT.Run, RT.ValidRun, RT.CancelsWhole, AllWritten, WriteAll, Spacious, Clean, OneCut,
         RT.Deliver, D.Next, D.Enabled, D.Ok, RT.Payloads, RT.After, AtRest, Counts, GiveUp, RT.ReadAll, SeeAll;
    D.NextOk(dc, l.s, D.Cancel);
    TrackedOk(dc, ac, l, rd, v, held, sent);
    CancelledBytes(dc, ac, l.s, rd, held, sent);
    var x := AllWritten(ac, l.s, rd, v, held);
    WrittenIs(ac, l.s, rd, v, held);
    CutIsOne(x.w, x.v);
    var m, before := RT.Deliver(ac, l, D.Next(dc, l.s, D.Cancel)), RT.After(sent, D.Cancel);
    var rd1, v1, held1 := StepTracked(dc, ac, l, rd, v, held, sent, D.Cancel);
    WrittenIs(ac, m.s, rd1, v1, held1);
    if RT.ValidRun(dc, m.s, later) && RT.CancelsWhole(dc, m.s, later) {
      var rd2, v2, held2 := RunTracked(dc, ac, m, rd1, v1, held1, before, later);
      RunOneCut(dc, ac, m, rd1, v1, held1, before, later, before);
      var r := RT.Run(dc, ac, m, later);
      EndTracked(dc, ac, r, rd2, v2, held2, RT.Payloads(before, later));
      if AtRest(r.s) {
        OneCutMissing(AllWritten(ac, r.s, rd2, v2, held2), before);
      }
    }
  }

  lemma WrittenIs(ac: A.Config, s: D.State, rd: RT.Reader, v: View, held: seq<Chunk>)
    ensures AllWritten(ac, s, rd, v, held) == Writer(s, RT.ReadAll(rd, held), SeeAll(ac, rd, v, held))
  {
  }

  lemma OneCutMissing(x: Writer, before: seq<seq<byte>>)
    requires OneCut(x.w, x.v, before)
    ensures var k, all := |before|, x.w.done;
      k <= |all| && x.v.kept == if k == |all| then all else all[..k] + all[k + 1..]
  {
  }
}
