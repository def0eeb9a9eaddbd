/** Two runs in which packets are cancelled of which a part is written: one loses a packet, one does not. */
module FragmentCancelRuns {
  import A = AssemblerModel
  import opened Bytes
  import D = DisassemblerModel
  import opened FragmentCancel
  import opened FragmentLeftovers
  import opened FragmentProto
  import RT = FragmentRoundTrip

  /** Frames of up to two bytes, one byte to a packet, and the assembler DatagramPeerIO would make for it. */
  const SMALL_D := D.Config(2, 8, -1, -1)
  const SMALL_A := A.Config(2, 1, 3)

  lemma SmallFits()
    ensures RT.Compatible(SMALL_D, SMALL_A) && Spacious(SMALL_A, PerPacket(SMALL_D))
  {
    RT.DatagramParametersFit(SMALL_D, SMALL_A);
  }

  /** One event more in front. */
  lemma OneMore(x: Writer, e: D.Event, y: Writer, es: seq<D.Event>)
    requires D.Ok(SMALL_D, x.s) && D.Enabled(SMALL_D, x.s, e) && Write(SMALL_D, SMALL_A, x, e) == y
    ensures D.Ok(SMALL_D, y.s)
    ensures RT.ValidRun(SMALL_D, y.s, es) ==>
      RT.ValidRun(SMALL_D, x.s, [e] + es) && WriteAll(SMALL_D, SMALL_A, x, [e] + es) == WriteAll(SMALL_D, SMALL_A, y, es)
  {
    hide D.Ok, D.Enabled, D.Next, Write;
    NextIsWritten(x, e);
    assert ([e] + es)[1..] == es;
  }

  lemma NextIsWritten(x: Writer, e: D.Event)
    requires D.Ok(SMALL_D, x.s) && D.Enabled(SMALL_D, x.s, e)
    ensures Write(SMALL_D, SMALL_A, x, e).s == D.Next(SMALL_D, x.s, e).state && D.Ok(SMALL_D, D.Next(SMALL_D, x.s, e).state)
  {
    D.NextOk(SMALL_D, x.s, e);
  }

  /** Nothing is waiting. */
  predicate Idle(s: D.State) {
    s.input.None? && s.out.None? && !s.timer && s.frameId < 0xFFFF
  }

  /** What is left of a packet after its first byte has gone. */
  function Begun(s: D.State, payload: seq<byte>): D.State {
    if |payload| == 1 then D.State(None, 1, None, false, s.frameId + 1) else D.State(Some(payload), 1, None, false, s.frameId)
  }

  /** An output packet is offered. */
  lemma RecvStep(x: Writer)
    requires Idle(x.s)
    ensures D.Ok(SMALL_D, x.s) && D.Enabled(SMALL_D, x.s, D.Recv)
    ensures Write(SMALL_D, SMALL_A, x, D.Recv) == Writer(x.s.(out := Some([])), x.w, x.v)
  {
    hide D.WriteChunks, D.Cut;
    RT.ReadNothing(SMALL_A, x.w);
    SeeNothing(SMALL_A, x.w, x.v);
  }

  /** There is room for one byte. */
  lemma OneByte(id: nat, payload: seq<byte>)
    requires 1 <= |payload| <= 2 && id < 0xFFFF
    ensures var ch := Chunk(id, 0, payload[..1], |payload| == 1);
      && D.Cut(SMALL_D, id, payload, 0, 1) == [ch] && D.CutEnd(SMALL_D, id, payload, 0, 1) == 1
      && |D.CutBytes(SMALL_D, id, payload, 0, 1)| == 8
  {
    hide EncodeChunk;
    var ch := Chunk(id, 0, payload[..1], |payload| == 1);
    assert D.FirstChunk(SMALL_D, id, payload, 0, 1) == ch;
  }

  /** A packet is sent into the output packet: its first byte goes out. */
  lemma SendStep(x: Writer, payload: seq<byte>)
    requires 1 <= |payload| <= 2 && x.s.out == Some([]) && x.s.input.None? && !x.s.timer && x.s.frameId < 0xFFFF
    ensures D.Ok(SMALL_D, x.s) && D.Enabled(SMALL_D, x.s, D.Send(payload))
    ensures var ch := Chunk(x.s.frameId, 0, payload[..1], |payload| == 1);
      Write(SMALL_D, SMALL_A, x, D.Send(payload)) == Writer(Begun(x.s, payload), RT.Read(x.w, ch), See(SMALL_A, x.w, x.v, ch))
  {
    hide D.CutBytes, D.CutEnd, D.Cut, D.FirstChunk, RT.Read, See, RT.ReadAll, SeeAll;
    OneByte(x.s.frameId, payload);
    var ch := Chunk(x.s.frameId, 0, payload[..1], |payload| == 1);
    assert RT.Cuts(SMALL_D, x.s, D.Send(payload)) == [ch];
    ReadOne(x.w, x.v, ch);
  }

  lemma ReadOne(w: RT.Reader, v: View, ch: Chunk)
    ensures RT.ReadAll(w, [ch]) == RT.Read(w, ch) && SeeAll(SMALL_A, w, v, [ch]) == See(SMALL_A, w, v, ch)
  {
    hide RT.Read, See;
    assert [ch][1..] == [];
    RT.ReadNothing(SMALL_A, RT.Read(w, ch));
    SeeNothing(SMALL_A, RT.Read(w, ch), See(SMALL_A, w, v, ch));
  }

  /** An output packet is offered, a packet is sent, and then come other events. */
  lemma SmallSend(x: Writer, payload: seq<byte>, y: Writer, es: seq<D.Event>)
    requires Idle(x.s) && 1 <= |payload| <= 2
    requires var ch := Chunk(x.s.frameId, 0, payload[..1], |payload| == 1);
      y == Writer(Begun(x.s, payload), RT.Read(x.w, ch), See(SMALL_A, x.w, x.v, ch))
    ensures D.Ok(SMALL_D, x.s) && D.Ok(SMALL_D, y.s)
    ensures RT.ValidRun(SMALL_D, y.s, es) ==>
      RT.ValidRun(SMALL_D, x.s, [D.Recv] + ([D.Send(payload)] + es))
      && WriteAll(SMALL_D, SMALL_A, x, [D.Recv] + ([D.Send(payload)] + es)) == WriteAll(SMALL_D, SMALL_A, y, es)
  {
    hide D.Ok, D.Enabled, D.Next, Write, WriteAll, RT.ValidRun, RT.Read, See;
    var z := Writer(x.s.(out := Some([])), x.w, x.v);
    RecvStep(x);
    SendStep(z, payload);
    OneMore(z, D.Send(payload), y, es);
    OneMore(x, D.Recv, z, [D.Send(payload)] + es);
  }

  lemma CancelStep(x: Writer)
    requires x.s.input.Some? && |x.s.input.value| == 2 && x.s.used == 1 && x.s.out.None? && !x.s.timer && x.s.frameId < 0xFFFF
    ensures D.Ok(SMALL_D, x.s) && D.Enabled(SMALL_D, x.s, D.Cancel)
    ensures Write(SMALL_D, SMALL_A, x, D.Cancel)
         == Writer(x.s.(input := None), RT.Reader(x.w.id, [], 0, x.w.done), GiveUp(x.w, x.v))
  {
    hide GiveUp, D.WriteChunks;
  }

  /** A packet of two bytes is cancelled when the first is gone, and then come other events. */
  function Cut(payload: seq<byte>, es: seq<D.Event>): seq<D.Event> {
    [D.Recv] + ([D.Send(payload)] + ([D.Cancel] + es))
  }

  /** Nothing waits; all of the frames before is gone, or this is left over. */
  function Between(frame: nat, v: View, done: seq<seq<byte>>): Writer {
    Writer(D.State(None, 1, None, false, frame), RT.Reader(frame, [], 0, done), v)
  }

  lemma SmallCut(x: Writer, payload: seq<byte>, v: View, es: seq<D.Event>)
    requires Idle(x.s) && x.w == RT.Reader(x.s.frameId, [], 0, x.w.done) && |payload| == 2
    requires var ch := Chunk(x.s.frameId, 0, payload[..1], false); v == GiveUp(RT.Read(x.w, ch), See(SMALL_A, x.w, x.v, ch))
    ensures var y := Between(x.s.frameId, v, x.w.done);
      && D.Ok(SMALL_D, x.s) && D.Ok(SMALL_D, y.s)
      && (RT.ValidRun(SMALL_D, y.s, es) ==>
            RT.ValidRun(SMALL_D, x.s, Cut(payload, es))
            && WriteAll(SMALL_D, SMALL_A, x, Cut(payload, es)) == WriteAll(SMALL_D, SMALL_A, y, es))
  {
    hide D.Ok, D.Enabled, D.Next, Write, WriteAll, RT.ValidRun, See, GiveUp;
    var ch := Chunk(x.s.frameId, 0, payload[..1], false);
    var y := Writer(Begun(x.s, payload), RT.Read(x.w, ch), See(SMALL_A, x.w, x.v, ch));
    CancelStep(y);
    OneMore(y, D.Cancel, Between(x.s.frameId, v, x.w.done), es);
    SmallSend(x, payload, y, [D.Cancel] + es);
  }

  /** A packet of one byte at the end. */
  lemma SmallEnd(x: Writer, payload: seq<byte>)
    requires Idle(x.s) && |payload| == 1
    ensures D.Ok(SMALL_D, x.s) && RT.ValidRun(SMALL_D, x.s, Last(payload))
    ensures var ch := Chunk(x.s.frameId, 0, payload, true);
      WriteAll(SMALL_D, SMALL_A, x, Last(payload))
      == Writer(D.State(None, 1, None, false, x.s.frameId + 1), RT.Read(x.w, ch), See(SMALL_A, x.w, x.v, ch))
  {
    hide D.Ok, D.Enabled, D.Next, Write, RT.Read, See;
    assert payload[..1] == payload;
    var ch := Chunk(x.s.frameId, 0, payload, true);
    var y := Writer(Begun(x.s, payload), RT.Read(x.w, ch), See(SMALL_A, x.w, x.v, ch));
    SmallSend(x, payload, y, []);
  }

  function Last(payload: seq<byte>): seq<D.Event> {
    [D.Recv] + ([D.Send(payload)] + [])
  }

  /** [5, 6] is cancelled after its first byte, and [7] is sent. */
  const ONE_CUT := Cut([5, 6], Last([7]))

  /** Both [5, 6] and [7, 8] are cancelled after their first bytes, and [9] is sent. */
  const TWO_CUTS := Cut([5, 6], Cut([7, 8], Last([9])))

  /** The first cut leaves a byte over. */
  lemma AfterCut(es: seq<D.Event>)
    ensures var y := Between(0, View(Over(0), 1, [], 0), []);
      && D.Ok(SMALL_D, D.INITIAL) && D.Ok(SMALL_D, y.s)
      && (RT.ValidRun(SMALL_D, y.s, es) ==>
            RT.ValidRun(SMALL_D, D.INITIAL, Cut([5, 6], es))
            && WriteAll(SMALL_D, SMALL_A, NEW, Cut([5, 6], es)) == WriteAll(SMALL_D, SMALL_A, y, es))
  {
    hide D.Ok, D.Enabled, D.Next, Write, WriteAll, RT.ValidRun, Cut;
    SmallCut(NEW, [5, 6], View(Over(0), 1, [], 0), es);
  }

  /** The second cut leaves nothing. */
  lemma AfterSecondCut(x: Writer, es: seq<D.Event>)
    requires x == Between(0, View(Over(0), 1, [], 0), [])
    ensures var y := Between(0, START, []);
      && D.Ok(SMALL_D, x.s) && D.Ok(SMALL_D, y.s)
      && (RT.ValidRun(SMALL_D, y.s, es) ==>
            RT.ValidRun(SMALL_D, x.s, Cut([7, 8], es))
            && WriteAll(SMALL_D, SMALL_A, x, Cut([7, 8], es)) == WriteAll(SMALL_D, SMALL_A, y, es))
  {
    hide D.Ok, D.Enabled, D.Next, Write, WriteAll, RT.ValidRun, Cut;
    SmallCut(x, [7, 8], START, es);
  }

  /** A packet that is cancelled in part takes the next one with it. */
  lemma OneCutLoses(p: A.Pool)
    requires A.Initial(SMALL_A, p)
    ensures D.Ok(SMALL_D, D.INITIAL) && A.Inv(SMALL_A, p) && RT.ValidRun(SMALL_D, D.INITIAL, ONE_CUT)
    ensures var l := RT.Run(SMALL_D, SMALL_A, RT.Link(D.INITIAL, p, []), ONE_CUT);
      AtRest(l.s) && RT.Payloads([], ONE_CUT) == [[7]] && l.delivered == []
  {
    hide RT.Run, RT.ValidRun, RT.Compatible, A.Inv, A.Initial, WriteAll, Spacious, D.Ok, RT.Payloads, Cut, Last;
    SmallFits();
    AfterCut(Last([7]));
    SmallEnd(Between(0, View(Over(0), 1, [], 0), []), [7]);
    DeliveredExactly(SMALL_D, SMALL_A, p, ONE_CUT);
    OneCutPayloads();
  }

  lemma OneCutPayloads()
    ensures RT.Payloads([], ONE_CUT) == [[7]]
  {
    var none: seq<seq<byte>> := [];
    assert ONE_CUT == [D.Recv, D.Send([5, 6]), D.Cancel, D.Recv, D.Send([7])];
    PayloadsStep(none, ONE_CUT);
    PayloadsStep(none, ONE_CUT[1..]);
    PayloadsStep([[5, 6]], ONE_CUT[2..]);
    PayloadsStep(none, ONE_CUT[3..]);
    PayloadsStep(none, ONE_CUT[4..]);
  }

  lemma PayloadsStep(sent: seq<seq<byte>>, events: seq<D.Event>)
    requires events != []
    ensures RT.Payloads(sent, events) == RT.Payloads(RT.After(sent, events[0]), events[1..])
    ensures events[0].Cancel? && |sent| == 1 ==> RT.After(sent, events[0]) == []
    ensures |events| == 1 ==> RT.Payloads(sent, events) == RT.After(sent, events[0])
  {
  }

  /**
   * But cancelling in part twice in a row loses nothing: the leftover of the one meets that of the
   * other. So that a packet is cancelled in part does not decide it; what is left over does.
   */
  lemma TwoCutsLoseNone(p: A.Pool)
    requires A.Initial(SMALL_A, p)
    ensures D.Ok(SMALL_D, D.INITIAL) && A.Inv(SMALL_A, p) && RT.ValidRun(SMALL_D, D.INITIAL, TWO_CUTS)
    ensures var l := RT.Run(SMALL_D, SMALL_A, RT.Link(D.INITIAL, p, []), TWO_CUTS);
      AtRest(l.s) && l.delivered == [[9]] == RT.Payloads([], TWO_CUTS)
  {
    hide RT.Run, RT.ValidRun, RT.Compatible, A.Inv, A.Initial, WriteAll, Spacious, D.Ok, RT.Payloads, Cut, Last;
    SmallFits();
    AfterCut(Cut([7, 8], Last([9])));
    AfterSecondCut(Between(0, View(Over(0), 1, [], 0), []), Last([9]));
    SmallEnd(Between(0, START, []), [9]);
    var nine: seq<byte> := [9];
    assert [] + nine == nine;
    assert RT.Read(Between(0, START, []).w, Chunk(0, 0, nine, true)).done == [nine];
    DeliveredExactly(SMALL_D, SMALL_A, p, TWO_CUTS);
  }
}
