/**
 * DataProto: buffers of flows that move between sinks. A buffer one of whose packets is in flight
 * cannot leave its sink at once; the sink remembers it and lets go of it when the packet is done.
 * World is the state of all objects as a value; the class DataProto changes the objects.
 */
module DataProto {
  import opened Lists

  class Sink {
    // the flow of the queue that is sending, if it is the flow of a buffer
    var busy: Buffer?
    var detachingBuffer: Buffer?
    // whether flows that are sending may be freed
    var queueFreeing: bool

    constructor ()
      ensures busy == null && detachingBuffer == null && !queueFreeing
    {
      busy, detachingBuffer, queueFreeing := null, null, false;
    }
  }

  class Buffer {
    var flow: Flow?
    var sink: Sink?
    // whether the busy handler of the queue flow is set
    var busyHandler: bool

    constructor (flow: Flow)
      ensures this.flow == flow && sink == null && !busyHandler
    {
      this.flow, sink, busyHandler := flow, null, false;
    }
  }

  class Flow {
    var sinkDesired: Sink?
    var b: Buffer?

    constructor ()
      ensures sinkDesired == null && b == null
    {
      sinkDesired, b := null, null;
    }
  }

  // ---------------------------------------------------------------- the state as a value

  datatype SinkState = SinkState(busy: Buffer?, detaching: Buffer?)

  datatype BufferState = BufferState(flow: Flow?, sink: Sink?, busyHandler: bool)

  datatype FlowState = FlowState(desired: Sink?, b: Buffer)

  /** freed lists the calls of flow_buffer_free. */
  datatype World = World(sinks: map<Sink, SinkState>, buffers: map<Buffer, BufferState>, flows: map<Flow, FlowState>, freed: seq<Buffer>)

  const NOTHING := World(map[], map[], map[], [])

  /** The sink the owner of the buffer wants it attached to; none when the flow is gone. */
  function Desired(w: World, b: Buffer): Sink?
    requires b in w.buffers && (w.buffers[b].flow != null ==> w.buffers[b].flow in w.flows)
  {
    var flow := w.buffers[b].flow;
    if flow == null then null else w.flows[flow].desired
  }

  /** A flow has its buffer, and the buffer is in a sink when the flow wants one. */
  ghost predicate FlowOk(w: World, f: Flow)
    requires f in w.flows
  {
    var st := w.flows[f];
    && st.b in w.buffers && w.buffers[st.b].flow == f
    && (st.desired != null ==> st.desired in w.sinks && w.buffers[st.b].sink != null)
  }

  /** Only a buffer that is busy in the sink is detaching from it. */
  ghost predicate SinkOk(w: World, s: Sink)
    requires s in w.sinks
  {
    var st := w.sinks[s];
    && (st.busy != null ==> st.busy in w.buffers && w.buffers[st.busy].sink == s)
    && (st.detaching != null ==> st.detaching == st.busy)
  }

  /**
   * A buffer in a sink that is not the desired one is the detaching buffer of that sink; a buffer
   * without a flow is still in a sink; the busy handler is set while the buffer is detaching.
   */
  ghost predicate BufferOk(w: World, b: Buffer)
    requires b in w.buffers
  {
    var st := w.buffers[b];
    && (if st.flow == null then st.sink != null else st.flow in w.flows && w.flows[st.flow].b == b)
    && (st.sink != null ==> st.sink in w.sinks && (Desired(w, b) != st.sink ==> w.sinks[st.sink].detaching == b))
    && (st.busyHandler <==> st.sink != null && w.sinks[st.sink].detaching == b)
  }

  /** A buffer is freed once. */
  ghost predicate FreedOnce(w: World) {
    NoDup(w.freed) && forall b :: b in w.freed ==> b !in w.buffers
  }

  ghost predicate Inv(w: World) {
    && FreedOnce(w)
    && (forall f :: f in w.flows ==> FlowOk(w, f))
    && (forall s :: s in w.sinks ==> SinkOk(w, s))
    && (forall b :: b in w.buffers ==> BufferOk(w, b))
  }

  /** Starts is the queue of a sink taking a packet of a buffer, Done is the output being done with it. */
  datatype Event = SinkInit(s: Sink) | SinkFree(s: Sink) | FlowInit(f: Flow, b: Buffer) | FlowFree(f: Flow)
                 | Attach(f: Flow, s: Sink) | Detach(f: Flow) | Starts(s: Sink, b: Buffer) | Done(s: Sink)

  /** What is asserted of the callers. */
  ghost predicate Enabled(w: World, e: Event) {
    match e
    case SinkInit(s) => s !in w.sinks
    case SinkFree(s) => s in w.sinks && forall f :: f in w.flows ==> w.flows[f].desired != s
    case FlowInit(f, b) => f !in w.flows && b !in w.buffers && b !in w.freed
    case FlowFree(f) => f in w.flows && w.flows[f].desired == null
    case Attach(f, s) => f in w.flows && s in w.sinks && w.flows[f].desired == null
    case Detach(f) => f in w.flows && w.flows[f].desired != null
    case Starts(s, b) => s in w.sinks && w.sinks[s].busy == null && b in w.buffers && w.buffers[b].sink == s
    case Done(s) => s in w.sinks && w.sinks[s].busy != null
  }

  function PutBuffer(w: World, b: Buffer, st: BufferState): World {
    w.(buffers := w.buffers[b := st])
  }

  function PutDesired(w: World, f: Flow, s: Sink?): World
    requires f in w.flows
  {
    w.(flows := w.flows[f := w.flows[f].(desired := s)])
  }

  function AttachBuffer(w: World, b: Buffer, s: Sink): World
    requires b in w.buffers
  {
    PutBuffer(w, b, w.buffers[b].(sink := s, busyHandler := false))
  }

  /** flow_buffer_detach */
  function DetachBuffer(w: World, b: Buffer): World
    requires b in w.buffers && w.buffers[b].sink in w.sinks
  {
    var s := w.buffers[b].sink;
    var st := w.sinks[s];
    PutBuffer(w, b, w.buffers[b].(sink := null, busyHandler := false))
      .(sinks := w.sinks[s := SinkState(if st.busy == b then null else st.busy, if st.detaching == b then null else st.detaching)])
  }

  function FreeBuffer(w: World, b: Buffer): World {
    w.(buffers := w.buffers - {b}, freed := w.freed + [b])
  }

  predicate IsBusy(w: World, b: Buffer)
    requires b in w.buffers && w.buffers[b].sink in w.sinks
  {
    w.sinks[w.buffers[b].sink].busy == b
  }

  /** flow_buffer_schedule_detach */
  function ScheduleDetach(w: World, b: Buffer): World
    requires b in w.buffers && w.buffers[b].sink in w.sinks
  {
    var s := w.buffers[b].sink;
    PutBuffer(w, b, w.buffers[b].(busyHandler := true)).(sinks := w.sinks[s := w.sinks[s].(detaching := b)])
  }

  /** flow_buffer_finish_detach */
  function FinishDetach(w: World, b: Buffer): World
    requires b in w.buffers && w.buffers[b].sink in w.sinks
    requires w.buffers[b].flow != null ==> w.buffers[b].flow in w.flows
  {
    var r := DetachBuffer(w, b);
    if w.buffers[b].flow == null then FreeBuffer(r, b)
    else if Desired(w, b) != null then AttachBuffer(r, b, Desired(w, b))
    else r
  }

  /** The packet is done: the queue is not sending, and calls the busy handler if it is set. */
  function DoneWith(w: World, s: Sink): World
    requires s in w.sinks && w.sinks[s].busy in w.buffers && w.buffers[w.sinks[s].busy].sink == s
    requires w.buffers[w.sinks[s].busy].flow != null ==> w.buffers[w.sinks[s].busy].flow in w.flows
  {
    var b := w.sinks[s].busy;
    var r := w.(sinks := w.sinks[s := w.sinks[s].(busy := null)]);
    if w.buffers[b].busyHandler then FinishDetach(PutBuffer(r, b, r.buffers[b].(busyHandler := false)), b) else r
  }

  function Step(w: World, e: Event): World
    requires Inv(w) && Enabled(w, e)
  {
    Relevant(w, e);
    match e
    case SinkInit(s) => w.(sinks := w.sinks[s := SinkState(null, null)])
    case SinkFree(s) =>
      var r := if w.sinks[s].detaching == null then w else FinishDetach(w, w.sinks[s].detaching);
      r.(sinks := r.sinks - {s})
    case FlowInit(f, b) => PutBuffer(w.(flows := w.flows[f := FlowState(null, b)]), b, BufferState(f, null, false))
    case FlowFree(f) =>
      var b := w.flows[f].b;
      var r := w.(flows := w.flows - {f});
      if w.buffers[b].sink == null then FreeBuffer(r, b)
      else ScheduleDetach(PutBuffer(r, b, w.buffers[b].(flow := null)), b)
    case Attach(f, s) =>
      var b := w.flows[f].b;
      PutDesired(if w.buffers[b].sink == null then AttachBuffer(w, b, s) else w, f, s)
    case Detach(f) =>
      var b := w.flows[f].b;
      PutDesired(if IsBusy(w, b) then ScheduleDetach(w, b) else DetachBuffer(w, b), f, null)
    case Starts(s, b) => w.(sinks := w.sinks[s := w.sinks[s].(busy := b)])
    case Done(s) => DoneWith(w, s)
  }

  // ---------------------------------------------------------------- every event keeps the invariant

  /** The parts of the invariant an event is about. */
  lemma Relevant(w: World, e: Event)
    requires Inv(w) && Enabled(w, e)
    ensures match e
      case SinkFree(s) => SinkOk(w, s) && (w.sinks[s].busy != null ==> BufferOk(w, w.sinks[s].busy))
      case FlowFree(f) => FlowOk(w, f) && BufferOk(w, w.flows[f].b)
      case Attach(f, s) => FlowOk(w, f) && BufferOk(w, w.flows[f].b)
      case Detach(f) => FlowOk(w, f) && BufferOk(w, w.flows[f].b)
      case Done(s) => SinkOk(w, s) && BufferOk(w, w.sinks[s].busy)
      case _ => true
  {
    if e.SinkFree? || e.Done? {
      assert SinkOk(w, e.s);
    }
    if e.FlowFree? || e.Attach? || e.Detach? {
      assert FlowOk(w, e.f);
    }
  }

  lemma FreedGrows(w: World, b: Buffer)
    requires FreedOnce(w) && b in w.buffers
    ensures NoDup(w.freed + [b])
  {
  }

  lemma FinishFreed(w: World, b: Buffer)
    requires FreedOnce(w) && b in w.buffers && BufferOk(w, b) && w.buffers[b].sink != null
    ensures FreedOnce(FinishDetach(w, b))
  {
    FreedGrows(w, b);
  }

  lemma FinishedBuffer(w: World, b: Buffer, c: Buffer)
    requires b in w.buffers && w.buffers[b].sink != null && BufferOk(w, b)
    requires w.sinks[w.buffers[b].sink].detaching == b
    requires w.buffers[b].flow != null ==> FlowOk(w, w.buffers[b].flow)
    requires c in w.buffers && BufferOk(w, c) && c in FinishDetach(w, b).buffers
    requires Desired(w, b) != null ==> SinkOk(w, Desired(w, b))
    ensures BufferOk(FinishDetach(w, b), c)
  {
  }

  lemma FinishInv(w: World, b: Buffer)
    requires Inv(w) && b in w.buffers && w.buffers[b].sink != null && BufferOk(w, b)
    requires w.sinks[w.buffers[b].sink].detaching == b
    ensures Inv(FinishDetach(w, b))
  {
    FinishFreed(w, b);
    hide FreedOnce;
    assert SinkOk(w, w.buffers[b].sink);
    var r := FinishDetach(w, b);
    forall c | c in r.buffers ensures BufferOk(r, c) {
      assert BufferOk(w, c);
      if w.buffers[b].flow != null {
        assert FlowOk(w, w.buffers[b].flow);
      }
      FinishedBuffer(w, b, c);
    }
    hide BufferOk;
    forall g | g in r.flows ensures FlowOk(r, g) {
      assert FlowOk(w, g);
    }
    forall t | t in r.sinks ensures SinkOk(r, t) {
      assert SinkOk(w, t);
    }
  }

  lemma SinkGoneInv(w: World, s: Sink)
    requires Inv(w) && s in w.sinks && w.sinks[s].detaching == null
    requires forall f :: f in w.flows ==> w.flows[f].desired != s
    ensures Inv(w.(sinks := w.sinks - {s}))
  {
    hide NoDup;
    var r := w.(sinks := w.sinks - {s});
    forall g | g in r.flows ensures FlowOk(r, g) {
      assert FlowOk(w, g);
    }
    forall t | t in r.sinks ensures SinkOk(r, t) {
      assert SinkOk(w, t);
    }
    forall c | c in r.buffers ensures BufferOk(r, c) {
      assert BufferOk(w, c);
    }
  }

  lemma SinkFreeInv(w: World, s: Sink)
    requires Inv(w) && Enabled(w, SinkFree(s))
    ensures Inv(Step(w, SinkFree(s)))
  {
    hide Inv;
    Relevant(w, SinkFree(s));
    if w.sinks[s].detaching != null {
      FinishInv(w, w.sinks[s].detaching);
      SinkGoneInv(FinishDetach(w, w.sinks[s].detaching), s);
    } else {
      SinkGoneInv(w, s);
    }
  }

  lemma FlowFreeInv(w: World, f: Flow)
    requires Inv(w) && Enabled(w, FlowFree(f))
    ensures Inv(Step(w, FlowFree(f)))
  {
    hide NoDup;
    Relevant(w, FlowFree(f));
    FreedGrows(w, w.flows[f].b);
    var r := Step(w, FlowFree(f));
    forall g | g in r.flows ensures FlowOk(r, g) {
      assert FlowOk(w, g);
    }
    forall t | t in r.sinks ensures SinkOk(r, t) {
      assert SinkOk(w, t);
    }
    forall c | c in r.buffers ensures BufferOk(r, c) {
      assert BufferOk(w, c);
    }
  }

  lemma DetachInv(w: World, f: Flow)
    requires Inv(w) && Enabled(w, Detach(f))
    ensures Inv(Step(w, Detach(f)))
  {
    hide NoDup;
    Relevant(w, Detach(f));
    var r := Step(w, Detach(f));
    forall g | g in r.flows ensures FlowOk(r, g) {
      assert FlowOk(w, g);
    }
    forall t | t in r.sinks ensures SinkOk(r, t) {
      assert SinkOk(w, t);
    }
    forall c | c in r.buffers ensures BufferOk(r, c) {
      assert BufferOk(w, c);
    }
  }

  lemma DoneInv(w: World, s: Sink)
    requires Inv(w) && Enabled(w, Done(s))
    ensures Inv(Step(w, Done(s)))
  {
    hide NoDup;
    Relevant(w, Done(s));
    var b := w.sinks[s].busy;
    var r := Step(w, Done(s));
    if w.buffers[b].busyHandler {
      DoneIsFinish(w, s);
      FinishInv(w, b);
    } else {
      forall g | g in r.flows ensures FlowOk(r, g) {
        assert FlowOk(w, g);
      }
      forall t | t in r.sinks ensures SinkOk(r, t) {
        assert SinkOk(w, t);
      }
      forall c | c in r.buffers ensures BufferOk(r, c) {
        assert BufferOk(w, c);
      }
    }
  }

  lemma DoneIsFinish(w: World, s: Sink)
    requires Inv(w) && Enabled(w, Done(s))
    ensures SinkOk(w, s) && BufferOk(w, w.sinks[s].busy)
    ensures w.buffers[w.sinks[s].busy].busyHandler ==> Step(w, Done(s)) == FinishDetach(w, w.sinks[s].busy)
  {
    hide Inv;
    Relevant(w, Done(s));
    var b := w.sinks[s].busy;
    var r := w.(sinks := w.sinks[s := w.sinks[s].(busy := null)]);
    var q := PutBuffer(r, b, r.buffers[b].(busyHandler := false));
    assert w.buffers[b].busyHandler ==> DetachBuffer(q, b) == DetachBuffer(w, b);
  }

  lemma AttachInv(w: World, f: Flow, s: Sink)
    requires Inv(w) && Enabled(w, Attach(f, s))
    ensures Inv(Step(w, Attach(f, s)))
  {
    Relevant(w, Attach(f, s));
    var r := Step(w, Attach(f, s));
    FreedSame(w, r);
    hide FreedOnce;
    forall g | g in r.flows ensures FlowOk(r, g) {
      assert FlowOk(w, g);
    }
    forall t | t in r.sinks ensures SinkOk(r, t) {
      assert SinkOk(w, t);
    }
    forall c | c in r.buffers ensures BufferOk(r, c) {
      assert BufferOk(w, c);
    }
  }

  lemma FreedSame(w: World, r: World)
    requires FreedOnce(w) && r.freed == w.freed && r.buffers.Keys == w.buffers.Keys
    ensures FreedOnce(r)
  {
    assert forall b :: b in r.buffers ==> b in w.buffers.Keys;
  }

  lemma StepInv(w: World, e: Event)
    requires Inv(w) && Enabled(w, e)
    ensures Inv(Step(w, e))
  {
    hide FreedOnce;
    match e
    case SinkInit(s) => FreedSame(w, Step(w, e));
    case SinkFree(s) => SinkFreeInv(w, s);
    case FlowInit(f, b) => FreedMade(w, b);
    case FlowFree(f) => FlowFreeInv(w, f);
    case Attach(f, s) => AttachInv(w, f, s);
    case Detach(f) => DetachInv(w, f);
    case Starts(s, b) => FreedSame(w, Step(w, e));
    case Done(s) => DoneInv(w, s);
  }

  lemma FreedMade(w: World, b: Buffer)
    requires FreedOnce(w) && b !in w.freed
    ensures forall r: World :: r.freed == w.freed && r.buffers.Keys == w.buffers.Keys + {b} ==> FreedOnce(r)
  {
  }

  // ---------------------------------------------------------------- runs

  ghost predicate AllEnabled(w: World, es: seq<Event>)
    requires Inv(w)
    decreases |es|
  {
    es == [] || (Enabled(w, es[0]) && (StepInv(w, es[0]); AllEnabled(Step(w, es[0]), es[1..])))
  }

  ghost function Run(w: World, es: seq<Event>): World
    requires Inv(w) && AllEnabled(w, es)
    decreases |es|
  {
    if es == [] then w
    else
      StepInv(w, es[0]);
      Run(Step(w, es[0]), es[1..])
  }

  lemma {:induction false} RunInv(w: World, es: seq<Event>)
    requires Inv(w) && AllEnabled(w, es)
    ensures Inv(Run(w, es))
    decreases |es|
  {
    if es != [] {
      StepInv(w, es[0]);
      RunInv(Step(w, es[0]), es[1..]);
    }
  }

  /** The sink lets go of its detaching buffer in this event. */
  predicate Releases(e: Event, s: Sink) {
    e == Done(s) || e == SinkFree(s)
  }

  ghost predicate Detaching(w: World, b: Buffer, s: Sink) {
    b in w.buffers && w.buffers[b].sink == s && s in w.sinks && w.sinks[s].detaching == b
  }

  /** What becomes of a detaching buffer is up to what its flow wants at the end. */
  ghost predicate Settled(was: World, w: World, b: Buffer)
    requires Inv(was) && b in was.buffers
  {
    var flow := was.buffers[b].flow;
    if flow == null then b !in w.buffers && b in w.freed
    else b in w.buffers && w.buffers[b].flow == flow && w.buffers[b].sink == was.flows[flow].desired && !w.buffers[b].busyHandler
  }

  lemma FinishKeepsDetaching(w: World, c: Buffer, b: Buffer, s: Sink)
    requires c in w.buffers && BufferOk(w, c) && w.buffers[c].sink != null && c != b && Detaching(w, b, s)
    requires w.buffers[c].sink != s
    ensures Detaching(FinishDetach(w, c), b, s)
  {
  }

  lemma DetachingStays(w: World, b: Buffer, s: Sink, e: Event)
    requires Inv(w) && Enabled(w, e) && Detaching(w, b, s) && !Releases(e, s)
    ensures Detaching(Step(w, e), b, s)
  {
    hide FreedOnce, NoDup;
    Relevant(w, e);
    assert SinkOk(w, s) && BufferOk(w, b);
    if e.Done? {
      hide FinishDetach;
      DoneIsFinish(w, e.s);
      if w.buffers[w.sinks[e.s].busy].busyHandler {
        FinishKeepsDetaching(w, w.sinks[e.s].busy, b, s);
      }
    } else if e.SinkFree? {
      hide FinishDetach;
      if w.sinks[e.s].detaching != null {
        FinishKeepsDetaching(w, w.sinks[e.s].detaching, b, s);
      }
    }
  }

  lemma ReleaseSettles(w: World, b: Buffer, s: Sink, e: Event)
    requires Inv(w) && Enabled(w, e) && Detaching(w, b, s) && Releases(e, s)
    ensures Settled(w, Step(w, e), b) && forall t :: !Detaching(Step(w, e), b, t)
  {
  }

  /** The sink does not let go of its detaching buffer in these events. */
  predicate NoRelease(es: seq<Event>, s: Sink) {
    forall i :: 0 <= i < |es| ==> !Releases(es[i], s)
  }

  /**
   * A deferred detach is carried out exactly when the packet is done or the sink goes away,
   * whatever the flow wanted in the meantime: until then the buffer stays where it is, and then it
   * goes where the flow last wanted it, or is freed if the flow is gone.
   */
  lemma {:induction false} DeferredDetach(w: World, b: Buffer, s: Sink, es: seq<Event>, last: Event)
    requires Inv(w) && AllEnabled(w, es) && Detaching(w, b, s) && NoRelease(es, s)
    requires Releases(last, s) && Enabled(Run(w, es), last)
    ensures var r := Run(w, es);
      && Inv(r) && Detaching(r, b, s) && IsBusy(r, b)
      && Settled(r, Step(r, last), b) && forall t :: !Detaching(Step(r, last), b, t)
    decreases |es|
  {
    if es == [] {
      ReleaseSettles(w, b, s, last);
    } else {
      StepInv(w, es[0]);
      DetachingStays(w, b, s, es[0]);
      DeferredDetach(Step(w, es[0]), b, s, es[1..], last);
    }
  }

  /** After the sink is gone no buffer is in it, as its queue demands when it is freed. */
  lemma NoneLeftInSink(w: World, s: Sink)
    requires Inv(w) && Enabled(w, SinkFree(s))
    ensures var r := Step(w, SinkFree(s)); forall b :: b in r.buffers ==> r.buffers[b].sink != s
  {
    StepInv(w, SinkFree(s));
  }

  /** The buffers made in a run. */
  function Made(es: seq<Event>): seq<Buffer> {
    if es == [] then []
    else (if es[0].FlowInit? then [es[0].b] else []) + Made(es[1..])
  }

  /**
   * No buffer is lost and none is freed twice: when all flows and all sinks have been freed, the
   * buffers that were made are those that were freed, each once.
   */
  lemma NoLeak(es: seq<Event>)
    requires Inv(NOTHING) && AllEnabled(NOTHING, es)
    requires Run(NOTHING, es).flows == map[] && Run(NOTHING, es).sinks == map[]
    ensures var r := Run(NOTHING, es);
      r.buffers == map[] && NoDup(r.freed) && forall b :: b in r.freed <==> b in Made(es)
  {
    var r := Run(NOTHING, es);
    RunInv(NOTHING, es);
    MadeAreKept(NOTHING, es);
    assert r.buffers.Keys == {};
  }

  lemma {:induction false} MadeAreKept(w: World, es: seq<Event>)
    requires Inv(w) && AllEnabled(w, es)
    ensures var r := Run(w, es);
      forall b :: b in r.buffers || b in r.freed <==> b in w.buffers || b in w.freed || b in Made(es)
    decreases |es|
  {
    if es != [] {
      StepInv(w, es[0]);
      StepKeeps(w, es[0]);
      MadeAreKept(Step(w, es[0]), es[1..]);
    }
  }

  lemma StepKeeps(w: World, e: Event)
    requires Inv(w) && Enabled(w, e)
    ensures var r := Step(w, e);
      forall b :: b in r.buffers || b in r.freed <==> b in w.buffers || b in w.freed || (e.FlowInit? && b == e.b)
  {
  }

  // ---------------------------------------------------------------- the objects

  class Objects {
    ghost var sinks: map<Sink, SinkState>
    ghost var buffers: map<Buffer, BufferState>
    ghost var flows: map<Flow, FlowState>
    ghost var freed: seq<Buffer>

    ghost function W(): World
      reads this
    {
      World(sinks, buffers, flows, freed)
    }

    ghost predicate SinksTied()
      reads `sinks, sinks.Keys
    {
      forall s :: s in sinks ==> sinks[s] == SinkState(s.busy, s.detachingBuffer)
    }

    ghost predicate BuffersTied()
      reads `buffers, buffers.Keys
    {
      forall b :: b in buffers ==> buffers[b] == BufferState(b.flow, b.sink, b.busyHandler)
    }

    ghost predicate FlowsTied()
      reads `flows, flows.Keys
    {
      forall f :: f in flows ==> f.b == flows[f].b && f.sinkDesired == flows[f].desired
    }

    ghost predicate Tied()
      reads this, sinks.Keys, buffers.Keys, flows.Keys
    {
      SinksTied() && BuffersTied() && FlowsTied()
    }

    ghost predicate Valid()
      reads this, sinks.Keys, buffers.Keys, flows.Keys
    {
      Tied() && Inv(W())
    }

    constructor ()
      ensures Valid() && W() == NOTHING
    {
      sinks, buffers, flows, freed := map[], map[], map[], [];
    }

    // the fields of one object, with what they are in the value

    method SetSink(s: Sink, busy: Buffer?, detaching: Buffer?)
      requires SinksTied() && s in sinks
      modifies `sinks, s`busy, s`detachingBuffer
      ensures SinksTied() && sinks == old(sinks)[s := SinkState(busy, detaching)]
      ensures s.busy == busy && s.detachingBuffer == detaching
    {
      s.busy, s.detachingBuffer := busy, detaching;
      sinks := sinks[s := SinkState(busy, detaching)];
    }

    method SetBuffer(b: Buffer, flow: Flow?, sink: Sink?, busyHandler: bool)
      requires BuffersTied() && b in buffers
      modifies `buffers, b
      ensures BuffersTied() && buffers == old(buffers)[b := BufferState(flow, sink, busyHandler)]
      ensures b.flow == flow && b.sink == sink && b.busyHandler == busyHandler
    {
      b.flow, b.sink, b.busyHandler := flow, sink, busyHandler;
      buffers := buffers[b := BufferState(flow, sink, busyHandler)];
    }

    method SetDesired(f: Flow, s: Sink?)
      requires FlowsTied() && f in flows
      modifies `flows, f`sinkDesired
      ensures FlowsTied() && flows == old(flows)[f := old(flows)[f].(desired := s)]
    {
      f.sinkDesired := s;
      flows := flows[f := flows[f].(desired := s)];
    }

    /** What the value says of an object. */
    lemma Fields(b: Buffer)
      requires Tied() && b in buffers
      ensures buffers[b] == BufferState(b.flow, b.sink, b.busyHandler)
      ensures b.sink != null && b.sink in sinks ==> sinks[b.sink] == SinkState(b.sink.busy, b.sink.detachingBuffer)
      ensures b.flow != null && b.flow in flows ==> b.flow.sinkDesired == flows[b.flow].desired
    {
    }

    lemma SinkFields(s: Sink)
      requires Tied() && s in sinks
      ensures sinks[s] == SinkState(s.busy, s.detachingBuffer)
    {
    }

    lemma FlowFields(f: Flow)
      requires Tied() && f in flows
      ensures f.b == flows[f].b && f.sinkDesired == flows[f].desired
    {
    }

    // ---------------------------------------------------------------- flow_buffer_*

    method BufferFree(b: Buffer)
      requires Tied() && b in buffers && b.sink == null
      modifies `buffers, `freed
      ensures Tied() && W() == FreeBuffer(old(W()), b)
    {
      buffers, freed := buffers - {b}, freed + [b];
    }

    method BufferAttach(b: Buffer, sink: Sink)
      requires Tied() && b in buffers && sink in sinks && b.sink == null
      modifies `buffers, b
      ensures Tied() && W() == AttachBuffer(old(W()), b, sink) && b.flow == old(b.flow)
    {
      hide SinksTied, BuffersTied, FlowsTied;
      Fields(b);
      SetBuffer(b, b.flow, sink, false);
    }

    method BufferDetach(b: Buffer)
      requires Tied() && b in buffers && b.sink != null && b.sink in sinks
      requires b.sink.busy != b || b.sink.queueFreeing
      modifies `buffers, `sinks, b, b.sink
      ensures Tied() && W() == DetachBuffer(old(W()), b) && b.sink == null && b.flow == old(b.flow)
    {
      hide SinksTied, BuffersTied, FlowsTied;
      Fields(b);
      var busy := if b.sink.busy == b then null else b.sink.busy;
      if b.sink.detachingBuffer == b {
        SetSink(b.sink, busy, null);
      } else {
        SetSink(b.sink, busy, b.sink.detachingBuffer);
      }
      SetBuffer(b, b.flow, null, false);
    }

    method BufferScheduleDetach(b: Buffer)
      requires Tied() && b in buffers && b.sink != null && b.sink in sinks
      requires b.sink.busy == b
      requires b.sink.detachingBuffer == null || b.sink.detachingBuffer == b
      requires b.sink.detachingBuffer == b ==> b.busyHandler
      modifies `buffers, `sinks, b, b.sink
      ensures Tied() && W() == ScheduleDetach(old(W()), b)
      ensures old(b.sink.detachingBuffer) == b ==> W() == old(W())
      ensures b.sink == old(b.sink) && b.sink.busy == b
    {
      hide SinksTied, BuffersTied, FlowsTied;
      Fields(b);
      if b.sink.detachingBuffer == b {
        assert buffers[b := buffers[b].(busyHandler := true)] == buffers;
        assert sinks[b.sink := sinks[b.sink].(detaching := b)] == sinks;
        return;
      }
      SetBuffer(b, b.flow, b.sink, true);
      SetSink(b.sink, b.sink.busy, b);
    }

    method BufferFinishDetach(b: Buffer)
      requires Tied() && b in buffers && b.sink != null && b.sink in sinks && b.sink.detachingBuffer == b
      requires b.sink.busy != b || b.sink.queueFreeing
      requires b.flow != null ==> b.flow in flows && (b.flow.sinkDesired != null ==> b.flow.sinkDesired in sinks)
      modifies `buffers, `sinks, `freed, b, b.sink
      ensures Tied() && W() == FinishDetach(old(W()), b)
    {
      hide SinksTied, BuffersTied, FlowsTied;
      Fields(b);
      BufferDetach(b);
      if b.flow == null {
        BufferFree(b);
      } else if b.flow.sinkDesired != null {
        BufferAttach(b, b.flow.sinkDesired);
      }
    }

    /** What FlowFree and FlowDetach do with a buffer that is in a sink. */
    method LeaveSink(b: Buffer)
      requires Tied() && b in buffers && b.sink != null && b.sink in sinks
      requires b.sink.detachingBuffer != null ==> b.sink.detachingBuffer == b.sink.busy
      requires b.sink.detachingBuffer == b ==> b.busyHandler
      modifies `buffers, `sinks, b, b.sink
      ensures Tied() && old(b.sink in sinks && b in buffers && W().buffers[b].sink == b.sink)
      ensures W() == if IsBusy(old(W()), b) then ScheduleDetach(old(W()), b) else DetachBuffer(old(W()), b)
    {
      hide SinksTied, BuffersTied, FlowsTied;
      Fields(b);
      if b.sink.busy == b {
        BufferScheduleDetach(b);
      } else {
        BufferDetach(b);
      }
    }

    /** The busy handler of the queue flow of the buffer is unset and called, if it is set. */
    method CallBusyHandler(b: Buffer)
      requires Tied() && b in buffers
      requires b.busyHandler ==> b.sink != null && b.sink in sinks && b.sink.detachingBuffer == b
      requires b.busyHandler ==> b.sink.busy != b || b.sink.queueFreeing
      requires b.flow != null ==> b.flow in flows && (b.flow.sinkDesired != null ==> b.flow.sinkDesired in sinks)
      modifies `buffers, `sinks, `freed, b, b.sink
      ensures Tied()
      ensures old(b.busyHandler) ==> old(b.sink in sinks && W().buffers[b].sink == b.sink)
      ensures W() == if old(b.busyHandler) then FinishDetach(PutBuffer(old(W()), b, old(W()).buffers[b].(busyHandler := false)), b) else old(W())
    {
      hide SinksTied, BuffersTied, FlowsTied;
      Fields(b);
      if b.busyHandler {
        SetBuffer(b, b.flow, b.sink, false);
        BufferFinishDetach(b);
      }
    }

    // ---------------------------------------------------------------- sinks and flows

    method SinkInitialize(s: Sink)
      requires Valid() && Enabled(W(), SinkInit(s))
      modifies `sinks, s
      ensures W() == Step(old(W()), SinkInit(s))
      ensures Valid()
    {
      hide Inv, BuffersTied, FlowsTied;
      StepInv(W(), SinkInit(s));
      s.busy, s.detachingBuffer, s.queueFreeing := null, null, false;
      sinks := sinks[s := SinkState(null, null)];
    }

    method SinkRelease(s: Sink)
      requires Valid() && Enabled(W(), SinkFree(s))
      modifies `buffers, `sinks, `freed, sinks.Keys, buffers.Keys
      ensures W() == Step(old(W()), SinkFree(s))
      ensures Valid()
    {
      hide Inv, FlowsTied;
      StepInv(W(), SinkFree(s));
      SinkToRelease(W(), s);
      s.queueFreeing := true;
      if s.detachingBuffer != null {
        var b := s.detachingBuffer;
        Fields(b);
        assert b.flow == null || b.flow.sinkDesired != s;
        BufferFinishDetach(b);
      }
      sinks := sinks - {s};
    }

    method FlowInitialize(f: Flow)
      requires Valid() && f !in flows
      modifies `buffers, `flows, f
      ensures Valid() && f.b != null && fresh(f.b) && Enabled(old(W()), FlowInit(f, f.b)) && W() == Step(old(W()), FlowInit(f, f.b))
    {
      hide Inv, SinksTied;
      var b := new Buffer(f);
      StepInv(W(), FlowInit(f, b));
      f.sinkDesired := null;
      f.b := b;
      buffers := buffers[b := BufferState(f, null, false)];
      flows := flows[f := FlowState(null, b)];
    }

    method FlowRelease(f: Flow)
      requires Valid() && Enabled(W(), FlowFree(f))
      modifies `buffers, `sinks, `flows, `freed, sinks.Keys, buffers.Keys
      ensures W() == Step(old(W()), FlowFree(f))
      ensures Valid()
    {
      hide Inv, SinksTied, BuffersTied;
      StepInv(W(), FlowFree(f));
      BufferOfFlow(W(), f);
      FlowFields(f);
      var b := f.b;
      Fields(b);
      if b.sink != null {
        if b.sink.busy == b {
          BufferScheduleDetach(b);
          SetBuffer(b, null, b.sink, true);
        } else {
          // a buffer in a sink that no flow wants is always busy
          assert false;
        }
      } else {
        BufferFree(b);
      }
      flows := flows - {f};
    }

    method FlowAttach(f: Flow, sink: Sink)
      requires Valid() && Enabled(W(), Attach(f, sink))
      modifies `buffers, `sinks, `flows, f, sinks.Keys, buffers.Keys
      ensures W() == Step(old(W()), Attach(f, sink))
      ensures Valid()
    {
      hide Inv, SinksTied, BuffersTied, FlowsTied, FinishDetach, AttachBuffer, DetachBuffer;
      StepInv(W(), Attach(f, sink));
      BufferOfFlow(W(), f);
      FlowFields(f);
      var b := f.b;
      Fields(b);
      if b.sink != null {
        if b.sink.busy == b {
          BufferScheduleDetach(b);
        } else {
          // as in FlowRelease: the buffer never has to move at once
          assert false;
        }
      } else {
        BufferAttach(b, sink);
      }
      SetDesired(f, sink);
    }

    method FlowDetach(f: Flow)
      requires Valid() && Enabled(W(), Detach(f))
      modifies `buffers, `sinks, `flows, f, sinks.Keys, buffers.Keys
      ensures W() == Step(old(W()), Detach(f))
      ensures Valid()
    {
      hide Inv, SinksTied, BuffersTied, FlowsTied, FinishDetach, AttachBuffer, DetachBuffer;
      StepInv(W(), Detach(f));
      BufferOfFlow(W(), f);
      FlowFields(f);
      var b := f.b;
      Fields(b);
      LeaveSink(b);
      SetDesired(f, null);
    }

    /** The queue of the sink takes a packet of the buffer. */
    method QueueStarts(s: Sink, b: Buffer)
      requires Valid() && Enabled(W(), Starts(s, b))
      modifies `sinks, s
      ensures W() == Step(old(W()), Starts(s, b))
      ensures Valid()
    {
      hide Inv, SinksTied, BuffersTied, FlowsTied, FinishDetach, AttachBuffer, DetachBuffer;
      StepInv(W(), Starts(s, b));
      SinkFields(s);
      SetSink(s, b, s.detachingBuffer);
    }

    /** The output is done with the packet, and the busy handler is called if it is set. */
    method QueueDone(s: Sink)
      requires Valid() && Enabled(W(), Done(s))
      modifies `buffers, `sinks, `freed, sinks.Keys, buffers.Keys
      ensures W() == Step(old(W()), Done(s))
      ensures Valid()
    {
      hide Inv, SinksTied, BuffersTied, FlowsTied, FinishDetach, AttachBuffer, DetachBuffer;
      StepInv(W(), Done(s));
      DoneBuffer(W(), s);
      SinkFields(s);
      var b := s.busy;
      Fields(b);
      SetSink(s, null, s.detachingBuffer);
      CallBusyHandler(b);
    }

    // ---------------------------------------------------------------- runs

    /** The handlers one after the other, for flows and sinks that have been made. */
    method HandleAll(es: seq<Event>)
      requires Valid() && AllEnabled(W(), es) && MakesNone(es)
      modifies this, sinks.Keys, buffers.Keys, flows.Keys
      ensures Valid() && old(Inv(W()) && AllEnabled(W(), es)) && W() == Run(old(W()), es)
      decreases |es|
    {
      hide Inv, Tied, Step, Enabled;
      if es != [] {
        Invariant();
        StepInv(W(), es[0]);
        StepKeys(W(), es[0]);
        Handle(es[0]);
        HandleAll(es[1..]);
      }
    }

    lemma Invariant()
      requires Valid()
      ensures Inv(W())
    {
    }

    method Handle(e: Event)
      requires Valid() && Enabled(W(), e) && !e.SinkInit? && !e.FlowInit?
      modifies this, sinks.Keys, buffers.Keys, flows.Keys
      ensures Valid() && W() == Step(old(W()), e)
    {
      hide Inv, Tied, Step;
      match e
      case SinkFree(s) => SinkRelease(s);
      case FlowFree(f) => FlowRelease(f);
      case Attach(f, s) => FlowAttach(f, s);
      case Detach(f) => FlowDetach(f);
      case Starts(s, b) => QueueStarts(s, b);
      case Done(s) => QueueDone(s);
    }
  }

  predicate MakesNone(es: seq<Event>) {
    forall i :: 0 <= i < |es| ==> !es[i].SinkInit? && !es[i].FlowInit?
  }

  lemma StepKeys(w: World, e: Event)
    requires Inv(w) && Enabled(w, e) && !e.SinkInit? && !e.FlowInit?
    ensures var r := Step(w, e); r.sinks.Keys <= w.sinks.Keys && r.buffers.Keys <= w.buffers.Keys && r.flows.Keys <= w.flows.Keys
  {
    Relevant(w, e);
    if e.SinkFree? || e.Done? {
      assert SinkOk(w, e.s);
    }
  }

  lemma BufferOfFlow(w: World, f: Flow)
    requires Inv(w) && f in w.flows
    ensures FlowOk(w, f) && BufferOk(w, w.flows[f].b)
    ensures w.buffers[w.flows[f].b].sink != null ==> SinkOk(w, w.buffers[w.flows[f].b].sink)
  {
    assert FlowOk(w, f);
    assert BufferOk(w, w.flows[f].b);
  }

  lemma SinkToRelease(w: World, s: Sink)
    requires Inv(w) && Enabled(w, SinkFree(s))
    ensures SinkOk(w, s) && (w.sinks[s].busy != null ==> BufferOk(w, w.sinks[s].busy))
    ensures w.sinks[s].detaching != null && w.buffers[w.sinks[s].busy].flow != null ==> FlowOk(w, w.buffers[w.sinks[s].busy].flow)
  {
    assert SinkOk(w, s);
  }

  lemma DoneBuffer(w: World, s: Sink)
    requires Inv(w) && Enabled(w, Done(s))
    ensures SinkOk(w, s) && BufferOk(w, w.sinks[s].busy)
    ensures w.buffers[w.sinks[s].busy].flow != null ==> FlowOk(w, w.buffers[w.sinks[s].busy].flow)
  {
    assert SinkOk(w, s);
    assert BufferOk(w, w.sinks[s].busy);
  }
}
