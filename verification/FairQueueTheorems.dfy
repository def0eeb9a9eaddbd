/**
 * What the fair queue is for: its handling of time overflow does not change what it does, and
 * backlogged flows share the output.
 */
module FairQueueTheorems {
  import opened Bytes
  import opened Counting
  import opened FairQueueModel
  import opened Lists

  // ---------------------------------------------------------------- overflow refinement

  /** How a time of the queue stands to the time of the same flow without overflow, k having been subtracted. */
  predicate Tracks(time: nat, unbounded: nat, k: nat, active: bool) {
    unbounded == time + k || (!active && time == 0 && unbounded <= k)
  }

  predicate SameShape(b: Queue, u: Queue) {
    && b.queued == u.queued && b.lens == u.lens && b.sending == u.sending && b.sendingLen == u.sendingLen
    && b.previous == u.previous && b.job == u.job
  }

  ghost predicate Refines(b: Queue, u: Queue, k: nat) {
    && SameShape(b, u) && b.times.Keys == u.times.Keys
    && forall f :: f in b.times ==> Tracks(b.times[f], u.times[f], k, Active(b, f))
  }

  lemma {:induction false} SameInsert(tb: map<Flow, nat>, tu: map<Flow, nat>, queued: seq<Flow>, f: Flow, k: nat)
    requires f in tb && f in tu && Known(tb, queued) && Known(tu, queued)
    requires tu[f] == tb[f] + k && forall i :: 0 <= i < |queued| ==> tu[queued[i]] == tb[queued[i]] + k
    ensures Insert(tb, queued, f) == Insert(tu, queued, f)
  {
    if queued != [] {
      SameInsert(tb, tu, queued[1..], f, k);
    }
  }

  lemma QueuedTracks(b: Queue, u: Queue, k: nat)
    requires Shaped(b) && Refines(b, u, k)
    ensures Known(u.times, b.queued)
    ensures forall i :: 0 <= i < |b.queued| ==> u.times[b.queued[i]] == b.times[b.queued[i]] + k
  {
    forall i | 0 <= i < |b.queued| ensures b.queued[i] in u.times && u.times[b.queued[i]] == b.times[b.queued[i]] + k {
      assert b.queued[i] in b.queued;
      assert Active(b, b.queued[i]);
    }
  }

  /** The current times differ by what has been subtracted, unless the queue is idle. */
  lemma SameCurrentTime(b: Queue, u: Queue, k: nat)
    requires Shaped(b) && Shaped(u) && Refines(b, u, k)
    ensures Busy(b) ==> CurrentTime(u) == CurrentTime(b) + k
    ensures !Busy(b) ==> CurrentTime(u) == CurrentTime(b) == 0
  {
    QueuedTracks(b, u, k);
    if b.sending.Some? { assert Active(b, b.sending.value); }
    if b.previous.Some? { assert Active(b, b.previous.value); }
  }

  /** A flow that sends to an idle queue, which does not raise its time, is as far behind as the others. */
  predicate KeepsTime(b: Queue, u: Queue, k: nat, e: Event) {
    e.Send? && !Busy(b) ==> e.f in b.times && e.f in u.times && u.times[e.f] == b.times[e.f] + k
  }

  lemma RaisedTracks(c: Config, b: Queue, u: Queue, k: nat, f: Flow, len: nat)
    requires InvUnbounded(c, b) && InvUnbounded(c, u) && Refines(b, u, k) && Enabled(c, b, Send(f, len))
    requires KeepsTime(b, u, k, Send(f, len))
    ensures f in u.times && RaisedTime(u, f) == RaisedTime(b, f) + k
  {
    hide Sorted, CurrentTime;
    SameCurrentTime(b, u, k);
    if b.previous == Some(f) { assert Active(b, f); }
  }

  lemma EnqueueRefines(c: Config, b: Queue, u: Queue, k: nat, f: Flow, len: nat)
    requires InvUnbounded(c, b) && InvUnbounded(c, u) && Refines(b, u, k) && Enabled(c, b, Send(f, len))
    requires KeepsTime(b, u, k, Send(f, len))
    ensures Refines(Enqueue(b, f, len), Enqueue(u, f, len), k)
  {
    hide Insert, Sorted, CurrentTime, RaisedTime, KeepsTime;
    RaisedTracks(c, b, u, k, f, len);
    QueuedTracks(b, u, k);
    var tb, tu := b.times[f := RaisedTime(b, f)], u.times[f := RaisedTime(u, f)];
    assert forall i :: 0 <= i < |b.queued| ==> b.queued[i] in b.queued;
    SameInsert(tb, tu, b.queued, f, k);
    EnqueueInv(c, b, f, len);
    var r := Enqueue(b, f, len);
    forall g | g in r.times ensures Tracks(r.times[g], tu[g], k, Active(r, g)) {
      if g != f { assert Active(r, g) == Active(b, g); }
    }
  }

  lemma ScheduleRefines(b: Queue, u: Queue, k: nat)
    requires Refines(b, u, k) && b.queued != [] && b.queued[0] in b.lens && b.sending.None?
    ensures Refines(Schedule(b), Schedule(u), k)
  {
    var r := Schedule(b);
    forall g | g in r.times ensures Tracks(r.times[g], u.times[g], k, Active(r, g)) {
      assert b.queued == [b.queued[0]] + b.queued[1..];
      assert Active(r, g) ==> Active(b, g);
    }
  }

  lemma DoneRefines(c: Config, b: Queue, u: Queue, k: nat)
    requires c.Valid() && Inv(c, b) && InvUnbounded(c, u) && Refines(b, u, k) && b.sending.Some?
    ensures Refines(Step(c, b, Done), StepUnbounded(c, u, Done), k + ShiftOf(c, b))
  {
    hide Incremented, ShiftOf;
    IncrementedIs(c, b);
    var f, s := b.sending.value, ShiftOf(c, b);
    var r, w := Step(c, b, Done), StepUnbounded(c, u, Done);
    assert Active(b, f);
    forall g | g in r.times ensures Tracks(r.times[g], w.times[g], k + s, Active(r, g)) {
      if g != f && g in b.queued {
        var i :| 0 <= i < |b.queued| && b.queued[i] == g;
        assert s <= b.times[b.queued[i]];
      }
    }
  }

  /** What has been subtracted after the event. */
  function NextShift(c: Config, b: Queue, k: nat, e: Event): nat
    requires Inv(c, b) && Enabled(c, b, e)
  {
    if e.Done? then k + ShiftOf(c, b) else k
  }

  lemma FreeRefines(c: Config, b: Queue, u: Queue, k: nat, f: Flow)
    requires InvUnbounded(c, b) && InvUnbounded(c, u) && Refines(b, u, k) && Enabled(c, b, Free(f))
    ensures Refines(Next(b, Free(f), b.times), Next(u, Free(f), u.times), k)
  {
    WithoutSorted(b.times, b.queued, f);
  }

  lemma JobRefines(c: Config, b: Queue, u: Queue, k: nat)
    requires InvUnbounded(c, b) && InvUnbounded(c, u) && Refines(b, u, k) && Enabled(c, b, Job)
    ensures Refines(Next(b, Job, b.times), Next(u, Job, u.times), k)
  {
    var rb, ru := b.(previous := None, job := false), u.(previous := None, job := false);
    assert Refines(rb, ru, k);
    if b.queued != [] { ScheduleRefines(rb, ru, k); }
  }

  lemma EventRefines(c: Config, b: Queue, u: Queue, k: nat, e: Event)
    requires c.Valid() && Inv(c, b) && InvUnbounded(c, u) && Refines(b, u, k) && Enabled(c, b, e)
    requires KeepsTime(b, u, k, e)
    ensures Enabled(c, u, e)
    ensures Refines(Step(c, b, e), StepUnbounded(c, u, e), NextShift(c, b, k, e))
  {
    hide Insert;
    match e
    case Init(f) =>
    case Free(f) => FreeRefines(c, b, u, k, f);
    case Send(f, len) =>
      hide Enqueue;
      EnqueueRefines(c, b, u, k, f, len);
      EnqueueInv(c, b, f, len);
      var r := Enqueue(b, f, len);
      SendRefines(b, u, k, f, len);
    case Done => DoneRefines(c, b, u, k);
    case Job => JobRefines(c, b, u, k);
  }

  // ---------------------------------------------------------------- which flows are off

  /**
   * The flows whose times are off after the event, as the queue itself shows it: those made after
   * times have been subtracted, which start at 0 all the same, and those that had less time than was
   * subtracted. A flow that sends while the queue is busy is raised to the others and is off no more.
   */
  function NextOff(c: Config, b: Queue, k: nat, off: set<Flow>, e: Event): set<Flow>
    requires Inv(c, b) && Enabled(c, b, e)
  {
    match e
    case Init(f) => if k > 0 then off + {f} else off
    case Free(f) => off - {f}
    case Send(f, _) => if Busy(b) then off - {f} else off
    case Done => off + set g | g in b.times && g != b.sending.value && b.times[g] < ShiftOf(c, b)
    case Job => off
  }

  /** These are the flows that are not k behind their unbounded times. */
  ghost predicate OffAre(b: Queue, u: Queue, k: nat, off: set<Flow>)
    requires b.times.Keys == u.times.Keys
  {
    off <= b.times.Keys && forall f :: f in b.times ==> (f in off <==> u.times[f] != b.times[f] + k)
  }

  /** A flow that is off does not send to the idle queue. */
  predicate Joins(b: Queue, off: set<Flow>, e: Event) {
    e.Send? && !Busy(b) ==> e.f !in off
  }

  lemma JoinsKeeps(c: Config, b: Queue, u: Queue, k: nat, off: set<Flow>, e: Event)
    requires Refines(b, u, k) && Enabled(c, b, e) && OffAre(b, u, k, off) && Joins(b, off, e)
    ensures KeepsTime(b, u, k, e)
  {
  }

  lemma DoneOff(c: Config, b: Queue, u: Queue, k: nat, off: set<Flow>)
    requires c.Valid() && Inv(c, b) && InvUnbounded(c, u) && Refines(b, u, k) && b.sending.Some? && OffAre(b, u, k, off)
    ensures var r, w := Step(c, b, Done), StepUnbounded(c, u, Done);
      r.times.Keys == w.times.Keys && OffAre(r, w, k + ShiftOf(c, b), NextOff(c, b, k, off, Done))
  {
    hide Incremented, ShiftOf, Sorted;
    IncrementedIs(c, b);
    assert Active(b, b.sending.value);
  }

  lemma SendOff(c: Config, b: Queue, u: Queue, k: nat, off: set<Flow>, f: Flow, len: nat)
    requires c.Valid() && Inv(c, b) && InvUnbounded(c, u) && Refines(b, u, k) && Enabled(c, b, Send(f, len))
    requires OffAre(b, u, k, off) && Joins(b, off, Send(f, len))
    ensures Enabled(c, u, Send(f, len))
    ensures var r, w := Step(c, b, Send(f, len)), StepUnbounded(c, u, Send(f, len));
      r.times.Keys == w.times.Keys && OffAre(r, w, k, NextOff(c, b, k, off, Send(f, len)))
  {
    hide RaisedTime, Insert, Sorted, Next;
    SendTimes(c, b, f, len);
    SendTimes(c, u, f, len);
    JoinsKeeps(c, b, u, k, off, Send(f, len));
    RaisedTracks(c, b, u, k, f, len);
  }

  lemma SendTimes(c: Config, q: Queue, f: Flow, len: nat)
    requires InvUnbounded(c, q) && Enabled(c, q, Send(f, len))
    ensures Next(q, Send(f, len), q.times).times == q.times[f := RaisedTime(q, f)]
  {
    hide RaisedTime, Insert, Sorted;
    EnqueueInv(c, q, f, len);
  }

  lemma OtherOff(c: Config, b: Queue, u: Queue, k: nat, off: set<Flow>, e: Event)
    requires c.Valid() && Inv(c, b) && InvUnbounded(c, u) && Refines(b, u, k) && Enabled(c, b, e)
    requires OffAre(b, u, k, off) && (e.Init? || e.Free? || e.Job?)
    ensures Enabled(c, u, e)
    ensures var r, w := Step(c, b, e), StepUnbounded(c, u, e);
      r.times.Keys == w.times.Keys && OffAre(r, w, k, NextOff(c, b, k, off, e))
  {
    hide Sorted, Without;
  }

  /** Every event is the same event of the unbounded queue, and it is known which flows are off then. */
  lemma StepRefines(c: Config, b: Queue, u: Queue, k: nat, off: set<Flow>, e: Event)
    requires c.Valid() && Inv(c, b) && InvUnbounded(c, u) && Refines(b, u, k) && Enabled(c, b, e)
    requires OffAre(b, u, k, off) && Joins(b, off, e)
    ensures Enabled(c, u, e)
    ensures Refines(Step(c, b, e), StepUnbounded(c, u, e), NextShift(c, b, k, e))
    ensures OffAre(Step(c, b, e), StepUnbounded(c, u, e), NextShift(c, b, k, e), NextOff(c, b, k, off, e))
  {
    hide Inv, InvUnbounded, Refines, Step, StepUnbounded, NextOff, OffAre, ShiftOf;
    JoinsKeeps(c, b, u, k, off, e);
    EventRefines(c, b, u, k, e);
    if e.Send? {
      SendOff(c, b, u, k, off, e.f, e.len);
    } else if e.Done? {
      DoneOff(c, b, u, k, off);
    } else {
      OtherOff(c, b, u, k, off, e);
    }
  }

  /** After a flow has sent to an idle queue, the two are in step exactly if it was not off. */
  lemma IdleSendExactly(c: Config, b: Queue, u: Queue, k: nat, off: set<Flow>, f: Flow, len: nat)
    requires c.Valid() && Inv(c, b) && InvUnbounded(c, u) && Refines(b, u, k) && Enabled(c, b, Send(f, len))
    requires OffAre(b, u, k, off) && !Busy(b)
    ensures Enabled(c, u, Send(f, len))
    ensures Refines(Step(c, b, Send(f, len)), StepUnbounded(c, u, Send(f, len)), k) <==> f !in off
    ensures b.times[f] > 0 || k == 0 ==> f !in off
  {
    if f !in off {
      EventRefines(c, b, u, k, Send(f, len));
    } else {
      IdleSendTime(c, b, f, len);
      IdleSendTime(c, u, f, len);
    }
  }

  lemma IdleSendTime(c: Config, q: Queue, f: Flow, len: nat)
    requires InvUnbounded(c, q) && Enabled(c, q, Send(f, len)) && !Busy(q)
    ensures var r := Next(q, Send(f, len), q.times); f in r.times && r.times[f] == q.times[f] && (Active(r, f) || q.job)
    ensures var r := Next(q, Send(f, len), q.times); Active(r, f)
  {
    EnqueueInv(c, q, f, len);
    assert Insert(q.times[f := RaisedTime(q, f)], [], f) == [f];
  }

  lemma SendRefines(b: Queue, u: Queue, k: nat, f: Flow, len: nat)
    requires Shaped(b) && Shaped(u) && f in b.times && f in u.times
    requires Refines(Enqueue(b, f, len), Enqueue(u, f, len), k)
    requires Enqueue(b, f, len).queued[0] in Enqueue(b, f, len).lens
    ensures Refines(Next(b, Send(f, len), b.times), Next(u, Send(f, len), u.times), k)
  {
    var rb, ru := Enqueue(b, f, len), Enqueue(u, f, len);
    hide Enqueue;
    if rb.sending.None? && !rb.job {
      ScheduleRefines(rb, ru, k);
    }
  }

  // ---------------------------------------------------------------- runs

  ghost predicate ValidRun(c: Config, q: Queue, events: seq<Event>)
    requires c.Valid() && Inv(c, q)
    decreases |events|
  {
    events == [] ||
    (Enabled(c, q, events[0]) && (StepInv(c, q, events[0]); ValidRun(c, Step(c, q, events[0]), events[1..])))
  }

  ghost function Run(c: Config, q: Queue, events: seq<Event>): (r: Queue)
    requires c.Valid() && Inv(c, q) && ValidRun(c, q, events)
    ensures Inv(c, r)
    decreases |events|
  {
    if events == [] then q else
    StepInv(c, q, events[0]);
    Run(c, Step(c, q, events[0]), events[1..])
  }

  ghost predicate ValidRunUnbounded(c: Config, q: Queue, events: seq<Event>)
    requires c.Valid() && InvUnbounded(c, q)
    decreases |events|
  {
    events == [] ||
    (Enabled(c, q, events[0]) &&
     (StepUnboundedInv(c, q, events[0]); ValidRunUnbounded(c, StepUnbounded(c, q, events[0]), events[1..])))
  }

  ghost function RunUnbounded(c: Config, q: Queue, events: seq<Event>): (r: Queue)
    requires c.Valid() && InvUnbounded(c, q) && ValidRunUnbounded(c, q, events)
    ensures InvUnbounded(c, r)
    decreases |events|
  {
    if events == [] then q else
    StepUnboundedInv(c, q, events[0]);
    RunUnbounded(c, StepUnbounded(c, q, events[0]), events[1..])
  }

  /** The two queues are in step after every event, the one with bounded times being behind by what was subtracted. */
  ghost predicate InStep(c: Config, b: Queue, u: Queue, k: nat, events: seq<Event>)
    requires c.Valid() && Inv(c, b) && InvUnbounded(c, u) && ValidRun(c, b, events)
    decreases |events|
  {
    && Refines(b, u, k)
    && (events == [] ||
        (&& Enabled(c, u, events[0])
         && (StepInv(c, b, events[0]); StepUnboundedInv(c, u, events[0]);
             InStep(c, Step(c, b, events[0]), StepUnbounded(c, u, events[0]), NextShift(c, b, k, events[0]), events[1..]))))
  }

  /** No flow that is off sends to the queue while it is idle. */
  ghost predicate NoneOff(c: Config, b: Queue, k: nat, off: set<Flow>, events: seq<Event>)
    requires c.Valid() && Inv(c, b) && ValidRun(c, b, events)
    decreases |events|
  {
    events == [] ||
    (Joins(b, off, events[0]) &&
     (StepInv(c, b, events[0]);
      NoneOff(c, Step(c, b, events[0]), NextShift(c, b, k, events[0]), NextOff(c, b, k, off, events[0]), events[1..])))
  }

  /**
   * In any run, the queue stays in step with one that has unbounded times if and only if no flow
   * sends to it while it is idle whose time is off, because the flow was made after a subtraction or
   * had less time than was subtracted, and has not sent to the busy queue since.
   */
  lemma {:induction false} InStepExactly(c: Config, b: Queue, u: Queue, k: nat, off: set<Flow>, events: seq<Event>)
    requires c.Valid() && Inv(c, b) && InvUnbounded(c, u) && ValidRun(c, b, events) && Refines(b, u, k) && OffAre(b, u, k, off)
    ensures InStep(c, b, u, k, events) <==> NoneOff(c, b, k, off, events)
    decreases |events|
  {
    if events != [] {
      var e := events[0];
      if Joins(b, off, e) {
        hide Inv, InvUnbounded, Step, StepUnbounded, Enabled, Busy, Refines, Joins, OffAre, NextOff;
        StepRefines(c, b, u, k, off, e);
        StepInv(c, b, e);
        StepUnboundedInv(c, u, e);
        InStepExactly(c, Step(c, b, e), StepUnbounded(c, u, e), NextShift(c, b, k, e), NextOff(c, b, k, off, e), events[1..]);
      } else {
        IdleSendExactly(c, b, u, k, off, e.f, e.len);
      }
    }
  }

  /** No time was cut off of a new flow, and yet it is out of step if it comes after a subtraction and sends to the idle queue. */
  lemma NewFlowIsOff(c: Config, b: Queue, u: Queue, k: nat, f: Flow, len: nat)
    requires c.Valid() && Inv(c, b) && InvUnbounded(c, u) && Refines(b, u, k)
    requires k > 0 && !Busy(b) && f !in b.times && len <= c.mtu
    ensures ValidRun(c, b, [Init(f), Send(f, len)]) && !InStep(c, b, u, k, [Init(f), Send(f, len)])
  {
    hide Refines, OffAre, Inv, InvUnbounded, NextOff, NoneOff;
    var off := set g | g in b.times && g in u.times && u.times[g] != b.times[g] + k;
    OffFrom(b, u, k, off);
    StepInv(c, b, Init(f));
    NewFlow(c, b, k, off, f, len);
    var es := [Init(f), Send(f, len)];
    TwoEvents(c, b, Init(f), Send(f, len));
    NotJoined(c, b, k, off, es);
    InStepExactly(c, b, u, k, off, es);
  }

  lemma OffFrom(b: Queue, u: Queue, k: nat, off: set<Flow>)
    requires Refines(b, u, k) && off == set g | g in b.times && g in u.times && u.times[g] != b.times[g] + k
    ensures b.times.Keys == u.times.Keys && OffAre(b, u, k, off)
  {
  }

  lemma NewFlow(c: Config, b: Queue, k: nat, off: set<Flow>, f: Flow, len: nat)
    requires c.Valid() && Inv(c, b) && k > 0 && !Busy(b) && f !in b.times && len <= c.mtu
    ensures Enabled(c, b, Init(f))
    ensures var r := Step(c, b, Init(f)); Enabled(c, r, Send(f, len)) && !Joins(r, NextOff(c, b, k, off, Init(f)), Send(f, len))
  {
  }

  lemma TwoEvents(c: Config, b: Queue, e: Event, d: Event)
    requires c.Valid() && Inv(c, b) && Enabled(c, b, e) && Enabled(c, Step(c, b, e), d)
    ensures ValidRun(c, b, [e, d])
  {
    hide Inv, Step, Enabled;
    StepInv(c, b, e);
    var r := Step(c, b, e);
    StepInv(c, r, d);
    assert [d][1..] == [];
    assert ValidRun(c, Step(c, r, d), []);
    assert ValidRun(c, r, [d]);
    assert [e, d][1..] == [d];
  }

  lemma NotJoined(c: Config, b: Queue, k: nat, off: set<Flow>, es: seq<Event>)
    requires c.Valid() && Inv(c, b) && |es| == 2 && ValidRun(c, b, es)
    requires Inv(c, Step(c, b, es[0])) && !Joins(Step(c, b, es[0]), NextOff(c, b, k, off, es[0]), es[1])
    ensures !NoneOff(c, b, k, off, es)
  {
    hide Inv, Step, Joins, NextOff, Enabled;
    assert es[1..][0] == es[1];
  }

  lemma {:induction false} RunRefines(c: Config, b: Queue, u: Queue, k: nat, off: set<Flow>, events: seq<Event>)
    requires c.Valid() && Inv(c, b) && InvUnbounded(c, u) && Refines(b, u, k) && OffAre(b, u, k, off)
    requires ValidRun(c, b, events) && NoneOff(c, b, k, off, events)
    ensures ValidRunUnbounded(c, u, events) && SameShape(Run(c, b, events), RunUnbounded(c, u, events))
    decreases |events|
  {
    hide Inv, InvUnbounded, Step, StepUnbounded, Enabled, Busy, Refines, OffAre, NextOff, Joins;
    RefinesShape(b, u, k);
    if events != [] {
      var e := events[0];
      StepRefines(c, b, u, k, off, e);
      StepInv(c, b, e);
      StepUnboundedInv(c, u, e);
      RunRefines(c, Step(c, b, e), StepUnbounded(c, u, e), NextShift(c, b, k, e), NextOff(c, b, k, off, e), events[1..]);
    }
  }

  lemma RefinesShape(b: Queue, u: Queue, k: nat)
    requires Refines(b, u, k)
    ensures SameShape(b, u)
  {
  }

  lemma RefinesItself(q: Queue)
    ensures Refines(q, q, 0) && OffAre(q, q, 0, {})
  {
  }

  /**
   * However often times overflow, the queue sends and queues the same flows in the same order as a
   * queue whose times are unbounded, as long as no flow that is off sends to it while it is idle.
   */
  lemma OverflowIsInvisible(c: Config, q: Queue, events: seq<Event>)
    requires c.Valid() && Inv(c, q) && ValidRun(c, q, events) && NoneOff(c, q, 0, {}, events)
    ensures ValidRunUnbounded(c, q, events)
    ensures SameShape(Run(c, q, events), RunUnbounded(c, q, events))
  {
    RefinesItself(q);
    RunRefines(c, q, q, 0, {}, events);
  }

  /** Nothing has been subtracted yet or the flow has time left, whenever a flow sends to the idle queue. */
  ghost predicate TimeLeft(c: Config, q: Queue, k: nat, events: seq<Event>)
    requires c.Valid() && Inv(c, q) && ValidRun(c, q, events)
    decreases |events|
  {
    events == [] ||
    ((events[0].Send? ==> Busy(q) || k == 0 || q.times[events[0].f] > 0) &&
     (StepInv(c, q, events[0]);
      TimeLeft(c, Step(c, q, events[0]), NextShift(c, q, k, events[0]), events[1..])))
  }

  /** A flow that has time left is not off. */
  lemma {:induction false} TimeLeftIsEnough(c: Config, b: Queue, u: Queue, k: nat, off: set<Flow>, events: seq<Event>)
    requires c.Valid() && Inv(c, b) && InvUnbounded(c, u) && ValidRun(c, b, events) && Refines(b, u, k) && OffAre(b, u, k, off)
    requires TimeLeft(c, b, k, events)
    ensures NoneOff(c, b, k, off, events)
    decreases |events|
  {
    hide Inv, InvUnbounded, Step, StepUnbounded, Enabled, Refines, Joins, OffAre, NextOff;
    if events != [] {
      var e := events[0];
      TimeLeftJoins(c, b, u, k, off, e);
      StepRefines(c, b, u, k, off, e);
      StepInv(c, b, e);
      StepUnboundedInv(c, u, e);
      TimeLeftIsEnough(c, Step(c, b, e), StepUnbounded(c, u, e), NextShift(c, b, k, e), NextOff(c, b, k, off, e), events[1..]);
    }
  }

  lemma TimeLeftJoins(c: Config, b: Queue, u: Queue, k: nat, off: set<Flow>, e: Event)
    requires Refines(b, u, k) && OffAre(b, u, k, off) && Enabled(c, b, e)
    requires e.Send? ==> Busy(b) || k == 0 || b.times[e.f] > 0
    ensures Joins(b, off, e)
  {
  }

  // ---------------------------------------------------------------- fairness

  /** Both flows have a packet queued, on the output, or sent the last one and have not missed their turn. */
  ghost predicate Backlogged(c: Config, q: Queue, events: seq<Event>, f: Flow, g: Flow)
    requires c.Valid() && Inv(c, q) && ValidRun(c, q, events)
    decreases |events|
  {
    && Active(q, f) && Active(q, g)
    && (events == [] || (StepInv(c, q, events[0]); Backlogged(c, Step(c, q, events[0]), events[1..], f, g)))
  }

  function Spread(q: Queue, f: Flow, g: Flow): nat
    requires f in q.times && g in q.times
  {
    if q.times[f] < q.times[g] then q.times[g] - q.times[f] else q.times[f] - q.times[g]
  }

  lemma ActiveKnown(q: Queue, f: Flow)
    requires Shaped(q) && Active(q, f)
    ensures f in q.times
  {
  }

  /** Only the end of its own packet changes the time of a backlogged flow. */
  lemma TimeKept(c: Config, q: Queue, e: Event, f: Flow)
    requires c.Valid() && Inv(c, q) && Enabled(c, q, e) && !e.Done?
    requires Active(q, f) && Active(Step(c, q, e), f)
    ensures f in q.times && f in Step(c, q, e).times && Step(c, q, e).times[f] == q.times[f]
  {
    ActiveKnown(q, f);
    match e
    case Init(g) =>
    case Free(g) => WithoutSorted(q.times, q.queued, g);
    case Send(g, len) => hide Insert;
    case Job =>
  }

  lemma QueuedNotBelow(c: Config, q: Queue, f: Flow)
    requires c.Valid() && Inv(c, q) && q.sending.Some? && f in q.queued
    ensures f in q.times && ShiftOf(c, q) <= q.times[f] && q.times[q.sending.value] <= q.times[f]
    ensures f != q.sending.value
  {
    hide ShiftOf, Incremented;
    IncrementedIs(c, q);
    var i :| 0 <= i < |q.queued| && q.queued[i] == f;
    assert ShiftOf(c, q) <= q.times[q.queued[i]];
  }

  lemma SpreadStep(c: Config, q: Queue, e: Event, f: Flow, g: Flow)
    requires c.Valid() && Inv(c, q) && Enabled(c, q, e) && f != g
    requires Active(q, f) && Active(q, g) && Active(Step(c, q, e), f) && Active(Step(c, q, e), g)
    ensures f in q.times && g in q.times && f in Step(c, q, e).times && g in Step(c, q, e).times
    ensures Spread(Step(c, q, e), f, g) <= Max(Spread(q, f, g), c.packetWeight + c.mtu)
  {
    if e.Done? {
      hide ShiftOf, Incremented;
      IncrementedIs(c, q);
      if f in q.queued { QueuedNotBelow(c, q, f); }
      if g in q.queued { QueuedNotBelow(c, q, g); }
    } else {
      hide Step;
      TimeKept(c, q, e, f);
      TimeKept(c, q, e, g);
    }
  }

  /**
   * Fairness: the times of two backlogged flows never get further apart than the weight of one
   * largest packet, or than they were at the start.
   */
  lemma {:induction false} SpreadBounded(c: Config, q: Queue, events: seq<Event>, f: Flow, g: Flow)
    requires c.Valid() && Inv(c, q) && ValidRun(c, q, events) && f != g && Backlogged(c, q, events, f, g)
    ensures f in q.times && g in q.times && f in Run(c, q, events).times && g in Run(c, q, events).times
    ensures Spread(Run(c, q, events), f, g) <= Max(Spread(q, f, g), c.packetWeight + c.mtu)
    decreases |events|
  {
    ActiveKnown(q, f);
    ActiveKnown(q, g);
    if events != [] {
      hide Inv, Step, Enabled, Spread, Active;
      StepInv(c, q, events[0]);
      SpreadStep(c, q, events[0], f, g);
      SpreadBounded(c, Step(c, q, events[0]), events[1..], f, g);
    }
  }

  /** Flow f waits in the queue throughout, and flow g is there throughout. */
  ghost predicate Waits(c: Config, q: Queue, events: seq<Event>, f: Flow, g: Flow)
    requires c.Valid() && Inv(c, q) && ValidRun(c, q, events)
    decreases |events|
  {
    && f in q.queued && g in q.times
    && (events == [] || (StepInv(c, q, events[0]); Waits(c, Step(c, q, events[0]), events[1..], f, g)))
  }

  /** How often g's turn comes. */
  ghost function Starts(c: Config, q: Queue, events: seq<Event>, g: Flow): nat
    requires c.Valid() && Inv(c, q) && ValidRun(c, q, events)
    decreases |events|
  {
    if events == [] then 0 else
    StepInv(c, q, events[0]);
    var r := Step(c, q, events[0]);
    (if r.sending == Some(g) && q.sending != Some(g) then 1 else 0) + Starts(c, r, events[1..], g)
  }

  /** How far f's time is ahead of the least time g can be queued with next. */
  function Lead(c: Config, q: Queue, f: Flow, g: Flow): int
    requires Shaped(q) && f in q.times && g in q.times
  {
    q.times[f] - Max(q.times[g], CurrentTime(q)) - (if q.sending == Some(g) then c.packetWeight else 0)
  }

  lemma CurrentIsLeast(c: Config, q: Queue, f: Flow)
    requires InvUnbounded(c, q) && f in q.queued
    ensures f in q.times && CurrentTime(q) <= q.times[f]
  {
    var i :| 0 <= i < |q.queued| && q.queued[i] == f;
    assert i > 0 ==> Before(q.times, q.queued[0], q.queued[i]);
  }

  lemma LeadDone(c: Config, q: Queue, f: Flow, g: Flow)
    requires c.Valid() && Inv(c, q) && q.sending.Some? && f in q.queued && g in q.times && f != g
    ensures f in q.times && Shaped(Step(c, q, Done)) && f in Step(c, q, Done).times && g in Step(c, q, Done).times
    ensures Lead(c, Step(c, q, Done), f, g) <= Lead(c, q, f, g)
  {
    StepInv(c, q, Done);
    hide ShiftOf, Incremented;
    IncrementedIs(c, q);
    QueuedNotBelow(c, q, f);
    QueuedNotBelow(c, q, q.queued[0]);
  }

  lemma LeadFree(c: Config, q: Queue, f: Flow, g: Flow, h: Flow)
    requires c.Valid() && Inv(c, q) && Enabled(c, q, Free(h)) && f in q.queued && g in q.times && f != g
    requires h != f && h != g
    ensures f in q.times && Shaped(Step(c, q, Free(h))) && f in Step(c, q, Free(h)).times && g in Step(c, q, Free(h)).times
    ensures Lead(c, Step(c, q, Free(h)), f, g) <= Lead(c, q, f, g)
  {
    StepInv(c, q, Free(h));
    WithoutSorted(q.times, q.queued, h);
    var r := Step(c, q, Free(h));
    assert f in r.queued;
    assert r.queued[0] in Without(q.queued, h);
    CurrentIsLeast(c, q, r.queued[0]);
  }

  lemma LeadSend(c: Config, q: Queue, f: Flow, g: Flow, h: Flow, len: nat)
    requires c.Valid() && Inv(c, q) && Enabled(c, q, Send(h, len)) && f in q.queued && g in q.times && f != g
    ensures f in q.times && Shaped(Step(c, q, Send(h, len)))
    ensures f in Step(c, q, Send(h, len)).times && g in Step(c, q, Send(h, len)).times
    ensures Lead(c, Step(c, q, Send(h, len)), f, g) <= Lead(c, q, f, g)
    ensures Step(c, q, Send(h, len)).sending == q.sending
  {
    StepInv(c, q, Send(h, len));
    EnqueueInv(c, q, h, len);
    var r := Enqueue(q, h, len);
    assert r.queued[0] in r.queued;
    if r.queued[0] != h { CurrentIsLeast(c, q, r.queued[0]); }
  }

  lemma LeadJob(c: Config, q: Queue, f: Flow, g: Flow)
    requires c.Valid() && Inv(c, q) && q.job && f in q.queued && g in q.times && f != g
    requires f in Step(c, q, Job).queued
    ensures f in q.times && Shaped(Step(c, q, Job)) && f in Step(c, q, Job).times && g in Step(c, q, Job).times
    ensures Lead(c, Step(c, q, Job), f, g) <= Lead(c, q, f, g)
    ensures Step(c, q, Job).sending == Some(g) ==>
      Lead(c, q, f, g) >= 0 && Lead(c, Step(c, q, Job), f, g) <= Lead(c, q, f, g) - c.packetWeight
  {
    StepInv(c, q, Job);
    CurrentIsLeast(c, q, f);
    CurrentIsLeast(c, q, q.queued[0]);
    CurrentIsLeast(c, Step(c, q, Job), f);
  }

  lemma LeadStep(c: Config, q: Queue, e: Event, f: Flow, g: Flow)
    requires c.Valid() && Inv(c, q) && Enabled(c, q, e) && f != g
    requires f in q.queued && g in q.times && f in Step(c, q, e).queued && g in Step(c, q, e).times
    ensures f in q.times && Shaped(Step(c, q, e)) && f in Step(c, q, e).times
    ensures Lead(c, Step(c, q, e), f, g) <= Lead(c, q, f, g)
    ensures Step(c, q, e).sending == Some(g) && q.sending != Some(g) ==>
      Lead(c, q, f, g) >= 0 && Lead(c, Step(c, q, e), f, g) <= Lead(c, q, f, g) - c.packetWeight
  {
    match e
    case Init(h) =>
      StepInv(c, q, e);
      assert forall i :: 0 <= i < |q.queued| ==> q.queued[i] in q.queued;
    case Free(h) =>
      WithoutSorted(q.times, q.queued, h);
      LeadFree(c, q, f, g, h);
    case Send(h, len) => LeadSend(c, q, f, g, h, len);
    case Done => LeadDone(c, q, f, g);
    case Job => LeadJob(c, q, f, g);
  }

  /** n turns of at least `weight` each fit before `lead` is used up: n <= lead / weight + 1. */
  predicate TurnsFit(n: nat, weight: nat, lead: int) {
    n == 0 || (n - 1) * weight <= lead
  }

  lemma MoreTurnsFit(n: nat, weight: nat, lead: int, lead': int, turn: bool)
    requires TurnsFit(n, weight, lead') && lead' <= lead
    requires turn ==> lead >= 0 && lead' <= lead - weight
    ensures TurnsFit(if turn then n + 1 else n, weight, lead)
  {
    if turn && n > 0 {
      assert n * weight == (n - 1) * weight + weight;
    }
  }

  lemma {:induction false} TurnsBounded(c: Config, q: Queue, events: seq<Event>, f: Flow, g: Flow)
    requires c.Valid() && Inv(c, q) && ValidRun(c, q, events) && f != g && Waits(c, q, events, f, g)
    ensures f in q.times && TurnsFit(Starts(c, q, events, g), c.packetWeight, Lead(c, q, f, g))
    decreases |events|
  {
    CurrentIsLeast(c, q, f);
    if events != [] {
      hide Inv, Step, Enabled, Shaped, Lead, TurnsFit;
      StepInv(c, q, events[0]);
      LeadStep(c, q, events[0], f, g);
      var r := Step(c, q, events[0]);
      TurnsBounded(c, r, events[1..], f, g);
      MoreTurnsFit(Starts(c, r, events[1..], g), c.packetWeight, Lead(c, q, f, g), Lead(c, r, f, g),
                   r.sending == Some(g) && q.sending != Some(g));
    }
  }

  /**
   * No starvation: while f waits, another flow's turn comes at most (f's time - current time) /
   * packet_weight + 1 times.
   */
  lemma NoStarvation(c: Config, q: Queue, events: seq<Event>, f: Flow, g: Flow)
    requires c.Valid() && Inv(c, q) && ValidRun(c, q, events) && f != g && Waits(c, q, events, f, g)
    ensures f in q.times && CurrentTime(q) <= q.times[f]
    ensures Starts(c, q, events, g) <= (q.times[f] - CurrentTime(q)) / c.packetWeight + 1
  {
    hide Inv, Step, ValidRun, Waits, Starts, Lead, CurrentTime, TurnsFit;
    WaitsAtStart(c, q, events, f, g);
    TurnsBounded(c, q, events, f, g);
    FitIsQuotient(Starts(c, q, events, g), c.packetWeight, Lead(c, q, f, g), q.times[f] - CurrentTime(q));
  }

  lemma WaitsAtStart(c: Config, q: Queue, events: seq<Event>, f: Flow, g: Flow)
    requires c.Valid() && Inv(c, q) && ValidRun(c, q, events) && Waits(c, q, events, f, g)
    ensures f in q.times && g in q.times && Shaped(q) && CurrentTime(q) <= q.times[f]
    ensures Lead(c, q, f, g) <= q.times[f] - CurrentTime(q)
  {
    CurrentIsLeast(c, q, f);
  }

  lemma FitIsQuotient(n: nat, weight: nat, lead: int, room: nat)
    requires weight > 0 && TurnsFit(n, weight, lead) && lead <= room
    ensures n <= room / weight + 1
  {
    if n > 0 {
      QuotientMonotone((n - 1) * weight, room, weight);
      QuotientUnique((n - 1) * weight, weight, n - 1, 0);
    }
  }
}
