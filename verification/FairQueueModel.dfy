/**
 * PacketPassFairQueue as a value: virtual times, the queue ordered by them, and what each event
 * does. The queue is modelled twice, with 64-bit times and with unbounded ones.
 */
module FairQueueModel {
  import opened Bytes
  import opened Lists

  /** FAIRQUEUE_MAX_TIME */
  const MAX_TIME: nat := 0xFFFF_FFFF_FFFF_FFFF

  const WORD: nat := 0x1_0000_0000_0000_0000

  /** A flow is identified by its address, which also breaks ties. */
  type Flow = nat

  datatype Config = Config(packetWeight: nat, mtu: nat) {
    /** The check of PacketPassFairQueue_Init. */
    predicate Valid() {
      packetWeight > 0 && packetWeight + mtu <= MAX_TIME
    }
  }

  datatype Queue = Queue(times: map<Flow, nat>, queued: seq<Flow>, lens: map<Flow, nat>,
                         sending: Option<Flow>, sendingLen: nat, previous: Option<Flow>, job: bool)

  const EMPTY := Queue(map[], [], map[], None, 0, None, false)

  /** compare_flows */
  predicate Before(times: map<Flow, nat>, f: Flow, g: Flow)
    requires f in times && g in times
  {
    times[f] < times[g] || (times[f] == times[g] && f < g)
  }

  ghost predicate Known(times: map<Flow, nat>, queued: seq<Flow>) {
    forall i :: 0 <= i < |queued| ==> queued[i] in times
  }

  /** The tree: its entries in order. */
  ghost predicate Sorted(times: map<Flow, nat>, queued: seq<Flow>)
    requires Known(times, queued)
  {
    forall i, j :: 0 <= i < j < |queued| ==> Before(times, queued[i], queued[j])
  }

  /** Inserting into the tree puts the flow where the order wants it. */
  function Insert(times: map<Flow, nat>, queued: seq<Flow>, f: Flow): (r: seq<Flow>)
    requires f in times && Known(times, queued)
    ensures |r| == |queued| + 1 && Known(times, r)
  {
    if queued == [] || Before(times, f, queued[0]) then [f] + queued
    else [queued[0]] + Insert(times, queued[1..], f)
  }

  predicate Active(q: Queue, f: Flow) {
    f in q.queued || q.sending == Some(f) || q.previous == Some(f)
  }

  predicate Busy(q: Queue) {
    q.queued != [] || q.sending.Some? || q.previous.Some?
  }

  ghost predicate Shaped(q: Queue) {
    && Known(q.times, q.queued) && q.lens.Keys == q.times.Keys
    && (q.sending.Some? ==> q.sending.value in q.times && q.sending.value !in q.queued)
    && (q.previous.Some? ==> q.previous.value in q.times && q.previous.value !in q.queued)
    && (q.sending.Some? ==> !q.job && q.previous.None?)
    && (q.previous.Some? ==> q.job)
    && (q.queued != [] ==> q.sending.Some? || q.job)
  }

  /** get_current_time */
  function CurrentTime(q: Queue): nat
    requires (q.sending.Some? ==> q.sending.value in q.times) && (q.previous.Some? ==> q.previous.value in q.times)
    requires q.queued != [] ==> q.queued[0] in q.times
  {
    if q.sending.Some? then q.times[q.sending.value]
    else if q.queued != [] then
      if q.previous.Some? && q.times[q.previous.value] < q.times[q.queued[0]]
      then q.times[q.previous.value] else q.times[q.queued[0]]
    else if q.previous.Some? then q.times[q.previous.value]
    else 0
  }

  // ---------------------------------------------------------------- adding the time of a packet sent

  /** uint64_t subtraction and addition. */
  function Sub64(a: nat, b: nat): nat
    requires a < WORD && b < WORD
  {
    if b <= a then a - b else a - b + WORD
  }

  function Add64(a: nat, b: nat): nat
    requires a < WORD && b < WORD
  {
    if a + b < WORD then a + b else a + b - WORD
  }

  ghost predicate InRange(times: map<Flow, nat>) {
    forall f :: f in times ==> times[f] <= MAX_TIME
  }

  /** What increment_sent_flow subtracts from all flows when the time of the flow would overflow. */
  function Subtracted(q: Queue, f: Flow): nat
    requires f in q.times && (q.queued != [] ==> q.queued[0] in q.times)
  {
    if q.queued == [] then q.times[f] else q.times[q.queued[0]]
  }

  function Shifted(times: map<Flow, nat>, f: Flow, subtract: nat): (r: map<Flow, nat>)
    requires InRange(times) && subtract <= MAX_TIME
    ensures InRange(r) && r.Keys == times.Keys
  {
    map g | g in times :: if subtract > times[g] && g != f then 0 else Sub64(times[g], subtract)
  }

  function Incremented(q: Queue, f: Flow, amount: nat): map<Flow, nat>
    requires f in q.times && InRange(q.times) && Known(q.times, q.queued) && amount <= MAX_TIME
  {
    var times := if amount > MAX_TIME - q.times[f] then Shifted(q.times, f, Subtracted(q, f)) else q.times;
    times[f := Add64(times[f], amount)]
  }

  // ---------------------------------------------------------------- events

  datatype Event = Init(f: Flow) | Free(f: Flow) | Send(f: Flow, len: nat) | Done | Job

  /** What the callers and the interfaces demand of an event. */
  predicate Enabled(c: Config, q: Queue, e: Event) {
    match e
    case Init(f) => f !in q.times
    case Free(f) => f in q.times && q.sending != Some(f)
    case Send(f, len) => f in q.times && f !in q.queued && q.sending != Some(f) && len <= c.mtu
    case Done => q.sending.Some?
    case Job => q.job
  }

  function Schedule(q: Queue): Queue
    requires q.queued != [] && q.queued[0] in q.lens
  {
    q.(sending := Some(q.queued[0]), sendingLen := q.lens[q.queued[0]], queued := q.queued[1..])
  }

  /** The time a flow is queued with. */
  function RaisedTime(q: Queue, f: Flow): nat
    requires Shaped(q) && f in q.times
  {
    if q.previous == Some(f) then q.times[f] else Max(q.times[f], CurrentTime(q))
  }

  function Enqueue(q: Queue, f: Flow, len: nat): Queue
    requires Shaped(q) && f in q.times
  {
    var times := q.times[f := RaisedTime(q, f)];
    q.(times := times, lens := q.lens[f := len], queued := Insert(times, q.queued, f),
       previous := if q.previous == Some(f) then None else q.previous)
  }

  /** The queue without the flow. */
  function Leave(q: Queue, f: Flow): Queue {
    q.(times := q.times - {f}, lens := q.lens - {f}, queued := Without(q.queued, f),
       sending := if q.sending == Some(f) then None else q.sending,
       previous := if q.previous == Some(f) then None else q.previous)
  }

  /** Everything an event does except that Done has the new times given to it. */
  function Next(q: Queue, e: Event, doneTimes: map<Flow, nat>): Queue
    requires Shaped(q) && (e.Send? ==> e.f in q.times)
  {
    match e
    case Init(f) => q.(times := q.times[f := 0], lens := q.lens[f := 0])
    case Free(f) => Leave(q, f)
    case Send(f, len) =>
      var r := Enqueue(q, f, len);
      if r.sending.None? && !r.job then Schedule(r) else r
    case Done =>
      q.(sending := None, previous := q.sending, times := doneTimes, job := true)
    case Job =>
      var r := q.(previous := None, job := false);
      if r.queued != [] then Schedule(r) else r
  }

  function Amount(c: Config, q: Queue): nat {
    c.packetWeight + q.sendingLen
  }

  /** One event of the queue as it is, with 64-bit times. */
  function Step(c: Config, q: Queue, e: Event): Queue
    requires c.Valid() && Inv(c, q) && Enabled(c, q, e)
  {
    Next(q, e, if e.Done? then Incremented(q, q.sending.value, Amount(c, q)) else q.times)
  }

  /** One event of a queue whose times never overflow. */
  function StepUnbounded(c: Config, q: Queue, e: Event): Queue
    requires c.Valid() && InvUnbounded(c, q) && Enabled(c, q, e)
  {
    Next(q, e, if e.Done? then q.times[q.sending.value := q.times[q.sending.value] + Amount(c, q)] else q.times)
  }

  /** The invariant of both queues. The flow that is sending is not later than any that waits. */
  ghost predicate InvUnbounded(c: Config, q: Queue) {
    && Shaped(q) && Sorted(q.times, q.queued)
    && (forall i :: 0 <= i < |q.queued| ==> q.lens[q.queued[i]] <= c.mtu)
    && (q.sending.Some? ==> q.sendingLen <= c.mtu)
    && (q.sending.Some? ==> forall i :: 0 <= i < |q.queued| ==> q.times[q.sending.value] <= q.times[q.queued[i]])
  }

  ghost predicate Inv(c: Config, q: Queue) {
    InvUnbounded(c, q) && InRange(q.times)
  }

  // ---------------------------------------------------------------- the order is kept

  lemma {:induction false} InsertSorted(times: map<Flow, nat>, queued: seq<Flow>, f: Flow)
    requires f in times && Known(times, queued) && Sorted(times, queued) && f !in queued
    ensures Sorted(times, Insert(times, queued, f))
    ensures forall g :: g in Insert(times, queued, f) <==> g == f || g in queued
    ensures queued == [] || Before(times, f, queued[0]) ==> Insert(times, queued, f)[0] == f
    ensures queued != [] && !Before(times, f, queued[0]) ==> Insert(times, queued, f)[0] == queued[0]
  {
    if queued != [] && !Before(times, f, queued[0]) {
      var rest := queued[1..];
      InsertSorted(times, rest, f);
      assert queued == [queued[0]] + rest;
      var r := Insert(times, rest, f);
      forall j | 0 <= j < |r| ensures Before(times, queued[0], r[j]) {
        assert r[j] in r;
        if r[j] in rest {
          var k :| 0 <= k < |rest| && rest[k] == r[j];
          assert rest[k] == queued[k + 1];
        }
      }
    } else if queued != [] {
      assert forall j :: 1 <= j < |queued| ==> Before(times, queued[0], queued[j]);
    }
  }

  lemma WithoutSorted(times: map<Flow, nat>, queued: seq<Flow>, f: Flow)
    requires Known(times, queued) && Sorted(times, queued)
    ensures Known(times, Without(queued, f)) && Sorted(times, Without(queued, f))
    ensures forall g :: g in Without(queued, f) <==> g in queued && g != f
  {
    WithoutMembers(queued, f);
    WithoutIsSorted(times, queued, f);
  }

  lemma {:induction false} WithoutIsSorted(times: map<Flow, nat>, queued: seq<Flow>, f: Flow)
    requires Known(times, queued) && Sorted(times, queued)
    ensures Known(times, Without(queued, f)) && Sorted(times, Without(queued, f))
    ensures forall g :: g in Without(queued, f) ==> g in queued
  {
    if queued != [] && queued[0] != f {
      var rest := queued[1..];
      WithoutIsSorted(times, rest, f);
      var r := Without(rest, f);
      forall j | 0 <= j < |r| ensures Before(times, queued[0], r[j]) {
        assert r[j] in rest;
        var k :| 0 <= k < |rest| && rest[k] == r[j];
        assert rest[k] == queued[k + 1];
      }
    }
  }

  // ---------------------------------------------------------------- every event keeps the invariant

  /** Times that keep the queue in order. */
  ghost predicate KeepsOrder(q: Queue, times: map<Flow, nat>) {
    times.Keys == q.times.Keys && Known(times, q.queued) && Sorted(times, q.queued)
  }

  lemma EnqueueInv(c: Config, q: Queue, f: Flow, len: nat)
    requires InvUnbounded(c, q) && Enabled(c, q, Send(f, len))
    ensures var r := Enqueue(q, f, len);
      && Known(r.times, r.queued) && Sorted(r.times, r.queued) && r.lens.Keys == r.times.Keys == q.times.Keys
      && (forall g :: g in r.queued <==> g == f || g in q.queued)
      && (forall g :: g in q.times && g != f ==> r.times[g] == q.times[g])
      && r.lens == q.lens[f := len]
      && (q.sending.Some? ==> r.times[f] >= q.times[q.sending.value])
  {
    var times := q.times[f := RaisedTime(q, f)];
    assert forall i :: 0 <= i < |q.queued| ==> q.queued[i] in q.queued;
    InsertSorted(times, q.queued, f);
  }

  lemma FreeInv(c: Config, q: Queue, f: Flow)
    requires InvUnbounded(c, q) && Enabled(c, q, Free(f))
    ensures InvUnbounded(c, Next(q, Free(f), q.times))
  {
    WithoutSorted(q.times, q.queued, f);
    var r := Next(q, Free(f), q.times);
    forall i | 0 <= i < |r.queued| ensures r.queued[i] in q.queued && r.queued[i] != f {
      assert r.queued[i] in Without(q.queued, f);
    }
  }

  lemma SendInv(c: Config, q: Queue, f: Flow, len: nat)
    requires InvUnbounded(c, q) && Enabled(c, q, Send(f, len))
    ensures InvUnbounded(c, Next(q, Send(f, len), q.times))
  {
    EnqueueInv(c, q, f, len);
    var r := Enqueue(q, f, len);
    hide Enqueue, Sorted, CurrentTime;
    forall i | 0 <= i < |r.queued| ensures r.queued[i] == f || r.queued[i] in q.queued {
      assert r.queued[i] in r.queued;
    }
  }

  lemma JobInv(c: Config, q: Queue)
    requires InvUnbounded(c, q) && Enabled(c, q, Job)
    ensures InvUnbounded(c, Next(q, Job, q.times))
  {
    forall i | 1 <= i < |q.queued| ensures q.queued[i] != q.queued[0] {
      assert Before(q.times, q.queued[0], q.queued[i]);
    }
  }

  lemma NextInv(c: Config, q: Queue, e: Event, doneTimes: map<Flow, nat>)
    requires InvUnbounded(c, q) && Enabled(c, q, e) && (e.Done? ==> KeepsOrder(q, doneTimes))
    ensures InvUnbounded(c, Next(q, e, doneTimes))
  {
    match e
    case Init(f) =>
    case Free(f) => FreeInv(c, q, f);
    case Send(f, len) => SendInv(c, q, f, len);
    case Done =>
    case Job => JobInv(c, q);
  }

  // ---------------------------------------------------------------- overflow

  /** What the event subtracts from the times; 0 unless the time of the flow that was sent would overflow. */
  function ShiftOf(c: Config, q: Queue): nat
    requires Shaped(q) && InRange(q.times) && q.sending.Some?
  {
    if Amount(c, q) > MAX_TIME - q.times[q.sending.value] then Subtracted(q, q.sending.value) else 0
  }

  /**
   * The 64-bit arithmetic of increment_sent_flow comes out right: the time of the flow sent may go
   * below zero and over the top again, but ends in range; no queued flow loses more than it has.
   */
  lemma IncrementedIs(c: Config, q: Queue)
    requires c.Valid() && Inv(c, q) && q.sending.Some?
    ensures Amount(c, q) <= MAX_TIME
    ensures var f, s := q.sending.value, ShiftOf(c, q); var r := Incremented(q, f, Amount(c, q));
      && r.Keys == q.times.Keys && InRange(r)
      && r[f] == q.times[f] + Amount(c, q) - s
      && (forall g :: g in q.times && g != f ==> r[g] == if s > q.times[g] then 0 else q.times[g] - s)
      && (forall i :: 0 <= i < |q.queued| ==> s <= q.times[q.queued[i]] && q.queued[i] != f)
  {
    var f := q.sending.value;
    forall i | 0 <= i < |q.queued| ensures Subtracted(q, f) <= q.times[q.queued[i]] && q.queued[i] != f {
      assert q.queued[i] in q.queued;
      assert i > 0 ==> Before(q.times, q.queued[0], q.queued[i]);
    }
  }

  lemma IncrementedKeepsOrder(c: Config, q: Queue)
    requires c.Valid() && Inv(c, q) && q.sending.Some?
    ensures Amount(c, q) <= MAX_TIME && KeepsOrder(q, Incremented(q, q.sending.value, Amount(c, q)))
  {
    hide Incremented, ShiftOf;
    IncrementedIs(c, q);
    var r := Incremented(q, q.sending.value, Amount(c, q));
    forall i, j | 0 <= i < j < |q.queued| ensures Before(r, q.queued[i], q.queued[j]) {
      assert Before(q.times, q.queued[i], q.queued[j]);
    }
  }

  lemma StepInv(c: Config, q: Queue, e: Event)
    requires c.Valid() && Inv(c, q) && Enabled(c, q, e)
    ensures Inv(c, Step(c, q, e))
  {
    if e.Done? {
      IncrementedKeepsOrder(c, q);
      IncrementedIs(c, q);
      NextInv(c, q, e, Incremented(q, q.sending.value, Amount(c, q)));
    } else {
      NextInv(c, q, e, q.times);
      if e.Send? { RaisedInRange(q, e.f); }
    }
  }

  lemma RaisedInRange(q: Queue, f: Flow)
    requires Shaped(q) && InRange(q.times) && f in q.times
    ensures RaisedTime(q, f) <= MAX_TIME
  {
  }

  lemma StepUnboundedInv(c: Config, q: Queue, e: Event)
    requires c.Valid() && InvUnbounded(c, q) && Enabled(c, q, e)
    ensures InvUnbounded(c, StepUnbounded(c, q, e))
  {
    if e.Done? {
      var times := q.times[q.sending.value := q.times[q.sending.value] + Amount(c, q)];
      forall i, j | 0 <= i < j < |q.queued| ensures Before(times, q.queued[i], q.queued[j]) {
        assert q.queued[i] in q.queued && q.queued[j] in q.queued;
        assert Before(q.times, q.queued[i], q.queued[j]);
      }
      NextInv(c, q, e, times);
    } else {
      NextInv(c, q, e, q.times);
    }
  }
}
