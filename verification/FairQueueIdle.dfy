/**
 * What FairQueueTheorems.OverflowIsInvisible says is false without its condition: an idle queue
 * forgets the time it had come to, but the times of its flows stay.
 *
 * In the example two flows send packets of 65535 bytes to a queue with packet weight 1. The first
 * flow sends until its time overflows, so that what is left of the time of the second flow is cut
 * off; then the queue is idle, and both flows send. In the end both have come to the same time, and
 * the one with the lower address comes first; without overflow the other one is earlier.
 */
module FairQueueIdle {
  import opened Bytes
  import opened FairQueueModel
  import opened FairQueueTheorems

  const LIGHT := Config(1, 0xFFFF)
  const LEN: nat := 0xFFFF
  const AMOUNT: nat := 0x1_0000
  const TURNS: nat := 0xFFFF_FFFF_FFFF
  const BRINK: nat := 0xFFFF_FFFF_FFFF_0000

  /** A queue of the flows 1 and 2, with their times and the lengths of their last packets. */
  function Two(t1: nat, t2: nat, l1: nat, l2: nat, len: nat, queued: seq<Flow>, sending: Option<Flow>,
               previous: Option<Flow>, job: bool): Queue {
    Queue(map[1 := t1, 2 := t2], queued, map[1 := l1, 2 := l2], sending, len, previous, job)
  }

  /** Flow 1 has come to time t; flow 2 has not sent yet. */
  function Idle(t: nat, l: nat): Queue {
    Two(t, 0, l, 0, l, [], None, None, false)
  }

  function Sending(t: nat): Queue {
    Two(t, 0, LEN, 0, LEN, [], Some(1), None, false)
  }

  function Sent(t: nat): Queue {
    Two(t, 0, LEN, 0, LEN, [], None, Some(1), true)
  }

  /** Flow 1 sends n packets, with no other flow around, and then come other events. */
  function Turns(n: nat, rest: seq<Event>): seq<Event> {
    if n == 0 then rest else [Send(1, LEN)] + ([Done] + ([Job] + Turns(n - 1, rest)))
  }

  const THROUGH_IDLE: seq<Event> :=
    [Send(1, LEN)] + ([Done] + ([Job] + ([Send(2, LEN)] + ([Send(1, LEN)] + ([Done] + ([Send(2, LEN)] + []))))))
  const EVENTS: seq<Event> := [Init(1)] + ([Init(2)] + Turns(TURNS, THROUGH_IDLE))

  lemma OneMore(q: Queue, e: Event, es: seq<Event>, r: Queue)
    requires Inv(LIGHT, q) && Enabled(LIGHT, q, e) && Step(LIGHT, q, e) == r
    ensures Inv(LIGHT, r)
    ensures ValidRun(LIGHT, r, es) ==> ValidRun(LIGHT, q, [e] + es) && Run(LIGHT, q, [e] + es) == Run(LIGHT, r, es)
  {
    hide Inv, Step, Enabled;
    StepInv(LIGHT, q, e);
    assert ([e] + es)[1..] == es;
  }

  lemma OneMoreUnbounded(q: Queue, e: Event, es: seq<Event>, r: Queue)
    requires InvUnbounded(LIGHT, q) && Enabled(LIGHT, q, e) && StepUnbounded(LIGHT, q, e) == r
    ensures InvUnbounded(LIGHT, r)
    ensures ValidRunUnbounded(LIGHT, r, es) ==>
      ValidRunUnbounded(LIGHT, q, [e] + es) && RunUnbounded(LIGHT, q, [e] + es) == RunUnbounded(LIGHT, r, es)
  {
    hide InvUnbounded, StepUnbounded, Enabled;
    StepUnboundedInv(LIGHT, q, e);
    assert ([e] + es)[1..] == es;
  }

  // ---------------------------------------------------------------- flow 1 alone

  /** What the two queues do alike. */
  lemma TurnSteps(t: nat, l: nat)
    requires l <= LEN
    ensures InvUnbounded(LIGHT, Idle(t, l)) && Next(Idle(t, l), Send(1, LEN), Idle(t, l).times) == Sending(t)
    ensures InvUnbounded(LIGHT, Sent(t)) && Next(Sent(t), Job, Sent(t).times) == Idle(t, LEN)
    ensures InvUnbounded(LIGHT, Sending(t))
    ensures forall n: nat :: Next(Sending(t), Done, map[1 := n, 2 := 0]) == Sent(n)
  {
    assert Insert(map[1 := t, 2 := 0], [], 1) == [1];
    assert map[1 := t, 2 := 0][1 := t] == map[1 := t, 2 := 0];
    assert (map[1 := l, 2 := 0])[1 := LEN] == map[1 := LEN, 2 := 0];
  }

  /** The end of a packet of flow 1, with and without overflow. */
  lemma DoneSteps(t: nat)
    requires t == BRINK || t + AMOUNT <= BRINK
    ensures Inv(LIGHT, Sending(t))
    ensures Step(LIGHT, Sending(t), Done) == Sent(if t == BRINK then AMOUNT else t + AMOUNT)
    ensures StepUnbounded(LIGHT, Sending(t), Done) == Sent(t + AMOUNT)
  {
    hide Next, Incremented, Inv, InvUnbounded;
    TurnInv(t, LEN);
    TurnSteps(t, LEN);
    DoneTimes(t);
  }

  lemma DoneTimes(t: nat)
    requires t == BRINK || t + AMOUNT <= BRINK
    ensures Inv(LIGHT, Sending(t)) && Amount(LIGHT, Sending(t)) == AMOUNT
    ensures Incremented(Sending(t), 1, AMOUNT) == map[1 := if t == BRINK then AMOUNT else t + AMOUNT, 2 := 0]
    ensures Sending(t).times[1 := t + AMOUNT] == map[1 := t + AMOUNT, 2 := 0]
  {
    TurnInv(t, LEN);
    IncrementedIs(LIGHT, Sending(t));
  }

  lemma TurnInv(t: nat, l: nat)
    requires t <= MAX_TIME && l <= LEN
    ensures Inv(LIGHT, Idle(t, l)) && Inv(LIGHT, Sending(t)) && Inv(LIGHT, Sent(t))
  {
    TurnSteps(t, l);
  }

  lemma {:induction false} TurnsRun(n: nat, t: nat, l: nat, rest: seq<Event>)
    requires l <= LEN && t + n * AMOUNT <= BRINK
    ensures var r := Idle(t + n * AMOUNT, if n == 0 then l else LEN);
      && Inv(LIGHT, r) && Inv(LIGHT, Idle(t, l))
      && (ValidRun(LIGHT, r, rest) ==>
            ValidRun(LIGHT, Idle(t, l), Turns(n, rest)) && Run(LIGHT, Idle(t, l), Turns(n, rest)) == Run(LIGHT, r, rest))
      && (ValidRunUnbounded(LIGHT, r, rest) ==>
            ValidRunUnbounded(LIGHT, Idle(t, l), Turns(n, rest)) &&
            RunUnbounded(LIGHT, Idle(t, l), Turns(n, rest)) == RunUnbounded(LIGHT, r, rest))
  {
    hide Inv, InvUnbounded, Idle, Sending, Sent, ValidRun, ValidRunUnbounded, Run, RunUnbounded;
    TurnInv(t, l);
    if n > 0 {
      var later := Turns(n - 1, rest);
      TurnsRun(n - 1, t + AMOUNT, LEN, rest);
      TurnBounded(t, l, later);
      TurnUnbounded(t, l, later);
    }
  }

  lemma TurnBounded(t: nat, l: nat, later: seq<Event>)
    requires l <= LEN && t + AMOUNT <= BRINK
    ensures Inv(LIGHT, Idle(t, l)) && Inv(LIGHT, Idle(t + AMOUNT, LEN))
    ensures ValidRun(LIGHT, Idle(t + AMOUNT, LEN), later) ==>
      var es := [Send(1, LEN)] + ([Done] + ([Job] + later));
      ValidRun(LIGHT, Idle(t, l), es) && Run(LIGHT, Idle(t, l), es) == Run(LIGHT, Idle(t + AMOUNT, LEN), later)
  {
    hide Inv, ValidRun, Run, Next;
    TurnInv(t, l);
    TurnInv(t + AMOUNT, LEN);
    TurnSteps(t, l);
    TurnSteps(t + AMOUNT, LEN);
    DoneSteps(t);
    OneMore(Sent(t + AMOUNT), Job, later, Idle(t + AMOUNT, LEN));
    OneMore(Sending(t), Done, [Job] + later, Sent(t + AMOUNT));
    OneMore(Idle(t, l), Send(1, LEN), [Done] + ([Job] + later), Sending(t));
  }

  lemma TurnUnbounded(t: nat, l: nat, later: seq<Event>)
    requires l <= LEN && t + AMOUNT <= BRINK
    ensures InvUnbounded(LIGHT, Idle(t, l)) && InvUnbounded(LIGHT, Idle(t + AMOUNT, LEN))
    ensures ValidRunUnbounded(LIGHT, Idle(t + AMOUNT, LEN), later) ==>
      var es := [Send(1, LEN)] + ([Done] + ([Job] + later));
      && ValidRunUnbounded(LIGHT, Idle(t, l), es)
      && RunUnbounded(LIGHT, Idle(t, l), es) == RunUnbounded(LIGHT, Idle(t + AMOUNT, LEN), later)
  {
    hide InvUnbounded, ValidRunUnbounded, RunUnbounded, Next;
    TurnSteps(t, l);
    TurnSteps(t + AMOUNT, LEN);
    DoneSteps(t);
    OneMoreUnbounded(Sent(t + AMOUNT), Job, later, Idle(t + AMOUNT, LEN));
    OneMoreUnbounded(Sending(t), Done, [Job] + later, Sent(t + AMOUNT));
    OneMoreUnbounded(Idle(t, l), Send(1, LEN), [Done] + ([Job] + later), Sending(t));
  }

  // ---------------------------------------------------------------- both flows

  function Both(t1: nat, t2: nat, queued: seq<Flow>, sending: Option<Flow>, previous: Option<Flow>, job: bool): Queue {
    Two(t1, t2, LEN, LEN, LEN, queued, sending, previous, job)
  }

  /** What the events after the overflow do, when flow 1 has come to time t. */
  lemma StepsToSending(t: nat)
    ensures Shaped(Idle(t, LEN)) && Next(Idle(t, LEN), Send(2, LEN), Idle(t, LEN).times) == Both(t, 0, [], Some(2), None, false)
    ensures var q := Both(t, 0, [], Some(2), None, false); Shaped(q) && Next(q, Send(1, LEN), q.times) == Both(t, 0, [1], Some(2), None, false)
  {
    assert Insert(map[1 := t, 2 := 0], [], 1) == [1];
    assert Insert(map[1 := t, 2 := 0], [], 2) == [2];
    assert map[1 := t, 2 := 0][1 := t] == map[1 := t, 2 := 0] == map[1 := t, 2 := 0][2 := 0];
    assert (map[1 := LEN, 2 := 0])[2 := LEN] == map[1 := LEN, 2 := LEN] == (map[1 := LEN, 2 := LEN])[1 := LEN];
  }

  lemma StepsToQueued(t: nat)
    requires t >= AMOUNT
    ensures var q := Both(t, 0, [1], Some(2), None, false);
      Shaped(q) && Next(q, Done, map[1 := t, 2 := AMOUNT]) == Both(t, AMOUNT, [1], None, Some(2), true)
    ensures var q := Both(t, AMOUNT, [1], None, Some(2), true);
      Shaped(q) && Next(q, Send(2, LEN), q.times) == Both(t, AMOUNT, if t == AMOUNT then [1, 2] else [2, 1], None, None, true)
  {
    var times := map[1 := t, 2 := AMOUNT];
    assert Insert(times, [], 2) == [2];
    assert Insert(times, [1], 2) == if t == AMOUNT then [1, 2] else [2, 1];
    assert times[2 := AMOUNT] == times;
    assert (map[1 := LEN, 2 := LEN])[2 := LEN] == map[1 := LEN, 2 := LEN];
  }

  lemma SecondIncrement()
    ensures var q := Both(AMOUNT, 0, [1], Some(2), None, false);
      Inv(LIGHT, q) && Incremented(q, 2, AMOUNT) == map[1 := AMOUNT, 2 := AMOUNT]
    ensures var u := Both(BRINK + AMOUNT, 0, [1], Some(2), None, false);
      u.times[2 := AMOUNT] == map[1 := BRINK + AMOUNT, 2 := AMOUNT]
  {
    var q := Both(AMOUNT, 0, [1], Some(2), None, false);
    assert Inv(LIGHT, q);
    IncrementedIs(LIGHT, q);
    assert Incremented(q, 2, AMOUNT) == map[1 := AMOUNT, 2 := AMOUNT];
  }

  lemma Bounded()
    ensures Inv(LIGHT, Idle(BRINK, LEN)) && ValidRun(LIGHT, Idle(BRINK, LEN), THROUGH_IDLE)
    ensures Run(LIGHT, Idle(BRINK, LEN), THROUGH_IDLE).queued == [1, 2]
  {
    hide Inv, ValidRun, Run, Next, Shaped;
    var t := AMOUNT;
    var q3, q4 := Both(t, 0, [], Some(2), None, false), Both(t, 0, [1], Some(2), None, false);
    var q5, q6 := Both(t, t, [1], None, Some(2), true), Both(t, t, [1, 2], None, None, true);
    TurnInv(BRINK, LEN);
    TurnInv(t, LEN);
    TurnSteps(BRINK, LEN);
    TurnSteps(t, LEN);
    DoneSteps(BRINK);
    StepsToSending(t);
    SecondIncrement();
    StepsToQueued(t);
    StepInv(LIGHT, Idle(t, LEN), Send(2, LEN));
    StepInv(LIGHT, q4, Done);
    NoMore(q5, Send(2, LEN), q6);
    OneMore(q5, Send(2, LEN), [], q6);
    OneMore(q4, Done, [Send(2, LEN)] + [], q5);
    OneMore(q3, Send(1, LEN), [Done] + ([Send(2, LEN)] + []), q4);
    OneMore(Idle(t, LEN), Send(2, LEN), [Send(1, LEN)] + ([Done] + ([Send(2, LEN)] + [])), q3);
    OneMore(Sent(t), Job, [Send(2, LEN)] + ([Send(1, LEN)] + ([Done] + ([Send(2, LEN)] + []))), Idle(t, LEN));
    OneMore(Sending(BRINK), Done, [Job] + ([Send(2, LEN)] + ([Send(1, LEN)] + ([Done] + ([Send(2, LEN)] + [])))), Sent(t));
    OneMore(Idle(BRINK, LEN), Send(1, LEN),
            [Done] + ([Job] + ([Send(2, LEN)] + ([Send(1, LEN)] + ([Done] + ([Send(2, LEN)] + []))))), Sending(BRINK));
  }

  lemma NoMore(q: Queue, e: Event, r: Queue)
    requires Inv(LIGHT, q) && Enabled(LIGHT, q, e) && Step(LIGHT, q, e) == r
    ensures Inv(LIGHT, r) && ValidRun(LIGHT, r, []) && Run(LIGHT, r, []) == r
  {
    hide Inv, Step, Enabled;
    StepInv(LIGHT, q, e);
  }

  lemma Unbounded()
    ensures InvUnbounded(LIGHT, Idle(BRINK, LEN)) && ValidRunUnbounded(LIGHT, Idle(BRINK, LEN), THROUGH_IDLE)
    ensures RunUnbounded(LIGHT, Idle(BRINK, LEN), THROUGH_IDLE).queued == [2, 1]
  {
    hide InvUnbounded, ValidRunUnbounded, RunUnbounded, Next, Shaped;
    var t := BRINK + AMOUNT;
    var u3, u4 := Both(t, 0, [], Some(2), None, false), Both(t, 0, [1], Some(2), None, false);
    var u5, u6 := Both(t, AMOUNT, [1], None, Some(2), true), Both(t, AMOUNT, [2, 1], None, None, true);
    TurnSteps(BRINK, LEN);
    TurnSteps(t, LEN);
    DoneSteps(BRINK);
    StepsToSending(t);
    SecondIncrement();
    StepsToQueued(t);
    StepUnboundedInv(LIGHT, Idle(t, LEN), Send(2, LEN));
    StepUnboundedInv(LIGHT, u3, Send(1, LEN));
    StepUnboundedInv(LIGHT, u4, Done);
    NoMoreUnbounded(u5, u6);
    OneMoreUnbounded(u5, Send(2, LEN), [], u6);
    OneMoreUnbounded(u4, Done, [Send(2, LEN)] + [], u5);
    OneMoreUnbounded(u3, Send(1, LEN), [Done] + ([Send(2, LEN)] + []), u4);
    OneMoreUnbounded(Idle(t, LEN), Send(2, LEN), [Send(1, LEN)] + ([Done] + ([Send(2, LEN)] + [])), u3);
    OneMoreUnbounded(Sent(t), Job, [Send(2, LEN)] + ([Send(1, LEN)] + ([Done] + ([Send(2, LEN)] + []))), Idle(t, LEN));
    OneMoreUnbounded(Sending(BRINK), Done, [Job] + ([Send(2, LEN)] + ([Send(1, LEN)] + ([Done] + ([Send(2, LEN)] + [])))), Sent(t));
    OneMoreUnbounded(Idle(BRINK, LEN), Send(1, LEN),
                     [Done] + ([Job] + ([Send(2, LEN)] + ([Send(1, LEN)] + ([Done] + ([Send(2, LEN)] + []))))), Sending(BRINK));
  }

  lemma NoMoreUnbounded(q: Queue, r: Queue)
    requires InvUnbounded(LIGHT, q) && Enabled(LIGHT, q, Send(2, LEN)) && StepUnbounded(LIGHT, q, Send(2, LEN)) == r
    ensures InvUnbounded(LIGHT, r) && ValidRunUnbounded(LIGHT, r, []) && RunUnbounded(LIGHT, r, []) == r
  {
    hide InvUnbounded, StepUnbounded, Enabled;
    StepUnboundedInv(LIGHT, q, Send(2, LEN));
  }

  lemma InitSteps()
    ensures Inv(LIGHT, EMPTY)
    ensures var q := Queue(map[1 := 0], [], map[1 := 0], None, 0, None, false);
      && Inv(LIGHT, q) && Step(LIGHT, EMPTY, Init(1)) == q == StepUnbounded(LIGHT, EMPTY, Init(1))
      && Step(LIGHT, q, Init(2)) == Idle(0, 0) == StepUnbounded(LIGHT, q, Init(2))
  {
    var q := Queue(map[1 := 0], [], map[1 := 0], None, 0, None, false);
    assert q.times[2 := 0] == map[1 := 0, 2 := 0];
  }

  /**
   * A run from a new queue after which the flows are queued in another order than if times were
   * unbounded: flow 1 first, where without overflow it would be flow 2.
   */
  lemma IdleForgetsTheTime()
    ensures LIGHT.Valid() && Inv(LIGHT, EMPTY) && ValidRun(LIGHT, EMPTY, EVENTS) && ValidRunUnbounded(LIGHT, EMPTY, EVENTS)
    ensures Run(LIGHT, EMPTY, EVENTS).queued == [1, 2] && RunUnbounded(LIGHT, EMPTY, EVENTS).queued == [2, 1]
    ensures !NoneOff(LIGHT, EMPTY, 0, {}, EVENTS)
  {
    hide Inv, InvUnbounded, Step, StepUnbounded, ValidRun, ValidRunUnbounded, Run, RunUnbounded, NoneOff, Idle, Turns;
    InitSteps();
    Bounded();
    Unbounded();
    InvIsBoth(EMPTY);
    var es := Turns(TURNS, THROUGH_IDLE);
    TurnsRun(TURNS, 0, 0, THROUGH_IDLE);
    var q := Queue(map[1 := 0], [], map[1 := 0], None, 0, None, false);
    InvIsBoth(q);
    OneMore(q, Init(2), es, Idle(0, 0));
    OneMore(EMPTY, Init(1), [Init(2)] + es, q);
    OneMoreUnbounded(q, Init(2), es, Idle(0, 0));
    OneMoreUnbounded(EMPTY, Init(1), [Init(2)] + es, q);
    if NoneOff(LIGHT, EMPTY, 0, {}, EVENTS) {
      OverflowIsInvisible(LIGHT, EMPTY, EVENTS);
    }
  }

  lemma InvIsBoth(q: Queue)
    requires Inv(LIGHT, q)
    ensures InvUnbounded(LIGHT, q)
  {
  }
}
