/**
 * The fair queue together with the inputs of its flows and the list of pending jobs: its
 * decisions are jobs on the same list as the packets and dones of its inputs.
 */
module FairQueueJobs {
  import B = BPending
  import opened Bytes
  import Q = FairQueueModel
  import opened Lists
  import P = PacketPassModel

  type Flow = Q.Flow

  /** The jobs of the inputs, schedule_job, and all other jobs, those of the output among them. */
  datatype Job = Operation(f: Flow) | Cancel(f: Flow) | DoneOf(f: Flow) | Schedule | Foreign(n: nat)

  function Ids(f: Flow): P.Ids<Job> {
    P.Ids(Operation(f), Cancel(f), DoneOf(f))
  }

  /** lens are the lengths of the packets the sources have given to the inputs. */
  datatype System = System(q: Q.Queue, jobs: seq<Job>, inputs: map<Flow, P.Handshake>, lens: map<Flow, nat>)

  /**
   * A source sends, the output is done with a packet, a foreign job is set or unset, the job on
   * top is run.
   */
  datatype Event = SourceSends(f: Flow, len: nat) | OutputDone | ForeignSet(n: nat) | ForeignUnset(n: nat) | RunTop

  function Input(s: System, f: Flow): P.State<Job>
    requires f in s.inputs
  {
    P.State(s.jobs, s.inputs[f])
  }

  ghost predicate Inv(c: Q.Config, s: System) {
    && Q.Inv(c, s.q) && NoDup(s.jobs)
    && s.inputs.Keys == s.lens.Keys == s.q.times.Keys
    && (Schedule in s.jobs <==> s.q.job)
    && (forall f :: f in s.inputs ==> InputInv(c, s, f))
    && JobsKnown(s.jobs, s.inputs.Keys)
  }

  ghost predicate JobsKnown(jobs: seq<Job>, flows: set<Flow>) {
    && (forall f :: Operation(f) in jobs || DoneOf(f) in jobs ==> f in flows)
    && (forall f :: Cancel(f) !in jobs)
  }

  /** The queue has a packet of the flow exactly while the input is busy. */
  ghost predicate InputInv(c: Q.Config, s: System, f: Flow)
    requires f in s.inputs && f in s.lens
  {
    && P.Inv(Ids(f), Input(s, f)) && s.lens[f] <= c.mtu
    && (s.inputs[f].phase.Busy? <==> f in s.q.queued || s.q.sending == Some(f))
  }

  ghost predicate Enabled(c: Q.Config, s: System, e: Event) {
    match e
    case SourceSends(f, len) => f in s.inputs && s.inputs[f].phase.Idle? && len <= c.mtu
    case OutputDone => s.q.sending.Some?
    case ForeignSet(_) => true
    case ForeignUnset(_) => true
    case RunTop => s.jobs != []
  }

  /** The queue after the handler of the job has been called. */
  ghost function RunQueue(c: Q.Config, s: System, job: Job): Q.Queue
    requires c.Valid() && Inv(c, s) && s.jobs != [] && job == s.jobs[0]
  {
    match job
    case Operation(f) =>
      assert P.Inv(Ids(f), Input(s, f));
      Q.Step(c, s.q, Q.Send(f, s.lens[f]))
    case Schedule => Q.Step(c, s.q, Q.Job)
    case _ => s.q
  }

  ghost function RunInputs(s: System, job: Job): map<Flow, P.Handshake> {
    if (job.Operation? || job.DoneOf?) && job.f in s.inputs
    then s.inputs[job.f := P.RunJob(Ids(job.f), s.inputs[job.f], job)]
    else s.inputs
  }

  ghost function Step(c: Q.Config, s: System, e: Event): System
    requires c.Valid() && Inv(c, s) && Enabled(c, s, e)
  {
    match e
    case SourceSends(f, len) =>
      var r := P.Step(Ids(f), Input(s, f), P.Send);
      s.(jobs := r.jobs, inputs := s.inputs[f := r.h], lens := s.lens[f := len])
    case OutputDone =>
      var f := s.q.sending.value;
      var r := P.Step(Ids(f), P.State(B.Set(s.jobs, Schedule), s.inputs[f]), P.Done);
      System(Q.Step(c, s.q, Q.Done), r.jobs, s.inputs[f := r.h], s.lens)
    case ForeignSet(n) => s.(jobs := B.Set(s.jobs, Foreign(n)))
    case ForeignUnset(n) => s.(jobs := Without(s.jobs, Foreign(n)))
    case RunTop =>
      System(RunQueue(c, s, s.jobs[0]), s.jobs[1..], RunInputs(s, s.jobs[0]), s.lens)
  }

  // ---------------------------------------------------------------- every event keeps the invariant

  /** What an event does to the queue, as far as the inputs see it. */
  lemma QueueSendFacts(c: Q.Config, q: Q.Queue, f: Flow, len: nat)
    requires c.Valid() && Q.Inv(c, q) && Q.Enabled(c, q, Q.Send(f, len))
    ensures var r := Q.Step(c, q, Q.Send(f, len));
      && Q.Inv(c, r) && r.times.Keys == q.times.Keys && r.job == q.job
      && (forall g :: (g in r.queued || r.sending == Some(g)) <==> (g == f || g in q.queued || q.sending == Some(g)))
      && (q.job ==> r.sending.None? && f in r.queued && (forall g :: g in q.queued ==> g in r.queued)
                    && r.previous == (if q.previous == Some(f) then None else q.previous)
                    && (forall g :: g in q.times && g != f ==> r.times[g] == q.times[g])
                    && (q.previous == Some(f) ==> r.times[f] == q.times[f]))
  {
    Q.StepInv(c, q, Q.Send(f, len));
    Q.EnqueueInv(c, q, f, len);
    var r := Q.Enqueue(q, f, len);
    assert r.queued == [r.queued[0]] + r.queued[1..];
  }

  lemma QueueJobFacts(c: Q.Config, q: Q.Queue)
    requires c.Valid() && Q.Inv(c, q) && q.job
    ensures var r := Q.Step(c, q, Q.Job);
      && Q.Inv(c, r) && r.times.Keys == q.times.Keys && !r.job
      && (forall g :: (g in r.queued || r.sending == Some(g)) <==> (g in q.queued || q.sending == Some(g)))
      && (q.queued != [] ==> r.sending == Some(q.queued[0]))
  {
    Q.StepInv(c, q, Q.Job);
    assert q.queued != [] ==> q.queued == [q.queued[0]] + q.queued[1..];
  }

  lemma QueueDoneFacts(c: Q.Config, q: Q.Queue)
    requires c.Valid() && Q.Inv(c, q) && q.sending.Some?
    ensures var r := Q.Step(c, q, Q.Done);
      && Q.Inv(c, r) && r.times.Keys == q.times.Keys && r.job && r.sending.None? && r.previous == q.sending
      && r.queued == q.queued && q.sending.value !in r.queued
  {
    Q.StepInv(c, q, Q.Done);
    Q.IncrementedIs(c, q);
  }

  lemma SendingInput(c: Q.Config, s: System)
    requires Inv(c, s) && s.q.sending.Some?
    ensures var f := s.q.sending.value; f in s.inputs && f in s.lens && InputInv(c, s, f) && s.inputs[f].phase.Busy?
    ensures !s.q.job
  {
  }

  lemma InputFacts(c: Q.Config, s: System, f: Flow)
    requires Inv(c, s) && (f in s.inputs || Operation(f) in s.jobs || DoneOf(f) in s.jobs)
    ensures f in s.inputs && f in s.lens && InputInv(c, s, f) && s.lens[f] <= c.mtu && f in s.q.times
    ensures Operation(f) in s.jobs || s.inputs[f].phase.Idle? ==> f !in s.q.queued && s.q.sending != Some(f)
    ensures s.inputs[f].phase.Idle? ==> Operation(f) !in s.jobs && DoneOf(f) !in s.jobs
    ensures s.inputs[f].phase.Busy? ==> DoneOf(f) !in s.jobs
    ensures Cancel(f) !in s.jobs
  {
    assert f in s.inputs;
    assert InputInv(c, s, f);
  }

  lemma DoneJobs(jobs: seq<Job>, f: Flow)
    requires Schedule !in jobs && Cancel(f) !in jobs && DoneOf(f) !in jobs
    ensures B.Set(Without(B.Set(jobs, Schedule), Cancel(f)), DoneOf(f)) == [DoneOf(f), Schedule] + jobs
  {
    WithoutAbsent(jobs, Schedule);
    WithoutAbsent([Schedule] + jobs, Cancel(f));
    WithoutAbsent([Schedule] + jobs, DoneOf(f));
  }

  /** What happens to other jobs and other flows does not concern a flow. */
  lemma InputKept(c: Q.Config, s: System, r: System, g: Flow)
    requires g in s.inputs && g in s.lens && InputInv(c, s, g) && NoDup(r.jobs)
    requires g in r.inputs && g in r.lens && r.inputs[g] == s.inputs[g] && r.lens[g] == s.lens[g]
    requires forall j :: Ids(g).Own(j) ==> (j in r.jobs <==> j in s.jobs)
    requires (g in r.q.queued || r.q.sending == Some(g)) <==> (g in s.q.queued || s.q.sending == Some(g))
    ensures InputInv(c, r, g)
  {
    assert Ids(g).Own(Operation(g)) && Ids(g).Own(Cancel(g)) && Ids(g).Own(DoneOf(g));
  }

  lemma SendInv(c: Q.Config, s: System, f: Flow, len: nat)
    requires c.Valid() && Inv(c, s) && Enabled(c, s, SourceSends(f, len))
    ensures Inv(c, Step(c, s, SourceSends(f, len)))
  {
    var r := Step(c, s, SourceSends(f, len));
    assert InputInv(c, s, f);
    B.SetMembers(s.jobs, Operation(f));
    P.StepInv(Ids(f), false, Input(s, f), P.Send);
    hide Q.Inv, B.Set, NoDup, P.Inv;
    forall g | g in r.inputs ensures InputInv(c, r, g) {
      assert InputInv(c, s, g);
      if g != f { InputKept(c, s, r, g); }
    }
  }

  lemma OutputDoneInv(c: Q.Config, s: System)
    requires c.Valid() && Inv(c, s) && Enabled(c, s, OutputDone)
    ensures Inv(c, Step(c, s, OutputDone))
  {
    hide Q.Step, Q.Inv, NoDup, P.Inv, B.Set, Without;
    var r := Step(c, s, OutputDone);
    var f := s.q.sending.value;
    SendingInput(c, s);
    QueueDoneFacts(c, s.q);
    var jobs := B.Set(s.jobs, Schedule);
    B.SetMembers(s.jobs, Schedule);
    WithoutMembers(jobs, Cancel(f));
    B.SetMembers(Without(jobs, Cancel(f)), DoneOf(f));
    P.StepInv(Ids(f), false, Input(s, f), P.OtherSet(Schedule));
    P.StepInv(Ids(f), false, P.State(jobs, s.inputs[f]), P.Done);
    hide Q.Step, Q.Inv, B.Set, Without, NoDup, P.Inv;
    forall g | g in r.inputs ensures InputInv(c, r, g) {
      assert InputInv(c, s, g);
      if g != f { InputKept(c, s, r, g); }
    }
  }

  lemma ForeignInv(c: Q.Config, s: System, jobs: seq<Job>, n: nat)
    requires Inv(c, s) && NoDup(jobs)
    requires forall j :: j != Foreign(n) ==> (j in jobs <==> j in s.jobs)
    ensures Inv(c, s.(jobs := jobs))
  {
    hide Q.Inv, NoDup, P.Inv;
    forall g | g in s.inputs ensures InputInv(c, s.(jobs := jobs), g) {
      assert InputInv(c, s, g);
      InputKept(c, s, s.(jobs := jobs), g);
    }
  }

  /** The job on top of one flow. */
  lemma RunFlowJob(c: Q.Config, s: System)
    requires c.Valid() && Inv(c, s) && s.jobs != [] && (s.jobs[0].Operation? || s.jobs[0].DoneOf?)
    ensures var r, f := Step(c, s, RunTop), s.jobs[0].f;
      && Q.Inv(c, r.q) && r.q.job == s.q.job && r.q.times.Keys == s.q.times.Keys
      && f in r.inputs && f in r.lens && InputInv(c, r, f)
      && forall g :: g != f ==> ((g in r.q.queued || r.q.sending == Some(g)) <==> (g in s.q.queued || s.q.sending == Some(g)))
  {
    var job := s.jobs[0];
    assert InputInv(c, s, job.f);
    P.StepInv(Ids(job.f), false, Input(s, job.f), P.Run);
    if job.Operation? {
      QueueSendFacts(c, s.q, job.f, s.lens[job.f]);
    }
    hide Q.Step, Q.Inv;
  }

  lemma RunInv(c: Q.Config, s: System)
    requires c.Valid() && Inv(c, s) && Enabled(c, s, RunTop)
    ensures Inv(c, Step(c, s, RunTop))
  {
    hide Q.Step, Q.Inv, JobsKnown, InputInv, P.RunJob;
    var r := Step(c, s, RunTop);
    var job := s.jobs[0];
    P.RunMembers(s.jobs);
    JobsKnownTail(s.jobs, s.inputs.Keys);
    if job.Operation? || job.DoneOf? {
      RunFlowJob(c, s);
    } else if job.Schedule? {
      QueueJobFacts(c, s.q);
    }
    assert r.inputs.Keys == s.inputs.Keys;
    hide NoDup, P.Inv;
    forall g | g in r.inputs ensures InputInv(c, r, g) {
      assert InputInv(c, s, g);
      if !((job.Operation? || job.DoneOf?) && g == job.f) { InputKept(c, s, r, g); }
    }
  }

  lemma JobsKnownTail(jobs: seq<Job>, flows: set<Flow>)
    requires JobsKnown(jobs, flows) && jobs != []
    ensures JobsKnown(jobs[1..], flows) && !jobs[0].Cancel? && (jobs[0].Operation? || jobs[0].DoneOf? ==> jobs[0].f in flows)
  {
    assert jobs == [jobs[0]] + jobs[1..];
  }

  lemma StepInv(c: Q.Config, s: System, e: Event)
    requires c.Valid() && Inv(c, s) && Enabled(c, s, e)
    ensures Inv(c, Step(c, s, e))
  {
    match e
    case SourceSends(f, len) => SendInv(c, s, f, len);
    case OutputDone => OutputDoneInv(c, s);
    case ForeignSet(n) =>
      B.SetMembers(s.jobs, Foreign(n));
      ForeignInv(c, s, B.Set(s.jobs, Foreign(n)), n);
    case ForeignUnset(n) =>
      WithoutMembers(s.jobs, Foreign(n));
      ForeignInv(c, s, Without(s.jobs, Foreign(n)), n);
    case RunTop => RunInv(c, s);
  }

  // ---------------------------------------------------------------- a packet sent in time is seen

  /** a is pending above b. */
  predicate Above(jobs: seq<Job>, a: Job, b: Job) {
    && jobs != [] && jobs[0] != b
    && (if jobs[0] == a then b in jobs[1..] else Above(jobs[1..], a, b))
  }

  /** Flow f was the last to send and its source has sent again, but no decision was taken yet. */
  ghost predicate Resent(c: Q.Config, s: System, f: Flow, time: nat) {
    && Inv(c, s) && s.q.job && s.q.sending.None? && f in s.q.times && s.q.times[f] == time
    && (if f in s.q.queued then s.q.previous.None?
        else s.q.previous == Some(f) && Above(s.jobs, Operation(f), Schedule))
  }

  /** The events can happen from s, and none of them runs schedule_job. */
  ghost predicate Undecided(c: Q.Config, s: System, es: seq<Event>)
    requires c.Valid() && Inv(c, s)
    decreases |es|
  {
    es == [] ||
    (&& Enabled(c, s, es[0]) && (es[0].RunTop? ==> s.jobs[0] != Schedule)
     && (StepInv(c, s, es[0]); Undecided(c, Step(c, s, es[0]), es[1..])))
  }

  ghost function RunAll(c: Q.Config, s: System, es: seq<Event>): System
    requires c.Valid() && Inv(c, s) && Undecided(c, s, es)
    decreases |es|
  {
    if es == [] then s
    else
      StepInv(c, s, es[0]);
      RunAll(c, Step(c, s, es[0]), es[1..])
  }

  lemma {:induction false} StaysResent(c: Q.Config, s: System, f: Flow, time: nat, es: seq<Event>)
    requires c.Valid() && Resent(c, s, f, time) && Undecided(c, s, es)
    ensures Resent(c, RunAll(c, s, es), f, time)
    decreases |es|
  {
    if es != [] {
      StepInv(c, s, es[0]);
      StepResent(c, s, f, time, es[0]);
      StaysResent(c, Step(c, s, es[0]), f, time, es[1..]);
    }
  }

  lemma StepResent(c: Q.Config, s: System, f: Flow, time: nat, e: Event)
    requires c.Valid() && Resent(c, s, f, time) && Enabled(c, s, e) && (e.RunTop? ==> s.jobs[0] != Schedule)
    ensures Resent(c, Step(c, s, e), f, time)
  {
    hide Q.Step, Q.Inv, NoDup, P.Inv, B.Set, Without, JobsKnown, InputInv;
    StepInv(c, s, e);
    match e
    case SourceSends(g, len) =>
      InputFacts(c, s, g);
      if f !in s.q.queued {
        AboveMember(s.jobs, Operation(f), Schedule);
        SetKeepsAbove(s.jobs, Operation(g), Operation(f), Schedule);
      }
    case OutputDone =>
    case ForeignSet(n) => SetKeepsAbove(s.jobs, Foreign(n), Operation(f), Schedule);
    case ForeignUnset(n) => WithoutKeepsAbove(s.jobs, Foreign(n), Operation(f), Schedule);
    case RunTop => RunResent(c, s, f, time);
  }

  lemma RunResent(c: Q.Config, s: System, f: Flow, time: nat)
    requires c.Valid() && Resent(c, s, f, time) && s.jobs != [] && s.jobs[0] != Schedule
    ensures Inv(c, s) && Resent(c, Step(c, s, RunTop), f, time)
  {
    hide Q.Step, Q.Inv, NoDup, P.Inv, B.Set, Without, JobsKnown, InputInv;
    StepInv(c, s, RunTop);
    var job := s.jobs[0];
    P.RunMembers(s.jobs);
    if job.Operation? {
      InputFacts(c, s, job.f);
      QueueSendFacts(c, s.q, job.f, s.lens[job.f]);
    }
  }

  lemma {:induction false} WithoutKeepsAbove(jobs: seq<Job>, x: Job, a: Job, b: Job)
    requires NoDup(jobs) && x != a && x != b
    ensures Above(jobs, a, b) ==> Above(Without(jobs, x), a, b)
  {
    if jobs != [] {
      var rest := jobs[1..];
      assert NoDup(rest);
      hide NoDup;
      WithoutMembers(rest, x);
      WithoutKeepsAbove(rest, x, a, b);
      assert jobs[0] != x ==> Without(jobs, x)[1..] == Without(rest, x);
    }
  }

  lemma {:induction false} AboveMember(jobs: seq<Job>, a: Job, b: Job)
    requires Above(jobs, a, b)
    ensures a in jobs
  {
    if jobs[0] != a {
      AboveMember(jobs[1..], a, b);
    }
  }

  lemma SetKeepsAbove(jobs: seq<Job>, x: Job, a: Job, b: Job)
    requires NoDup(jobs) && x != a && x != b
    ensures Above(jobs, a, b) ==> Above(B.Set(jobs, x), a, b)
  {
    WithoutKeepsAbove(jobs, x, a, b);
    assert B.Set(jobs, x)[1..] == Without(jobs, x);
  }

  /** The packet of f is done and its source may send again, before the decision that is pending. */
  ghost predicate MayResend(c: Q.Config, s: System, f: Flow, time: nat) {
    && Inv(c, s) && s.q.job && s.q.sending.None? && f in s.q.times && s.q.times[f] == time
    && s.q.previous == Some(f) && f !in s.q.queued && Schedule in s.jobs
  }

  lemma ResentAfterSend(c: Q.Config, s: System, f: Flow, time: nat, es: seq<Event>)
    requires c.Valid() && MayResend(c, s, f, time) && Undecided(c, s, es)
    requires es != [] && es[0].SourceSends? && es[0].f == f
    ensures Resent(c, RunAll(c, s, es), f, time)
  {
    hide Q.Step, Q.Inv, NoDup, P.Inv, B.Set, Without, JobsKnown, InputInv;
    StepInv(c, s, es[0]);
    InputFacts(c, s, f);
    SetAbsent(s.jobs, Operation(f));
    StaysResent(c, Step(c, s, es[0]), f, time, es[1..]);
  }

  lemma SetAbsent(jobs: seq<Job>, x: Job)
    requires x !in jobs
    ensures B.Set(jobs, x) == [x] + jobs && ([x] + jobs)[1..] == jobs
  {
    WithoutAbsent(jobs, x);
  }

  /** The source sends again before another job runs, that is, from the handler that is running. */
  predicate SendsNow(f: Flow, es: seq<Event>) {
    && es != []
    && (if es[0].SourceSends? && es[0].f == f then true else !es[0].RunTop? && SendsNow(f, es[1..]))
  }

  /** Whenever its done handler is called, the source sends again from it. */
  ghost predicate Resends(c: Q.Config, s: System, f: Flow, es: seq<Event>)
    requires c.Valid() && Inv(c, s) && Undecided(c, s, es)
    decreases |es|
  {
    es == [] ||
    ((es[0].RunTop? && s.jobs[0] == DoneOf(f) ==> SendsNow(f, es[1..])) &&
     (StepInv(c, s, es[0]); Resends(c, Step(c, s, es[0]), f, es[1..])))
  }

  /** Until the source sends again, nothing changes that it depends on. */
  lemma StepMayResend(c: Q.Config, s: System, f: Flow, time: nat, e: Event)
    requires c.Valid() && MayResend(c, s, f, time) && Enabled(c, s, e) && (e.RunTop? ==> s.jobs[0] != Schedule)
    requires Operation(f) !in s.jobs && !(e.SourceSends? && e.f == f)
    ensures MayResend(c, Step(c, s, e), f, time) && Operation(f) !in Step(c, s, e).jobs
  {
    hide Q.Step, Q.Inv, NoDup, P.Inv, B.Set, Without, JobsKnown, InputInv;
    StepInv(c, s, e);
    match e
    case SourceSends(g, len) =>
      InputFacts(c, s, g);
      B.SetMembers(s.jobs, Operation(g));
    case OutputDone =>
    case ForeignSet(n) => B.SetMembers(s.jobs, Foreign(n));
    case ForeignUnset(n) => WithoutMembers(s.jobs, Foreign(n));
    case RunTop =>
      var job := s.jobs[0];
      P.RunMembers(s.jobs);
      if job.Operation? {
        InputFacts(c, s, job.f);
        QueueSendFacts(c, s.q, job.f, s.lens[job.f]);
      }
  }

  /** The done handler is running, and the source sends again from it. */
  lemma {:induction false} ResentFromHandler(c: Q.Config, s: System, f: Flow, time: nat, es: seq<Event>)
    requires c.Valid() && MayResend(c, s, f, time) && Undecided(c, s, es) && Operation(f) !in s.jobs && SendsNow(f, es)
    ensures Resent(c, RunAll(c, s, es), f, time)
    decreases |es|
  {
    hide MayResend, Resent, Inv, Step, Enabled;
    MayResendInv(c, s, f, time);
    if es[0].SourceSends? && es[0].f == f {
      ResentAfterSend(c, s, f, time, es);
    } else {
      StepInv(c, s, es[0]);
      StepMayResend(c, s, f, time, es[0]);
      ResentFromHandler(c, Step(c, s, es[0]), f, time, es[1..]);
    }
  }

  lemma MayResendInv(c: Q.Config, s: System, f: Flow, time: nat)
    requires MayResend(c, s, f, time)
    ensures Inv(c, s) && s.q.sending.None?
  {
  }

  /** The done job is above the decision, or the source has sent again. */
  lemma {:induction false} ResentInTime(c: Q.Config, s: System, f: Flow, time: nat, es: seq<Event>)
    requires c.Valid() && MayResend(c, s, f, time) && Undecided(c, s, es) && Resends(c, s, f, es)
    requires Above(s.jobs, DoneOf(f), Schedule)
    ensures var r := RunAll(c, s, es); Resent(c, r, f, time) || Above(r.jobs, DoneOf(f), Schedule)
    decreases |es|
  {
    hide MayResend, Resent, Inv, Step, Enabled, SendsNow, Above;
    MayResendInv(c, s, f, time);
    if es != [] {
      var e := es[0];
      StepInv(c, s, e);
      DonePending(c, s, f, e);
      StepMayResend(c, s, f, time, e);
      if e.RunTop? && s.jobs[0] == DoneOf(f) {
        ResentFromHandler(c, Step(c, s, e), f, time, es[1..]);
      } else {
        StepWaits(c, s, f, e);
        ResentInTime(c, Step(c, s, e), f, time, es[1..]);
      }
    }
  }

  /** Then the source has not sent again and cannot yet. */
  lemma DonePending(c: Q.Config, s: System, f: Flow, e: Event)
    requires Inv(c, s) && Above(s.jobs, DoneOf(f), Schedule)
    ensures Operation(f) !in s.jobs && s.jobs != []
    ensures Enabled(c, s, e) ==> !(e.SourceSends? && e.f == f)
  {
    AboveMember(s.jobs, DoneOf(f), Schedule);
    assert InputInv(c, s, f);
  }

  /** The done job stays above the decision until it runs. */
  lemma StepWaits(c: Q.Config, s: System, f: Flow, e: Event)
    requires c.Valid() && Inv(c, s) && Above(s.jobs, DoneOf(f), Schedule) && s.q.sending.None? && Enabled(c, s, e)
    requires e.RunTop? ==> s.jobs[0] != DoneOf(f)
    ensures Above(Step(c, s, e).jobs, DoneOf(f), Schedule)
  {
    hide Q.Step, Q.Inv, NoDup, P.Inv, B.Set, Without, JobsKnown, InputInv;
    match e
    case SourceSends(g, len) => SetKeepsAbove(s.jobs, Operation(g), DoneOf(f), Schedule);
    case OutputDone =>
    case ForeignSet(n) => SetKeepsAbove(s.jobs, Foreign(n), DoneOf(f), Schedule);
    case ForeignUnset(n) => WithoutKeepsAbove(s.jobs, Foreign(n), DoneOf(f), Schedule);
    case RunTop =>
  }

  lemma DoneOnTop(c: Q.Config, s: System)
    requires c.Valid() && Inv(c, s) && s.q.sending.Some?
    ensures var f, r := s.q.sending.value, Step(c, s, OutputDone);
      && r.jobs == [DoneOf(f), Schedule] + s.jobs && f in r.q.times && MayResend(c, r, f, r.q.times[f])
  {
    hide Q.Inv, NoDup, P.Inv, B.Set, Without, JobsKnown, InputInv;
    StepInv(c, s, OutputDone);
    var f := s.q.sending.value;
    SendingInput(c, s);
    InputFacts(c, s, f);
    QueueDoneFacts(c, s.q);
    hide Q.Step;
    DoneJobs(s.jobs, f);
  }

  /**
   * A source that sends again from its done handler is taken into account: whatever else happens,
   * before the handler is called, in it or after it, when the next decision is taken the flow is
   * queued, with the time its last packet brought it to, so that the decision is for the first flow
   * of a queue that has this one in it.
   */
  lemma ResendIsSeen(c: Q.Config, s: System, f: Flow, es: seq<Event>)
    requires c.Valid() && Inv(c, s) && s.q.sending == Some(f) && Undecided(c, s, es)
    requires es != [] && es[0] == OutputDone && Resends(c, s, f, es)
    ensures var done, r := Step(c, s, OutputDone).q, RunAll(c, s, es);
      r.jobs != [] && r.jobs[0] == Schedule ==>
        && f in done.times && f in r.q.queued && f in r.q.times && r.q.times[f] == done.times[f]
        && Inv(c, r) && Step(c, r, RunTop).q.sending == Some(r.q.queued[0])
  {
    hide Q.Step, Q.Inv, NoDup, P.Inv, B.Set, Without, JobsKnown, InputInv;
    var done, r := Step(c, s, OutputDone), RunAll(c, s, es);
    DoneOnTop(c, s);
    StepInv(c, s, OutputDone);
    ResentInTime(c, done, f, done.q.times[f], es[1..]);
    if r.jobs != [] && r.jobs[0] == Schedule {
      QueueJobFacts(c, r.q);
    }
  }
}
