/**
 * The handshake of PacketPassInterface as a value: its state, its three jobs on the list of
 * pending jobs, and what is counted of its calls. The rest of the program may set, unset and run
 * other jobs at any time.
 */
module PacketPassModel {
  import opened BPending
  import opened Lists

  /** PPI_STATE_NONE, PPI_STATE_OPERATION_PENDING, PPI_STATE_BUSY, PPI_STATE_DONE_PENDING */
  datatype Phase = Idle | OperationPending | Busy | DonePending

  /**
   * sends counts the calls of Sender_Send and dones those of the done handler; cancels counts the
   * calls of the cancel handler since the last Sender_Send.
   */
  datatype Handshake = Handshake(phase: Phase, cancelRequested: bool, sends: nat, dones: nat, cancels: nat)

  const START := Handshake(Idle, false, 0, 0, 0)

  datatype Ids<J(==)> = Ids(operation: J, requestCancel: J, done: J) {
    ghost predicate Distinct() {
      operation != requestCancel && operation != done && requestCancel != done
    }

    predicate Own(j: J) {
      j == operation || j == requestCancel || j == done
    }
  }

  datatype State<J> = State(jobs: seq<J>, h: Handshake)

  datatype Event<J> = Send | RequestCancel | Done | Run | OtherSet(job: J) | OtherUnset(job: J)

  /** What is asserted of the callers; Run is the execution of the job on top. */
  predicate Enabled<J(==)>(ids: Ids<J>, hasCancel: bool, s: State<J>, e: Event<J>) {
    match e
    case Send => s.h.phase.Idle?
    case RequestCancel => !s.h.phase.Idle? && hasCancel
    case Done => s.h.phase.Busy?
    case Run => s.jobs != []
    case OtherSet(j) => !ids.Own(j)
    case OtherUnset(j) => !ids.Own(j)
  }

  function Cancelled<J(==)>(ids: Ids<J>, s: State<J>): State<J> {
    if s.h.cancelRequested then s
    else
      var h := s.h.(cancelRequested := true);
      if h.phase.OperationPending? then State(Set(Without(s.jobs, ids.operation), ids.done), h.(phase := DonePending))
      else if h.phase.Busy? then State(Set(s.jobs, ids.requestCancel), h)
      else State(s.jobs, h)
  }

  /** What the execution of a job does to the handshake before the handler is called. */
  function RunJob<J(==)>(ids: Ids<J>, h: Handshake, job: J): Handshake {
    if job == ids.operation then h.(phase := Busy)
    else if job == ids.requestCancel then h.(cancels := h.cancels + 1)
    else if job == ids.done then h.(phase := Idle, dones := h.dones + 1)
    else h
  }

  function Step<J(==)>(ids: Ids<J>, s: State<J>, e: Event<J>): State<J>
    requires e.Run? ==> s.jobs != []
  {
    match e
    case Send => State(Set(s.jobs, ids.operation), Handshake(OperationPending, false, s.h.sends + 1, s.h.dones, 0))
    case RequestCancel => Cancelled(ids, s)
    case Done => State(Set(Without(s.jobs, ids.requestCancel), ids.done), s.h.(phase := DonePending))
    case Run => State(s.jobs[1..], RunJob(ids, s.h, s.jobs[0]))
    case OtherSet(j) => s.(jobs := Set(s.jobs, j))
    case OtherUnset(j) => s.(jobs := Without(s.jobs, j))
  }

  /** The pending jobs are those the state asks for, and every Send but the last has had its done. */
  ghost predicate Inv<J>(ids: Ids<J>, s: State<J>) {
    && NoDup(s.jobs)
    && (ids.operation in s.jobs <==> s.h.phase.OperationPending?)
    && (ids.done in s.jobs <==> s.h.phase.DonePending?)
    && (ids.requestCancel in s.jobs ==> s.h.phase.Busy? && s.h.cancelRequested)
    && s.h.sends == s.h.dones + (if s.h.phase.Idle? then 0 else 1)
    && s.h.cancels + (if ids.requestCancel in s.jobs then 1 else 0) <= (if s.h.cancelRequested then 1 else 0)
  }

  lemma RunMembers<J>(jobs: seq<J>)
    requires NoDup(jobs) && jobs != []
    ensures NoDup(jobs[1..])
    ensures forall j :: j in jobs[1..] <==> j in jobs && j != jobs[0]
  {
    assert jobs == [jobs[0]] + jobs[1..];
  }

  lemma StepInv<J>(ids: Ids<J>, hasCancel: bool, s: State<J>, e: Event<J>)
    requires ids.Distinct() && Inv(ids, s) && Enabled(ids, hasCancel, s, e)
    ensures Inv(ids, Step(ids, s, e))
  {
    hide NoDup, Without, Set;
    match e
    case Send =>
      SetMembers(s.jobs, ids.operation);
    case RequestCancel =>
      WithoutMembers(s.jobs, ids.operation);
      SetMembers(Without(s.jobs, ids.operation), ids.done);
      SetMembers(s.jobs, ids.requestCancel);
    case Done =>
      WithoutMembers(s.jobs, ids.requestCancel);
      SetMembers(Without(s.jobs, ids.requestCancel), ids.done);
    case Run =>
      RunMembers(s.jobs);
    case OtherSet(j) =>
      SetMembers(s.jobs, j);
    case OtherUnset(j) =>
      WithoutMembers(s.jobs, j);
  }

  ghost predicate AllEnabled<J>(ids: Ids<J>, hasCancel: bool, s: State<J>, es: seq<Event<J>>)
    decreases |es|
  {
    es == [] || (Enabled(ids, hasCancel, s, es[0]) && AllEnabled(ids, hasCancel, Step(ids, s, es[0]), es[1..]))
  }

  ghost function RunAll<J>(ids: Ids<J>, hasCancel: bool, s: State<J>, es: seq<Event<J>>): State<J>
    requires AllEnabled(ids, hasCancel, s, es)
    decreases |es|
  {
    if es == [] then s else RunAll(ids, hasCancel, Step(ids, s, es[0]), es[1..])
  }

  /**
   * In any run, whatever other jobs are set, unset and run in between: every Send gets at most one
   * done and the next Send comes after it, the cancel handler is called at most once for it, and
   * the job that will bring the done or the packet is pending whenever it has to be.
   */
  lemma {:induction false} OneDonePerSend<J>(ids: Ids<J>, hasCancel: bool, s: State<J>, es: seq<Event<J>>)
    requires ids.Distinct() && Inv(ids, s) && AllEnabled(ids, hasCancel, s, es)
    ensures var r := RunAll(ids, hasCancel, s, es);
      && Inv(ids, r) && r.h.dones <= r.h.sends <= r.h.dones + 1 && r.h.cancels <= 1
      && r.h.sends - r.h.dones == (if r.h.phase.Idle? then 0 else 1)
    decreases |es|
  {
    if es != [] {
      StepInv(ids, hasCancel, s, es[0]);
      OneDonePerSend(ids, hasCancel, Step(ids, s, es[0]), es[1..]);
    }
  }

  lemma StartInv<J>(ids: Ids<J>, jobs: seq<J>)
    requires NoDup(jobs) && forall i :: 0 <= i < |jobs| ==> !ids.Own(jobs[i])
    ensures Inv(ids, State(jobs, START))
  {
  }
}
