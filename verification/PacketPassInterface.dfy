/**
 * PacketPassInterface: one sender, one provider, and three jobs. Handlers are not called from
 * here: an operation that ends in a call of a handler ends where the call would be.
 */
module PacketPassInterface {
  import opened BPending
  import opened Lists
  import opened PacketPassModel

  class Interface<Data(0)> {
    const mtu: nat
    const group: PendingGroup
    const jobOperation: Job
    const jobRequestcancel: Job
    const jobDone: Job
    var hasCancel: bool
    var hasUser: bool
    var jobOperationData: Data
    var jobOperationLen: nat
    var state: Phase
    var cancelRequested: bool
    // what is counted of the calls
    ghost var sends: nat
    ghost var dones: nat
    ghost var cancels: nat

    ghost function JobIds(): Ids<Job> {
      Ids(jobOperation, jobRequestcancel, jobDone)
    }

    ghost function View(): State<Job>
      reads this, group
    {
      State(group.jobs, Handshake(state, cancelRequested, sends, dones, cancels))
    }

    ghost predicate Valid(known: set<Job>)
      reads this, group, known
    {
      && group.Valid(known) && {jobOperation, jobRequestcancel, jobDone} <= known
      && JobIds().Distinct() && Inv(JobIds(), View())
    }

    constructor (mtu: nat, group: PendingGroup, jobOperation: Job, jobRequestcancel: Job, jobDone: Job, ghost known: set<Job>)
      requires group.Valid(known) && {jobOperation, jobRequestcancel, jobDone} <= known
      requires jobOperation != jobRequestcancel && jobOperation != jobDone && jobRequestcancel != jobDone
      requires jobOperation.selfLinked && jobRequestcancel.selfLinked && jobDone.selfLinked
      ensures Valid(known) && this.mtu == mtu && this.group == group && View() == State(group.jobs, START)
      ensures JobIds() == Ids(jobOperation, jobRequestcancel, jobDone) && !hasCancel && !hasUser
    {
      this.mtu, this.group := mtu, group;
      this.jobOperation, this.jobRequestcancel, this.jobDone := jobOperation, jobRequestcancel, jobDone;
      hasCancel, hasUser := false, false;
      jobOperationLen := 0;
      state, cancelRequested := Idle, false;
      sends, dones, cancels := 0, 0, 0;
    }

    method EnableCancel()
      requires !hasCancel && !hasUser
      modifies this`hasCancel
      ensures hasCancel
    {
      hasCancel := true;
    }

    method SenderInit()
      requires !hasUser
      modifies this`hasUser
      ensures hasUser
    {
      hasUser := true;
    }

    method SenderSend(data: Data, dataLen: nat, ghost known: set<Job>)
      requires Valid(known) && hasUser && dataLen <= mtu
      requires Enabled(JobIds(), hasCancel, View(), Send)
      modifies this, group, known
      ensures Valid(known) && hasUser && hasCancel == old(hasCancel)
      ensures View() == Step(JobIds(), old(View()), Send)
      ensures jobOperationData == data && jobOperationLen == dataLen
    {
      StepInv(JobIds(), hasCancel, View(), Send);
      jobOperationData := data;
      jobOperationLen := dataLen;
      group.SetJob(jobOperation, known);
      state := OperationPending;
      cancelRequested := false;
      sends, cancels := sends + 1, 0;
    }

    method SenderRequestCancel(ghost known: set<Job>)
      requires Valid(known) && Enabled(JobIds(), hasCancel, View(), RequestCancel)
      modifies this, group, known
      ensures Valid(known) && hasUser == old(hasUser) && hasCancel
      ensures View() == Step(JobIds(), old(View()), RequestCancel)
    {
      StepInv(JobIds(), hasCancel, View(), RequestCancel);
      if cancelRequested {
        return;
      }
      cancelRequested := true;
      if state.OperationPending? {
        group.UnsetJob(jobOperation, known);
        group.SetJob(jobDone, known);
        state := DonePending;
      } else if state.Busy? {
        group.SetJob(jobRequestcancel, known);
      }
    }

    /** PacketPassInterface_Done, called by the provider */
    method Done(ghost known: set<Job>)
      requires Valid(known) && Enabled(JobIds(), hasCancel, View(), Event.Done)
      modifies this, group, known
      ensures Valid(known) && hasUser == old(hasUser) && hasCancel == old(hasCancel)
      ensures View() == Step(JobIds(), old(View()), Event.Done)
    {
      StepInv(JobIds(), hasCancel, View(), Event.Done);
      group.UnsetJob(jobRequestcancel, known);
      group.SetJob(jobDone, known);
      state := DonePending;
    }

    /** The execution of the job on top when it is a job of this interface. */
    method ExecuteOwnJob(ghost known: set<Job>)
      requires Valid(known) && group.jobs != [] && JobIds().Own(group.jobs[0])
      modifies this, group, known
      ensures Valid(known) && hasUser == old(hasUser) && hasCancel == old(hasCancel)
      ensures View() == Step(JobIds(), old(View()), Event.Run)
    {
      StepInv(JobIds(), hasCancel, View(), Event.Run);
      var job := group.ExecuteJob(known);
      if job == jobOperation {
        assert state.OperationPending?;
        state := Busy;
      } else if job == jobRequestcancel {
        assert state.Busy? && cancelRequested;
        cancels := cancels + 1;
      } else {
        assert state.DonePending?;
        state := Idle;
        dones := dones + 1;
      }
    }

    /**
     * The first packet of a new user, which may cancel it: the provider gets it, is perhaps asked to
     * cancel, and is done with it. Each handler is called once, and no other pending job is touched.
     */
    method FirstPacket(data: Data, dataLen: nat, cancel: bool, ghost known: set<Job>)
      requires Valid(known) && !hasCancel && !hasUser && state.Idle? && dataLen <= mtu
      modifies this, group, known
      ensures Valid(known) && hasUser && hasCancel && state.Idle? && group.jobs == old(group.jobs)
      ensures sends == old(sends) + 1 && dones == old(dones) + 1 && cancels == if cancel then 1 else 0
    {
      hide Inv, Enabled;
      EnableCancel();
      SenderInit();
      HandOver(data, dataLen, known);
      if cancel {
        CancelOnce(known);
      }
      Finish(known);
    }

    method HandOver(data: Data, dataLen: nat, ghost known: set<Job>)
      requires Valid(known) && hasUser && state.Idle? && dataLen <= mtu
      modifies this, group, known
      ensures Valid(known) && hasUser && hasCancel == old(hasCancel) && group.jobs == old(group.jobs)
      ensures state.Busy? && !cancelRequested && sends == old(sends) + 1 && dones == old(dones) && cancels == 0
      ensures jobRequestcancel !in group.jobs
    {
      hide Set, Without, NoDup;
      OnTop(group.jobs, jobOperation);
      SenderSend(data, dataLen, known);
      ExecuteOwnJob(known);
    }

    method CancelOnce(ghost known: set<Job>)
      requires Valid(known) && hasCancel && state.Busy? && !cancelRequested
      modifies this, group, known
      ensures Valid(known) && hasUser == old(hasUser) && hasCancel && group.jobs == old(group.jobs)
      ensures state.Busy? && sends == old(sends) && dones == old(dones) && cancels == old(cancels) + 1
      ensures jobRequestcancel !in group.jobs
    {
      hide Set, Without, NoDup;
      OnTop(group.jobs, jobRequestcancel);
      SenderRequestCancel(known);
      ExecuteOwnJob(known);
    }

    method Finish(ghost known: set<Job>)
      requires Valid(known) && state.Busy? && jobRequestcancel !in group.jobs
      modifies this, group, known
      ensures Valid(known) && hasUser == old(hasUser) && hasCancel == old(hasCancel) && group.jobs == old(group.jobs)
      ensures state.Idle? && sends == old(sends) && dones == old(dones) + 1 && cancels == old(cancels)
    {
      hide Set, Without, NoDup;
      WithoutAbsent(group.jobs, jobRequestcancel);
      OnTop(group.jobs, jobDone);
      Done(known);
      ExecuteOwnJob(known);
    }
  }

  lemma OnTop(jobs: seq<Job>, job: Job)
    requires job !in jobs
    ensures Set(jobs, job) == [job] + jobs && ([job] + jobs)[1..] == jobs
  {
    WithoutAbsent(jobs, job);
  }
}
