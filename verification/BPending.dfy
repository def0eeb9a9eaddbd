/**
 * The list of pending jobs. Setting a job puts it on top, also when it was already pending, and
 * the job on top is executed first.
 */
module BPending {
  import opened Lists

  /** BSmallPending_Set and BSmallPending_Unset, on the list of jobs. */
  function Set<T(==)>(jobs: seq<T>, job: T): seq<T> {
    [job] + Without(jobs, job)
  }

  /** The next field of a job that is not pending points to the job itself. */
  class Job {
    var selfLinked: bool

    constructor ()
      ensures selfLinked
    {
      selfLinked := true;
    }
  }

  class PendingGroup {
    var jobs: seq<Job>

    /** A job is on the list exactly if it is not marked as not pending. */
    ghost predicate Valid(known: set<Job>)
      reads this, known
    {
      && NoDup(jobs)
      && (forall j :: j in jobs ==> j in known)
      && (forall j :: j in known ==> (j in jobs <==> !j.selfLinked))
    }

    constructor ()
      ensures Valid({}) && jobs == []
    {
      jobs := [];
    }

    method IsSet(job: Job, ghost known: set<Job>) returns (r: bool)
      requires Valid(known) && job in known
      ensures r <==> job in jobs
    {
      r := !job.selfLinked;
    }

    method SetJob(job: Job, ghost known: set<Job>)
      requires Valid(known) && job in known
      modifies this, job
      ensures Valid(known) && jobs == Set(old(jobs), job)
    {
      WithoutMembers(jobs, job);
      if !job.selfLinked {
        jobs := Without(jobs, job);
      } else {
        WithoutAbsent(jobs, job);
      }
      jobs := [job] + jobs;
      job.selfLinked := false;
    }

    method UnsetJob(job: Job, ghost known: set<Job>)
      requires Valid(known) && job in known
      modifies this, job
      ensures Valid(known) && jobs == Without(old(jobs), job)
    {
      WithoutMembers(jobs, job);
      if !job.selfLinked {
        jobs := Without(jobs, job);
        job.selfLinked := true;
      } else {
        WithoutAbsent(jobs, job);
      }
    }

    /** The part of BPendingGroup_ExecuteJob before the call of the handler. */
    method ExecuteJob(ghost known: set<Job>) returns (job: Job)
      requires Valid(known) && jobs != []
      modifies this, known
      ensures Valid(known) && old(jobs) == [job] + jobs && job in known && job.selfLinked
    {
      job := jobs[0];
      WithoutMembers(jobs, job);
      jobs := jobs[1..];
      job.selfLinked := true;
    }
  }

  // ---------------------------------------------------------------- last in, first out

  datatype Op<T> = Push(job: T) | Drop(job: T) | Run

  function Apply<T(==)>(jobs: seq<T>, op: Op<T>): seq<T>
    requires op.Run? ==> jobs != []
  {
    match op
    case Push(j) => Set(jobs, j)
    case Drop(j) => Without(jobs, j)
    case Run => jobs[1..]
  }

  /** The operations can be carried out from jobs, and each Run finds a job above those in below. */
  ghost predicate RunsAbove<T>(jobs: seq<T>, below: seq<T>, ops: seq<Op<T>>)
    decreases |ops|
  {
    ops == [] ||
    (&& (ops[0].Run? ==> |jobs| > |below|)
     && (!ops[0].Run? ==> ops[0].job !in below)
     && RunsAbove(Apply(jobs, ops[0]), below, ops[1..]))
  }

  function ApplyAll<T(==)>(jobs: seq<T>, ops: seq<Op<T>>, below: seq<T>): seq<T>
    requires RunsAbove(jobs, below, ops)
    decreases |ops|
  {
    if ops == [] then jobs else ApplyAll(Apply(jobs, ops[0]), ops[1..], below)
  }

  /** The jobs of below are pending, in this order, under all others. */
  ghost predicate Waits<T>(jobs: seq<T>, below: seq<T>) {
    NoDup(jobs) && |below| <= |jobs| && jobs[|jobs| - |below|..] == below
  }

  /**
   * Whatever is set above pending jobs runs before them: as long as there is a job above the jobs
   * of below to run, those stay where they are, in their order.
   */
  lemma {:induction false} LaterJobsRunFirst<T>(jobs: seq<T>, below: seq<T>, ops: seq<Op<T>>)
    requires Waits(jobs, below)
    requires RunsAbove(jobs, below, ops)
    ensures Waits(ApplyAll(jobs, ops, below), below)
    decreases |ops|
  {
    hide Waits, Apply;
    if ops != [] {
      OneOpAbove(jobs, below, ops[0]);
      LaterJobsRunFirst(Apply(jobs, ops[0]), below, ops[1..]);
    }
  }

  lemma SetMembers<T>(jobs: seq<T>, job: T)
    requires NoDup(jobs)
    ensures NoDup(Set(jobs, job))
    ensures forall j :: j in Set(jobs, job) <==> j in jobs || j == job
  {
    WithoutMembers(jobs, job);
    var r := Without(jobs, job);
    assert forall i :: 0 <= i < |r| ==> r[i] in r;
  }

  lemma OneOpAbove<T>(jobs: seq<T>, below: seq<T>, op: Op<T>)
    requires Waits(jobs, below)
    requires if op.Run? then |jobs| > |below| else op.job !in below
    ensures Waits(Apply(jobs, op), below)
  {
    var above := jobs[..|jobs| - |below|];
    assert jobs == above + below;
    if op.Run? {
      assert jobs[1..] == above[1..] + below;
    } else {
      WithoutMembers(jobs, op.job);
      SetMembers(jobs, op.job);
      WithoutAbove(above, below, op.job);
      assert Set(jobs, op.job) == ([op.job] + Without(above, op.job)) + below;
    }
  }

  lemma {:induction false} WithoutAbove<T>(above: seq<T>, below: seq<T>, x: T)
    requires x !in below
    ensures Without(above + below, x) == Without(above, x) + below
  {
    if above == [] {
      WithoutAbsent(below, x);
      assert above + below == below;
    } else {
      WithoutAbove(above[1..], below, x);
      assert (above + below)[1..] == above[1..] + below;
    }
  }
}
