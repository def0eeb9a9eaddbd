/**
 * PacketPassFairQueue: flow objects with their times, the list of all flows and the tree of the
 * queued ones.
 *
 * Every handler is proved against the functions of FairQueueModel. The ghost field `q` is the
 * value those functions are about; a flow object is known in it by its address, which is also what
 * compare_flows falls back to between flows of the same time.
 */
module PacketPassFairQueue {
  import opened Bytes
  import opened FairQueueModel
  import opened Lists

  type uint64 = x: int | 0 <= x < WORD

  class QueueFlow {
    const address: nat
    var time: uint64
    var isQueued: bool
    var dataLen: nat

    constructor (address: nat)
      ensures this.address == address && time == 0 && !isQueued && dataLen == 0
    {
      this.address, time, isQueued, dataLen := address, 0, false, 0;
    }
  }

  class FairQueue {
    const packetWeight: nat
    const mtu: nat
    var sendingFlow: QueueFlow?
    var sendingLen: nat
    var previousFlow: QueueFlow?
    // the entries of the tree in order
    var queuedTree: seq<QueueFlow>
    var flowsList: seq<QueueFlow>
    var freeing: bool
    var scheduleJob: bool
    ghost var q: Queue

    ghost function Cfg(): Config { Config(packetWeight, mtu) }

    static ghost function AddressOf(f: QueueFlow?): Option<Flow> {
      if f == null then None else Some(f.address)
    }

    /** Every flow is on the list once, with the time and length q gives it. */
    ghost predicate ListTied()
      reads `q, `flowsList, flowsList
    {
      && q.lens.Keys == q.times.Keys
      && Distinct(flowsList)
      && (forall i :: 0 <= i < |flowsList| ==>
            && flowsList[i].address in q.times && q.times[flowsList[i].address] == flowsList[i].time
            && q.lens[flowsList[i].address] == flowsList[i].dataLen)
      && MarksTied(flowsList, q.queued)
      && (forall a :: a in q.times ==> Listed(flowsList, a))
    }

    static ghost predicate MarksTied(list: seq<QueueFlow>, queued: seq<Flow>)
      reads list`isQueued
    {
      forall i :: 0 <= i < |list| ==> (list[i].isQueued <==> list[i].address in queued)
    }

    lemma ListFacts()
      requires ListTied()
      ensures Distinct(flowsList)
      ensures forall i :: 0 <= i < |flowsList| ==> flowsList[i].address in q.times
      ensures forall a :: a in q.times ==> Listed(flowsList, a)
    {
    }

    ghost predicate TreeTied()
      reads this
    {
      && TreeIs(queuedTree, flowsList, q.queued)
      && (sendingFlow != null ==> sendingFlow in flowsList) && q.sending == AddressOf(sendingFlow)
      && (previousFlow != null ==> previousFlow in flowsList) && q.previous == AddressOf(previousFlow)
      && q.sendingLen == sendingLen && q.job == scheduleJob
    }

    /** The entries of the tree are flows of the list, and are queued. */
    static ghost predicate TreeIs(tree: seq<QueueFlow>, list: seq<QueueFlow>, queued: seq<Flow>) {
      |tree| == |queued| && forall i :: 0 <= i < |tree| ==> tree[i] in list && tree[i].address == queued[i]
    }

    ghost predicate Tied()
      reads this, flowsList
    {
      ListTied() && TreeTied()
    }

    ghost predicate Valid()
      reads this, flowsList
    {
      !freeing && Tied() && Cfg().Valid() && Inv(Cfg(), q)
    }

    /** After PrepareFree only flows may be freed, the sending one too; the order of times does not matter any more. */
    ghost predicate Ending()
      reads this, flowsList
    {
      freeing && Tied() && NoDup(q.queued)
    }

    constructor (packetWeight: nat, mtu: nat)
      requires Config(packetWeight, mtu).Valid()
      ensures Valid() && Cfg() == Config(packetWeight, mtu) && q == EMPTY
    {
      this.packetWeight, this.mtu := packetWeight, mtu;
      sendingFlow, sendingLen, previousFlow, queuedTree, flowsList, freeing, scheduleJob := null, 0, null, [], [], false, false;
      q := EMPTY;
    }

    method GetCurrentTime() returns (time: uint64)
      requires Tied() && Shaped(q)
      ensures time == CurrentTime(q)
    {
      if sendingFlow != null {
        return sendingFlow.time;
      }
      time := 0;
      var have := false;
      if queuedTree != [] {
        time := queuedTree[0].time;
        have := true;
      }
      if previousFlow != null {
        if !have || previousFlow.time < time {
          time := previousFlow.time;
          have := true;
        }
      }
    }
  
    /** The loop of increment_sent_flow over all flows. */
    method SubtractFromAll(flow: QueueFlow, subtract: uint64)
      requires ListTied() && InRange(q.times) && flow in flowsList
      modifies flowsList, this`q
      ensures ListTied() && q == old(q).(times := Shifted(old(q).times, flow.address, subtract))
    {
      hide ListTied, Shifted, Progress;
      ghost var goal := Shifted(q.times, flow.address, subtract);
      var i := 0;
      ListFacts();
      ProgressStart(flowsList, q, goal);
      while i < |flowsList|
        invariant 0 <= i <= |flowsList| && ListTied() && q == old(q).(times := q.times)
        invariant Progress(flowsList, q.times, old(q).times, goal, i)
      {
        SubtractFromOne(i, flow, subtract, old(q).times, goal);
        i := i + 1;
      }
      ListFacts();
      ProgressEnd(flowsList, q, old(q).times, goal);
    }

    method SubtractFromOne(i: nat, flow: QueueFlow, subtract: uint64, ghost was: map<Flow, nat>, ghost goal: map<Flow, nat>)
      requires ListTied() && i < |flowsList| && flow in flowsList
      requires InRange(was) && goal == Shifted(was, flow.address, subtract)
      requires Progress(flowsList, q.times, was, goal, i)
      modifies flowsList, this`q
      ensures ListTied() && q == old(q).(times := q.times) && Progress(flowsList, q.times, was, goal, i + 1)
    {
      hide ListTied, Progress;
      var someflow := flowsList[i];
      FlowFacts(i, flow);
      ProgressNow(flowsList, q.times, was, goal, i);
      ProgressStep(flowsList, q.times, was, goal, i);
      if subtract > someflow.time && someflow != flow {
        SetTime(someflow, i, 0);
      } else {
        SetTime(someflow, i, if subtract <= someflow.time then someflow.time - subtract else someflow.time - subtract + WORD);
      }
    }

    lemma FlowFacts(i: nat, flow: QueueFlow)
      requires ListTied() && i < |flowsList| && flow in flowsList
      ensures flowsList[i].address in q.times && q.times[flowsList[i].address] == flowsList[i].time
      ensures flowsList[i] == flow <==> flowsList[i].address == flow.address
    {
      var k :| 0 <= k < |flowsList| && flowsList[k] == flow;
    }

    method SetTime(flow: QueueFlow, ghost i: nat, t: uint64)
      requires ListTied() && i < |flowsList| && flow == flowsList[i]
      modifies flow`time, this`q
      ensures ListTied() && q == old(q).(times := old(q).times[flow.address := t]) && flow.time == t
      ensures flow.isQueued == old(flow.isQueued)
    {
      hide MarksTied, Listed;
      flow.time := t;
      q := q.(times := q.times[flow.address := t]);
    }

    /** increment_sent_flow */
    method IncrementSentFlow(flow: QueueFlow, amount: nat)
      requires Tied() && Known(q.times, q.queued) && InRange(q.times) && amount <= MAX_TIME
      requires flow in flowsList && sendingFlow == null && !flow.isQueued
      modifies flowsList, this`q
      ensures Tied() && flow.address in old(q).times
      ensures q == old(q).(times := Incremented(old(q), flow.address, amount))
    {
      hide ListTied, Shifted;
      ghost var k := IndexOfFlow(flow);
      ghost var was := q;
      if amount > MAX_TIME - flow.time {
        var subtract: uint64;
        if queuedTree == [] {
          subtract := flow.time;
        } else {
          HeadTime();
          subtract := queuedTree[0].time;
        }
        SubtractFromAll(flow, subtract);
      }
      FlowFacts(k, flow);
      SetTime(flow, k, if flow.time + amount < WORD then flow.time + amount else flow.time + amount - WORD);
    }

    lemma HeadTime()
      requires Tied() && Known(q.times, q.queued) && queuedTree != []
      ensures queuedTree[0].time == q.times[q.queued[0]]
    {
      hide ListTied;
      var k := IndexOfFlow(queuedTree[0]);
    }

    lemma IndexOfFlow(flow: QueueFlow) returns (k: nat)
      requires ListTied() && flow in flowsList
      ensures k < |flowsList| && flowsList[k] == flow
      ensures flow.address in q.times && q.times[flow.address] == flow.time && q.lens[flow.address] == flow.dataLen
      ensures flow.isQueued <==> flow.address in q.queued
      ensures flow.address in q.lens
    {
      k :| 0 <= k < |flowsList| && flowsList[k] == flow;
    }

    /** Marks a flow as queued or not, with the new order of the tree. */
    method SetQueued(flow: QueueFlow, ghost k: nat, b: bool, ghost queued: seq<Flow>)
      requires ListTied() && k < |flowsList| && flow == flowsList[k]
      requires forall f :: f in queued <==> if b then f in q.queued || f == flow.address else f in q.queued && f != flow.address
      modifies flow`isQueued, this`q
      ensures ListTied() && q == old(q).(queued := queued) && flow.isQueued == b
    {
      hide Listed;
      flow.isQueued := b;
      q := q.(queued := queued);
    }

    /** Takes the first flow from the tree and gives its packet to the output. */
    method Schedule()
      requires Tied() && queuedTree != [] && sendingFlow == null && NoDup(q.queued)
      modifies flowsList, this`q, this`queuedTree, this`sendingFlow, this`sendingLen
      ensures Tied() && q.queued == old(q).queued[1..] && old(q).queued[0] in old(q).lens
      ensures q == FairQueueModel.Schedule(old(q))
    {
      hide ListTied, NoDup;
      var qflow := queuedTree[0];
      ghost var k := IndexOfFlow(qflow);
      HeadLeaves(q.queued);
      queuedTree := queuedTree[1..];
      SetQueued(qflow, k, false, q.queued[1..]);
      sendingFlow := qflow;
      sendingLen := qflow.dataLen;
      Assign(q.(sending := Some(qflow.address), sendingLen := qflow.dataLen));
    }

    /** Only what TreeTied speaks about changes. */
    ghost method Assign(r: Queue)
      requires ListTied() && r == r.(times := q.times, lens := q.lens, queued := q.queued)
      modifies this`q
      ensures ListTied() && q == r
    {
      q := r;
    }

    method ScheduleJobHandler()
      requires Valid() && scheduleJob
      modifies this, flowsList
      ensures Valid() && q == Step(Cfg(), old(q), Job)
    {
      hide ListTied, FairQueueModel.Schedule, Sorted;
      StepInv(Cfg(), q, Job);
      JobPending(Cfg(), q);
      scheduleJob := false;
      previousFlow := null;
      Assign(q.(previous := None, job := false));
      if queuedTree != [] {
        Schedule();
      }
    }

    /** Where the order of compare_flows wants the flow. */
    method TreePosition(flow: QueueFlow) returns (i: nat)
      requires Tied() && flow in flowsList && Known(q.times, q.queued)
      ensures i <= |queuedTree| == |q.queued| && flow.address in q.times
      ensures Insert(q.times, q.queued, flow.address) == q.queued[..i] + [flow.address] + q.queued[i..]
    {
      hide ListTied, Insert;
      ghost var k := IndexOfFlow(flow);
      ghost var tree := q.queued;
      i := 0;
      while i < |queuedTree|
        invariant 0 <= i <= |queuedTree| == |tree|
        invariant Insert(q.times, tree, flow.address) == tree[..i] + Insert(q.times, tree[i..], flow.address)
      {
        ghost var h := IndexOfFlow(queuedTree[i]);
        if flow.time < queuedTree[i].time || (flow.time == queuedTree[i].time && flow.address < queuedTree[i].address) {
          break;
        }
        InsertLater(q.times, tree, flow.address, i);
        i := i + 1;
      }
      InsertHere(q.times, tree, flow.address, i);
    }

    /** Insertion into the tree, which keeps its entries in the order of compare_flows. */
    method TreeInsert(flow: QueueFlow)
      requires Tied() && flow in flowsList && !flow.isQueued && Known(q.times, q.queued)
      modifies flowsList, this`q, this`queuedTree
      ensures Tied() && flow.isQueued && flow.address in old(q).times
      ensures q == old(q).(queued := Insert(old(q).times, old(q).queued, flow.address))
    {
      hide ListTied, Insert;
      ghost var k := IndexOfFlow(flow);
      var i := TreePosition(flow);
      ghost var r := Insert(q.times, q.queued, flow.address);
      queuedTree := queuedTree[..i] + [flow] + queuedTree[i..];
      InsertedMembers(q.queued, i, flow.address);
      SetQueued(flow, k, true, r);
    }

    /** A flow is known by its address. */
    lemma SameFlow(flow: QueueFlow)
      requires Tied() && flow in flowsList
      ensures q.previous == Some(flow.address) <==> flow == previousFlow
      ensures q.sending == Some(flow.address) <==> flow == sendingFlow
    {
      var k := IndexOfFlow(flow);
      if previousFlow != null {
        var i := IndexOfFlow(previousFlow);
      }
      if sendingFlow != null {
        var i := IndexOfFlow(sendingFlow);
      }
    }

    method SetLen(flow: QueueFlow, ghost k: nat, dataLen: nat)
      requires ListTied() && k < |flowsList| && flow == flowsList[k]
      modifies flow`dataLen, this`q
      ensures ListTied() && q == old(q).(lens := old(q).lens[flow.address := dataLen]) && flow.dataLen == dataLen
    {
      hide MarksTied, Listed;
      flow.dataLen := dataLen;
      q := q.(lens := q.lens[flow.address := dataLen]);
    }

    /** The first half of input_handler_send: the time the flow is queued with. */
    method RaiseTime(flow: QueueFlow)
      requires Tied() && Shaped(q) && flow in flowsList
      modifies this`previousFlow, this`q, flowsList
      ensures Tied() && flow.address in old(q).times && flow.isQueued == old(flow.isQueued)
      ensures q.times == old(q).times[flow.address := RaisedTime(old(q), flow.address)]
      ensures q == old(q).(times := q.times, previous := if old(q).previous == Some(flow.address) then None else old(q).previous)
    {
      hide ListTied, CurrentTime, Shaped;
      ghost var k := IndexOfFlow(flow);
      SameFlow(flow);
      hide ListTied;
      var time := flow.time;
      if flow == previousFlow {
        previousFlow := null;
        Assign(q.(previous := None));
      } else {
        var now := GetCurrentTime();
        if time < now {
          time := now;
        }
      }
      SetTime(flow, k, time);
    }

    method InputHandlerSend(flow: QueueFlow, dataLen: nat)
      requires Valid() && flow in flowsList
      requires flow != sendingFlow && !flow.isQueued && dataLen <= mtu
      modifies this, flowsList
      ensures Valid() && Enabled(Cfg(), old(q), Send(flow.address, dataLen))
      ensures q == Step(Cfg(), old(q), Send(flow.address, dataLen))
    {
      hide ListTied, Sorted, CurrentTime, Insert;
      ghost var was := q;
      ghost var k := IndexOfFlow(flow);
      SameFlow(flow);
      StepInv(Cfg(), q, Send(flow.address, dataLen));
      EnqueueInv(Cfg(), q, flow.address, dataLen);
      RaiseTime(flow);
      SetLen(flow, k, dataLen);
      TreeInsert(flow);
      assert q == Enqueue(was, flow.address, dataLen);
      if sendingFlow == null && !scheduleJob {
        SortedNoDup(q);
        Schedule();
      }
    }

    method OutputHandlerDone()
      requires Valid() && sendingFlow != null
      modifies this, flowsList
      ensures Valid() && q == Step(Cfg(), old(q), Done)
    {
      hide ListTied, Sorted, Incremented, Shaped, InRange, Known;
      ghost var was := q;
      ghost var k := IndexOfFlow(sendingFlow);
      StepInv(Cfg(), q, Done);
      SendingFacts(Cfg(), q);
      var flow := sendingFlow;
      sendingFlow := null;
      previousFlow := flow;
      Assign(q.(sending := None, previous := q.sending));
      IncrementedSame(was, q, flow.address, packetWeight + sendingLen);
      IncrementSentFlow(flow, packetWeight + sendingLen);
      scheduleJob := true;
      Assign(q.(job := true));
    }

    /** PacketPassFairQueueFlow_Init */
    method FlowInit(flow: QueueFlow)
      requires Valid() && flow.address !in q.times
      modifies this, flow
      ensures Valid() && flowsList == old(flowsList) + [flow]
      ensures Enabled(Cfg(), old(q), Init(flow.address)) && q == Step(Cfg(), old(q), Init(flow.address))
    {
      hide Sorted, ListTied;
      StepInv(Cfg(), q, Init(flow.address));
      ListAppend(flow);
    }

    method ListAppend(flow: QueueFlow)
      requires ListTied() && flow.address !in q.times && Known(q.times, q.queued)
      modifies this`flowsList, this`q, flow
      ensures ListTied() && flowsList == old(flowsList) + [flow]
      ensures q == old(q).(times := old(q).times[flow.address := 0], lens := old(q).lens[flow.address := 0])
    {
      hide Distinct, Listed;
      assert forall i :: 0 <= i < |flowsList| ==> flowsList[i].address in q.times;
      assert flow.address !in q.queued;
      flow.time := 0;
      flow.dataLen := 0;
      flow.isQueued := false;
      ListGrows(flowsList, flow);
      flowsList := flowsList + [flow];
      q := q.(times := q.times[flow.address := 0], lens := q.lens[flow.address := 0]);
    }

    method PrepareFree()
      requires Valid() || Ending()
      modifies this`freeing
      ensures Ending()
    {
      if !freeing {
        SortedNoDup(q);
      }
      freeing := true;
    }

    /** PacketPassFairQueueFlow_Free. While the queue is in use the flow must not be the one that is sending. */
    method FlowFree(flow: QueueFlow)
      requires (Valid() && flow != sendingFlow) || Ending()
      requires flow in flowsList
      modifies this
      ensures q == Leave(old(q), flow.address)
      ensures old(Ending()) ==> Ending()
      ensures old(Valid()) ==> Valid() && Enabled(Cfg(), old(q), Free(flow.address)) && q == Step(Cfg(), old(q), Free(flow.address))
    {
      hide ListTied, TreeTied, Inv, NoDup, Without, Step;
      FreeFacts(flow);
      Forget(flow);
      RemoveFlow(flow);
    }

    /** What freeing the flow keeps, and that it is the event of the model. */
    lemma FreeFacts(flow: QueueFlow)
      requires (Valid() && flow != sendingFlow) || Ending()
      requires flow in flowsList
      ensures NoDup(q.queued) && NoDup(Leave(q, flow.address).queued)
      ensures !freeing ==> Enabled(Cfg(), q, Free(flow.address)) && Step(Cfg(), q, Free(flow.address)) == Leave(q, flow.address)
      ensures !freeing ==> Inv(Cfg(), Leave(q, flow.address))
    {
      hide Without, TreeIs, CurrentTime, InRange, ListTied, NoDup, Sorted;
      SameFlow(flow);
      var k := IndexOfFlow(flow);
      if !freeing {
        StepInv(Cfg(), q, Free(flow.address));
        SortedNoDup(q);
      }
      WithoutMembers(q.queued, flow.address);
    }

    /** The flow is neither the sending one nor the previous one any more. */
    method Forget(flow: QueueFlow)
      requires Tied() && flow in flowsList
      modifies this`q, this`sendingFlow, this`previousFlow
      ensures Tied() && flow != sendingFlow && flow != previousFlow
      ensures q == old(q).(sending := if old(q).sending == Some(flow.address) then None else old(q).sending,
                           previous := if old(q).previous == Some(flow.address) then None else old(q).previous)
    {
      hide ListTied, TreeIs;
      SameFlow(flow);
      ghost var r := q.(sending := if flow == sendingFlow then None else q.sending,
                        previous := if flow == previousFlow then None else q.previous);
      if flow == sendingFlow {
        sendingFlow := null;
      }
      if flow == previousFlow {
        previousFlow := null;
      }
      Assign(r);
    }

    /** What PacketPassFairQueue_Free asserts holds when all flows have been freed. */
    lemma NothingIsLeft()
      requires Tied() && flowsList == []
      ensures queuedTree == [] && sendingFlow == null && previousFlow == null && q.queued == []
    {
      TreeFromList(queuedTree, flowsList, q.queued);
    }

    method RemoveFlow(flow: QueueFlow)
      requires Tied() && flow in flowsList && flow != sendingFlow && flow != previousFlow && NoDup(q.queued)
      modifies this`flowsList, this`queuedTree, this`q
      ensures Tied()
      ensures var f := flow.address;
        q == old(q).(times := old(q).times - {f}, lens := old(q).lens - {f}, queued := Without(old(q).queued, f))
    {
      hide Without, ListTied, NoDup, TreeIs, RemoveAt;
      ghost var at := IndexOfFlow(flow);
      WithoutMembers(q.queued, flow.address);
      if flow.isQueued {
        TreeRemove(flow);
      } else {
        WithoutAbsent(q.queued, flow.address);
      }
      var k :| 0 <= k < |flowsList| && flowsList[k] == flow;
      StillListed(flow, k, Without(q.queued, flow.address));
      ListRemove(flow, k, Without(q.queued, flow.address));
    }

    /** The tree without the flow; its mark is left as it is. */
    method TreeRemove(flow: QueueFlow)
      requires TreeTied() && NoDup(q.queued) && flow.address in q.queued
      modifies this`queuedTree
      ensures TreeIs(queuedTree, flowsList, Without(q.queued, flow.address))
    {
      var i :| 0 <= i < |queuedTree| && queuedTree[i].address == flow.address;
      hide Without, ListTied, TreeIs, NoDup;
      TreeWithout(queuedTree, flowsList, q.queued, i);
      queuedTree := queuedTree[..i] + queuedTree[i + 1..];
    }

    /** What refers to another flow still refers to the list without this one. */
    lemma StillListed(flow: QueueFlow, k: nat, queued: seq<Flow>)
      requires k < |flowsList| && flow == flowsList[k] && flow != sendingFlow && flow != previousFlow
      requires TreeIs(queuedTree, flowsList, queued) && flow.address !in queued
      requires (sendingFlow != null ==> sendingFlow in flowsList) && (previousFlow != null ==> previousFlow in flowsList)
      ensures TreeIs(queuedTree, RemoveAt(flowsList, k), queued)
      ensures sendingFlow != null ==> sendingFlow in RemoveAt(flowsList, k)
      ensures previousFlow != null ==> previousFlow in RemoveAt(flowsList, k)
    {
      forall f | f in flowsList && f != flow ensures f in RemoveAt(flowsList, k) {
        var i :| 0 <= i < |flowsList| && flowsList[i] == f;
        assert RemoveAt(flowsList, k)[if i < k then i else i - 1] == f;
      }
      assert forall i :: 0 <= i < |queuedTree| ==> queuedTree[i].address in queued;
    }

    method ListRemove(flow: QueueFlow, k: nat, ghost queued: seq<Flow>)
      requires ListTied() && k < |flowsList| && flow == flowsList[k]
      requires forall f :: f in queued <==> f in q.queued && f != flow.address
      modifies this`flowsList, this`q
      ensures ListTied() && flowsList == RemoveAt(old(flowsList), k)
      ensures q == old(q).(times := old(q).times - {flow.address}, lens := old(q).lens - {flow.address}, queued := queued)
    {
      hide Distinct;
      RemovedMembers(flowsList, k);
      flowsList := RemoveAt(flowsList, k);
      q := q.(times := q.times - {flow.address}, lens := q.lens - {flow.address}, queued := queued);
    }
  }

  lemma ListGrows(list: seq<QueueFlow>, flow: QueueFlow)
    requires Distinct(list) && forall i :: 0 <= i < |list| ==> list[i].address != flow.address
    ensures Distinct(list + [flow])
    ensures forall a :: Listed(list + [flow], a) <==> Listed(list, a) || a == flow.address
  {
    forall a ensures Listed(list + [flow], a) <==> Listed(list, a) || a == flow.address {
      if Listed(list, a) {
        var i :| 0 <= i < |list| && list[i].address == a;
        assert (list + [flow])[i].address == a;
      }
      assert (list + [flow])[|list|].address == flow.address;
    }
  }

  lemma RemovedMembers(list: seq<QueueFlow>, k: nat)
    requires k < |list| && Distinct(list)
    ensures Distinct(RemoveAt(list, k))
    ensures forall i :: 0 <= i < |list| - 1 ==> RemoveAt(list, k)[i].address != list[k].address
    ensures forall a :: Listed(list, a) && a != list[k].address ==> Listed(RemoveAt(list, k), a)
  {
    forall i | 0 <= i < |list| && i != k ensures exists j :: 0 <= j < |list| - 1 && RemoveAt(list, k)[j] == list[i] {
      assert RemoveAt(list, k)[if i < k then i else i - 1] == list[i];
    }
  }

  lemma TreeFromList(tree: seq<QueueFlow>, list: seq<QueueFlow>, queued: seq<Flow>)
    requires FairQueue.TreeIs(tree, list, queued)
    ensures tree == [] || list != []
  {
    if tree != [] {
      assert tree[0] in list;
    }
  }

  lemma TreeWithout(tree: seq<QueueFlow>, list: seq<QueueFlow>, queued: seq<Flow>, i: nat)
    requires FairQueue.TreeIs(tree, list, queued) && NoDup(queued) && i < |tree|
    ensures FairQueue.TreeIs(tree[..i] + tree[i + 1..], list, Without(queued, tree[i].address))
  {
    hide Without;
    WithoutIsSlices(queued, tree[i].address, i);
  }

  lemma InsertLater(times: map<Flow, nat>, tree: seq<Flow>, f: Flow, i: nat)
    requires f in times && Known(times, tree) && i < |tree| && !Before(times, f, tree[i])
    requires Insert(times, tree, f) == tree[..i] + Insert(times, tree[i..], f)
    ensures Insert(times, tree, f) == tree[..i + 1] + Insert(times, tree[i + 1..], f)
  {
    MoveOneOver(tree, i, Insert(times, tree[i + 1..], f));
    var rest := tree[i..];
    assert rest[0] == tree[i] && Insert(times, rest, f) == [rest[0]] + Insert(times, rest[1..], f);
  }

  lemma InsertHere(times: map<Flow, nat>, tree: seq<Flow>, f: Flow, i: nat)
    requires f in times && Known(times, tree) && i <= |tree|
    requires Insert(times, tree, f) == tree[..i] + Insert(times, tree[i..], f)
    requires i < |tree| ==> Before(times, f, tree[i])
    ensures Insert(times, tree, f) == tree[..i] + [f] + tree[i..]
  {
  }

  lemma InsertedMembers(queued: seq<Flow>, i: nat, f: Flow)
    requires i <= |queued|
    ensures forall g :: g in queued[..i] + [f] + queued[i..] <==> g in queued || g == f
  {
    assert queued == queued[..i] + queued[i..];
  }

  lemma SendingFacts(c: Config, q: Queue)
    requires c.Valid() && Inv(c, q) && q.sending.Some?
    ensures Known(q.times, q.queued) && InRange(q.times) && q.sending.value !in q.queued
    ensures Amount(c, q) <= MAX_TIME
  {
  }

  lemma IncrementedSame(q: Queue, r: Queue, f: Flow, amount: nat)
    requires f in q.times && InRange(q.times) && Known(q.times, q.queued) && amount <= MAX_TIME
    requires r.times == q.times && r.queued == q.queued
    ensures Incremented(q, f, amount) == Incremented(r, f, amount)
  {
  }

  lemma SortedNoDup(q: Queue)
    requires Known(q.times, q.queued) && Sorted(q.times, q.queued)
    ensures NoDup(q.queued)
  {
    forall i, j | 0 <= i < j < |q.queued| ensures q.queued[i] != q.queued[j] {
      assert Before(q.times, q.queued[i], q.queued[j]);
    }
  }

  lemma HeadLeaves(queued: seq<Flow>)
    requires NoDup(queued) && queued != []
    ensures forall f :: f in queued[1..] <==> f in queued && f != queued[0]
  {
    assert queued == [queued[0]] + queued[1..];
  }

  lemma JobPending(c: Config, q: Queue)
    requires InvUnbounded(c, q) && q.job
    ensures q.sending.None? && NoDup(q.queued)
  {
    SortedNoDup(q);
  }

  /** The first i flows of the list have their new time. */
  ghost predicate Progress(list: seq<QueueFlow>, times: map<Flow, nat>, was: map<Flow, nat>, goal: map<Flow, nat>, i: nat) {
    && times.Keys == was.Keys == goal.Keys
    && Distinct(list)
    && (forall j :: 0 <= j < |list| ==> list[j].address in times)
    && (forall j :: 0 <= j < |list| ==> times[list[j].address] == (if j < i then goal else was)[list[j].address])
  }

  lemma ProgressStart(list: seq<QueueFlow>, q: Queue, goal: map<Flow, nat>)
    requires Distinct(list)
    requires forall i :: 0 <= i < |list| ==> list[i].address in q.times
    requires goal.Keys == q.times.Keys
    ensures Progress(list, q.times, q.times, goal, 0)
  {
  }

  lemma ProgressEnd(list: seq<QueueFlow>, q: Queue, was: map<Flow, nat>, goal: map<Flow, nat>)
    requires Progress(list, q.times, was, goal, |list|)
    requires forall a :: a in q.times ==> Listed(list, a)
    ensures q.times == goal
  {
    forall a | a in goal ensures q.times[a] == goal[a] {
      assert Listed(list, a);
      var j :| 0 <= j < |list| && list[j].address == a;
    }
  }

  lemma ProgressNow(list: seq<QueueFlow>, times: map<Flow, nat>, was: map<Flow, nat>, goal: map<Flow, nat>, i: nat)
    requires Progress(list, times, was, goal, i) && i < |list|
    ensures list[i].address in was && list[i].address in goal && list[i].address in times
    ensures times[list[i].address] == was[list[i].address]
  {
  }

  lemma ProgressStep(list: seq<QueueFlow>, times: map<Flow, nat>, was: map<Flow, nat>, goal: map<Flow, nat>, i: nat)
    requires Progress(list, times, was, goal, i) && i < |list| && list[i].address in goal
    ensures Progress(list, times[list[i].address := goal[list[i].address]], was, goal, i + 1)
  {
  }

  ghost predicate Distinct(list: seq<QueueFlow>) {
    forall i, j :: 0 <= i < j < |list| ==> list[i].address != list[j].address
  }

  ghost predicate Listed(list: seq<QueueFlow>, a: Flow) {
    exists i :: 0 <= i < |list| && list[i].address == a
  }
}
