/**
 * FragmentProtoAssembler: an array of frame entries, linked into a free and a used list and
 * indexed by frame id.
 *
 * Every method is proved against the functions of AssemblerModel. The ghost field `pool` is the
 * value those functions are about; `Tied` says that entries, lists, tree and clock are as it says,
 * and `Valid` that the invariant proved there holds of it.
 */
module FragmentProtoAssembler {
  import opened AssemblerModel
  import opened Bytes
  import opened Counting
  import FragmentProto
  import opened Lists

  datatype ChunkEntry = ChunkEntry(start: int, len: int)

  /** struct FragmentProtoAssembler_frame; everything but `buffer` is defined when the entry is used. */
  datatype FrameEntry = FrameEntry(id: nat, time: uint32, chunks: seq<ChunkEntry>, sum: int,
                                   length: int, lengthSoFar: int, buffer: seq<byte>)

  ghost predicate Holds(e: FrameEntry, f: Frame) {
    && e.id == f.id && e.time == f.time && e.sum == f.sum && e.length == f.length
    && e.lengthSoFar == f.lengthSoFar && e.buffer == f.buffer
    && SameChunks(e.chunks, f.pieces)
  }

  ghost predicate SameChunks(chunks: seq<ChunkEntry>, pieces: seq<Piece>) {
    |chunks| == |pieces| &&
    forall i :: 0 <= i < |chunks| ==> chunks[i] == ChunkEntry(pieces[i].start, |pieces[i].data|)
  }

  /** No entry is on two lists, or twice on one; see ListsPartitionEntries. */
  ghost predicate Linked(used: seq<nat>, free: seq<nat>, n: nat) {
    && (forall i :: 0 <= i < |used| ==> used[i] < n)
    && (forall i :: 0 <= i < |free| ==> free[i] < n)
    && NoDup(used) && NoDup(free)
    && (forall i, j :: 0 <= i < |used| && 0 <= j < |free| ==> used[i] != free[j])
  }

  ghost predicate HasId(used: seq<Frame>, id: nat) {
    exists i :: 0 <= i < |used| && used[i].id == id
  }

  /** The tree holds exactly the used frames, under their ids. */
  ghost predicate Indexed(tree: map<nat, nat>, list: seq<nat>, used: seq<Frame>) {
    && |list| == |used|
    && (forall i :: 0 <= i < |used| ==> used[i].id in tree && tree[used[i].id] == list[i])
    && (forall k :: k in tree ==> HasId(used, k))
  }

  /** Every entry is on exactly one of the lists when their lengths add up to the number of entries. */
  lemma ListsPartitionEntries(used: seq<nat>, free: seq<nat>, n: nat)
    requires Linked(used, free, n) && |used| + |free| == n
    ensures forall k :: 0 <= k < n ==> (k in used) != (k in free)
  {
    var all := used + free;
    forall i, j | 0 <= i < j < |all| ensures all[i] != all[j] {}
    DistinctBelow(all, n);
    forall k | 0 <= k < n ensures (k in used) != (k in free) {
      assert k in all;
    }
  }

  lemma FreedLists(used: seq<nat>, free: seq<nat>, n: nat, i: nat)
    requires Linked(used, free, n) && i < |used|
    ensures Linked(RemoveAt(used, i), free + [used[i]], n)
  {
  }

  lemma AllocatedLists(used: seq<nat>, free: seq<nat>, n: nat)
    requires Linked(used, free, n) && free != []
    ensures Linked(used + [free[0]], free[1..], n)
  {
  }

  lemma FreedTree(tree: map<nat, nat>, list: seq<nat>, used: seq<Frame>, i: nat)
    requires Indexed(tree, list, used) && NoDup(list) && i < |used|
    ensures Indexed(tree - {used[i].id}, RemoveAt(list, i), RemoveAt(used, i))
  {
    var id, r := used[i].id, RemoveAt(used, i);
    forall j | 0 <= j < |r| ensures r[j].id != id {
      assert r[j] == used[if j < i then j else j + 1];
    }
    forall k | k in tree && k != id ensures HasId(r, k) {
      assert HasId(used, k);
      var j :| 0 <= j < |used| && used[j].id == k;
      assert r[if j < i then j else j - 1].id == k;
    }
  }

  lemma AllocatedTree(tree: map<nat, nat>, list: seq<nat>, used: seq<Frame>, f: Frame, slot: nat)
    requires Indexed(tree, list, used) && f.id !in tree
    ensures Indexed(tree[f.id := slot], list + [slot], used + [f])
  {
    var r := used + [f];
    assert r[|used|].id == f.id;
    forall k | k in tree ensures HasId(r, k) {
      assert HasId(used, k);
      var j :| 0 <= j < |used| && used[j].id == k;
      assert r[j].id == k;
    }
  }

  lemma RetimedTree(tree: map<nat, nat>, list: seq<nat>, used: seq<Frame>, i: nat, f: Frame)
    requires Indexed(tree, list, used) && i < |used| && f.id == used[i].id
    ensures Indexed(tree, list, used[i := f])
  {
    var r := used[i := f];
    forall k | k in tree ensures HasId(r, k) {
      assert HasId(used, k);
      var j :| 0 <= j < |used| && used[j].id == k;
      assert r[j].id == k;
    }
  }

  function Position(list: seq<nat>, x: nat): (i: nat)
    requires x in list
    ensures i < |list| && list[i] == x
  {
    if list[0] == x then 0 else 1 + Position(list[1..], x)
  }

  class Assembler {
    const outputMtu: nat
    const numFrames: nat
    const numChunks: nat
    const entries: array<FrameEntry>
    var time: uint32
    // the lists and the tree refer to entries by their index
    var framesFree: seq<nat>
    var framesUsed: seq<nat>
    var framesUsedTree: map<nat, nat>
    var input: seq<byte>
    var inLen: int
    var inPos: int
    // the packet the output is busy with
    var outgoing: Option<seq<byte>>
    ghost var pool: Pool

    ghost function Cfg(): Config { Config(outputMtu, numFrames, numChunks) }

    ghost predicate Tied()
      reads this, entries
    {
      && entries.Length == numFrames
      && Linked(framesUsed, framesFree, numFrames)
      && Indexed(framesUsedTree, framesUsed, pool.used)
      && pool.time == time && |framesUsed| == |pool.used| && |framesFree| == |pool.free|
      && (forall i :: 0 <= i < |framesUsed| ==>
            framesUsed[i] < numFrames && Holds(entries[framesUsed[i]], pool.used[i]))
      && (forall i :: 0 <= i < |framesFree| ==>
            framesFree[i] < numFrames && entries[framesFree[i]].buffer == pool.free[i])
    }

    ghost predicate Valid()
      reads this, entries
    {
      && Tied() && Inv(Cfg(), pool)
      && (inLen == -1 || (inLen == |input| && 0 <= inPos <= inLen))
      && (outgoing.Some? ==> inLen >= 0)
    }

    constructor (outputMtu: nat, numFrames: nat, numChunks: nat)
      requires Config(outputMtu, numFrames, numChunks).Valid()
      ensures Valid() && fresh(entries)
      ensures Cfg() == Config(outputMtu, numFrames, numChunks) && Initial(Cfg(), pool)
      ensures inLen == -1 && outgoing == None
    {
      this.outputMtu, this.numFrames, this.numChunks := outputMtu, numFrames, numChunks;
      var blank := FrameEntry(0, 0, [], 0, -1, 0, seq(outputMtu, _ => 0));
      entries := new FrameEntry[numFrames](_ => blank);
      time, framesFree, framesUsed, framesUsedTree := 0, seq(numFrames, i => i), [], map[];
      input, inLen, inPos, outgoing := [], -1, 0, None;
      pool := Pool(0, [], seq(numFrames, _ => blank.buffer));
      new;
      InitialInv(Cfg(), pool);
    }

    method FreeFrame(frame: nat, ghost i: nat)
      requires Tied() && i < |framesUsed| && frame == framesUsed[i]
      modifies this`framesUsed, this`framesFree, this`framesUsedTree, this`pool
      ensures Tied() && pool == FreeAt(old(pool), i) && framesUsed == RemoveAt(old(framesUsed), i)
      ensures framesUsedTree == old(framesUsedTree) - {old(pool).used[i].id}
    {
      assert Holds(entries[framesUsed[i]], pool.used[i]);
      PositionUnique(framesUsed, i);
      FreedLists(framesUsed, framesFree, numFrames, i);
      FreedTree(framesUsedTree, framesUsed, pool.used, i);
      framesUsed := RemoveAt(framesUsed, Position(framesUsed, frame));
      framesUsedTree := framesUsedTree - {entries[frame].id};
      framesFree := framesFree + [frame];
      pool := FreeAt(pool, i);
    }

    method FreeOldestFrame()
      requires Tied() && framesUsed != []
      modifies this`framesUsed, this`framesFree, this`framesUsedTree, this`pool
      ensures Tied() && pool == FreeAt(old(pool), 0)
    {
      FreeFrame(framesUsed[0], 0);
    }

    method AllocateNewFrame(id: nat) returns (frame: nat)
      requires Tied() && HasSlot(pool) && id !in framesUsedTree
      modifies this`framesUsed, this`framesFree, this`framesUsedTree, this`pool, entries
      ensures Tied() && pool == Allocate(old(pool), id)
      ensures id in framesUsedTree && frame == framesUsedTree[id]
    {
      if framesFree == [] {
        FreeOldestFrame();
      }
      frame := framesFree[0];
      TakeFree(frame, id);
    }

    method TakeFree(frame: nat, id: nat)
      requires Tied() && framesFree != [] && frame == framesFree[0] && id !in framesUsedTree
      modifies this`framesUsed, this`framesFree, this`framesUsedTree, this`pool, entries
      ensures Tied() && id in framesUsedTree && framesUsedTree[id] == frame
      ensures pool == old(pool).(used := old(pool).used + [NewFrame(id, time, old(pool).free[0])],
                                 free := old(pool).free[1..])
    {
      ghost var f := NewFrame(id, time, pool.free[0]);
      AllocatedLists(framesUsed, framesFree, numFrames);
      AllocatedTree(framesUsedTree, framesUsed, pool.used, f, frame);
      framesFree := framesFree[1..];
      entries[frame] := FrameEntry(id, time, [], 0, -1, 0, entries[frame].buffer);
      framesUsed := framesUsed + [frame];
      framesUsedTree := framesUsedTree[id := frame];
      pool := pool.(used := pool.used + [f], free := pool.free[1..]);
    }

    method FrameIsTimedOut(frame: FrameEntry) returns (r: bool)
      ensures r == (time - frame.time > numFrames)
    {
      r := time - frame.time > numFrames;
    }

    /** The first pass of reduce_times: frees the timed-out frames and finds the least time left. */
    method FreeTimedOut() returns (have: bool, minTime: uint32)
      requires Tied()
      modifies this`framesUsed, this`framesFree, this`framesUsedTree, this`pool
      ensures Tied() && pool == Prune(Cfg(), old(pool), 0)
      ensures have <==> pool.used != []
      ensures have ==> minTime == MinTime(pool.used)
    {
      hide Prune, MinTime, Linked, Indexed;
      have, minTime := false, 0;
      var i := 0;
      while i < |framesUsed|
        invariant Tied() && 0 <= i <= |framesUsed|
        invariant Prune(Cfg(), pool, i) == Prune(Cfg(), old(pool), 0)
        invariant have <==> i > 0
        invariant have ==> minTime == MinTime(pool.used[..i])
        decreases |framesUsed| - i
      {
        var frame := entries[framesUsed[i]];
        assert Holds(frame, pool.used[i]);
        var out := FrameIsTimedOut(frame);
        if out {
          PruneStep(Cfg(), pool, i);
          FreeFrame(framesUsed[i], i);
        } else {
          PruneStep(Cfg(), pool, i);
          MinTimeUpTo(pool.used, i);
          if !have || frame.time < minTime {
            have, minTime := true, frame.time;
          }
          i := i + 1;
        }
      }
      assert pool.used[..i] == pool.used;
      PruneEnd(Cfg(), pool);
    }

    method SubtractTime(minTime: uint32)
      requires Tied() && NoEarlier(pool, minTime, 0)
      modifies entries, this`pool
      ensures Tied() && pool == old(pool).(used := Shift(old(pool).used, minTime))
    {
      hide ShiftFrom, Linked, Indexed, Holds;
      var i := 0;
      while i < |framesUsed|
        invariant Tied() && 0 <= i <= |framesUsed|
        invariant NoEarlier(pool, minTime, i)
        invariant ShiftFrom(pool, minTime, i) == ShiftFrom(old(pool), minTime, 0)
      {
        SubtractFrameTime(i, minTime);
        i := i + 1;
      }
      ShiftFromEnd(pool, minTime, i);
      ShiftFromIs(old(pool), minTime);
    }

    method SubtractFrameTime(i: nat, minTime: uint32)
      requires Tied() && i < |framesUsed| && NoEarlier(pool, minTime, i)
      modifies entries, this`pool
      ensures Tied() && |framesUsed| == |pool.used| && NoEarlier(pool, minTime, i + 1)
      ensures ShiftFrom(pool, minTime, i + 1) == ShiftFrom(old(pool), minTime, i)
    {
      var frame := framesUsed[i];
      assert Holds(entries[frame], pool.used[i]);
      ShiftFromStep(pool, minTime, i);
      RetimedTree(framesUsedTree, framesUsed, pool.used, i, pool.used[i].(time := pool.used[i].time - minTime));
      entries[frame] := entries[frame].(time := entries[frame].time - minTime);
      pool := WithFrameTime(pool, i, entries[frame].time);
    }

    method SetClock(t: uint32)
      requires Tied()
      modifies this`time, this`pool
      ensures Tied() && pool == old(pool).(time := t)
    {
      time := t;
      pool := pool.(time := t);
    }

    method ReduceTimes()
      requires Tied() && MinBelowClock(Cfg(), pool)
      modifies this`time, this`framesUsed, this`framesFree, this`framesUsedTree, this`pool, entries
      ensures Tied() && pool == AssemblerModel.ReduceTimes(Cfg(), old(pool))
    {
      hide Linked, Indexed, Holds;
      PruneIsFresh(Cfg(), pool);
      var have, minTime := FreeTimedOut();
      if !have {
        SetClock(0);
        return;
      }
      SubtractTime(minTime);
      SetClock(time - minTime);
    }
  
    /** The frame entry the chunk belongs to, looked up or newly allocated. */
    method LookupFrame(id: nat) returns (frame: nat)
      requires Tied() && HasSlot(pool)
      modifies this`framesUsed, this`framesFree, this`framesUsedTree, this`pool, entries
      ensures Tied() && pool == Locate(Cfg(), old(pool), id)
      ensures IndexOf(pool.used, id) < |framesUsed| == |pool.used| && frame == framesUsed[IndexOf(pool.used, id)]
    {
      hide Indexed, IndexOf, Allocate;
      TreeLookup(framesUsedTree, framesUsed, pool.used, id);
      if id !in framesUsedTree {
        frame := AllocateNewFrame(id);
      } else {
        frame := framesUsedTree[id];
        ghost var i := IndexOf(pool.used, id);
        assert Holds(entries[frame], pool.used[i]);
        var out := FrameIsTimedOut(entries[frame]);
        if out {
          FreeFrame(frame, i);
          frame := AllocateNewFrame(id);
        }
      }
      TreeLookup(framesUsedTree, framesUsed, pool.used, id);
    }

    /** The checks of process_chunk that make it give up on the frame. */
    method ChunkIsGood(frame: nat, chunkStart: nat, chunkLen: nat, isLast: bool,
                       ghost i: nat, ghost s: Piece) returns (good: bool)
      requires Tied() && i < |framesUsed| && frame == framesUsed[i]
      requires s.start == chunkStart && |s.data| == chunkLen
      ensures good == Acceptable(pool.used[i], s, isLast)
    {
      hide Linked, Indexed;
      var e := entries[frame];
      ghost var f := pool.used[i];
      assert Holds(e, f);
      var chunkEnd := chunkStart + chunkLen;
      var k := 0;
      while k < |e.chunks|
        invariant 0 <= k <= |e.chunks|
        invariant forall j :: 0 <= j < k ==> !Overlap(f.pieces[j].start, |f.pieces[j].data|, chunkStart, chunkLen)
      {
        var chunk := e.chunks[k];
        if chunk.start + chunk.len > chunkStart && chunkStart + chunkLen > chunk.start {
          assert Overlap(f.pieces[k].start, |f.pieces[k].data|, chunkStart, chunkLen);
          return false;
        }
        k := k + 1;
      }
      if isLast {
        if e.length >= 0 {
          return false;
        }
        if e.lengthSoFar > chunkEnd {
          return false;
        }
      } else {
        if e.length >= 0 {
          if chunkEnd > e.length {
            return false;
          }
        }
      }
      return true;
    }

    method AddChunk(frame: nat, chunkStart: nat, isLast: bool, payload: seq<byte>, ghost i: nat)
      requires Tied() && i < |framesUsed| && frame == framesUsed[i]
      requires chunkStart + |payload| <= outputMtu && |pool.used[i].buffer| == outputMtu
      requires pool.used[i].length <= outputMtu
      modifies entries, this`pool
      ensures Tied() && Holds(entries[frame], pool.used[i])
      ensures pool == old(pool).(used := old(pool).used[i :=
        AddPiece(old(pool).used[i], time, Piece(chunkStart, payload), isLast)])
      ensures pool.used[i].length <= |pool.used[i].buffer|
    {
      hide Indexed;
      ghost var f := AddPiece(pool.used[i], time, Piece(chunkStart, payload), isLast);
      RetimedTree(framesUsedTree, framesUsed, pool.used, i, f);
      var e := entries[frame];
      assert Holds(e, pool.used[i]);
      var chunkEnd := chunkStart + |payload|;
      e := e.(time := time);
      e := e.(chunks := e.chunks + [ChunkEntry(chunkStart, |payload|)]);
      e := e.(sum := e.sum + |payload|);
      if isLast {
        e := e.(length := chunkEnd);
      } else {
        if e.length < 0 {
          if e.lengthSoFar < chunkEnd {
            e := e.(lengthSoFar := chunkEnd);
          }
        }
      }
      e := e.(buffer := e.buffer[..chunkStart] + payload + e.buffer[chunkEnd..]);
      assert Holds(e, f);
      entries[frame] := e;
      pool := pool.(used := pool.used[i := f]);
    }

    method ProcessChunk(frameId: nat, chunkStart: nat, chunkLen: nat, isLast: bool, payload: seq<byte>)
      returns (res: bool)
      requires Tied() && HasSlot(pool) && Sized(Cfg(), pool) && outgoing == None
      requires |payload| == chunkLen
      modifies this`framesUsed, this`framesFree, this`framesUsedTree, this`pool, entries, this`outgoing
      ensures Tied()
      ensures var o := AssemblerModel.ProcessChunk(Cfg(), old(pool), FragmentProto.Chunk(frameId, chunkStart, payload, isLast));
        pool == o.pool && outgoing == o.sent && res == o.sent.Some?
    {
      hide Linked, Indexed, Holds, Settle, Locate, Acceptable, AddPiece, FreeAt;
      if chunkStart > outputMtu {
        return false;
      }
      if chunkLen > outputMtu - chunkStart {
        return false;
      }
      LocateSized(Cfg(), pool, frameId);
      var frame := LookupFrame(frameId);
      ghost var i := IndexOf(pool.used, frameId);
      var good := ChunkIsGood(frame, chunkStart, chunkLen, isLast, i, Piece(chunkStart, payload));
      if !good {
        FreeFrame(frame, i);
        return false;
      }
      AddChunk(frame, chunkStart, isLast, payload, i);
      res := SettleFrame(frame, i);
    }

    method SettleFrame(frame: nat, ghost i: nat) returns (res: bool)
      requires Tied() && i < |framesUsed| && frame == framesUsed[i]
      requires pool.used[i].length <= |pool.used[i].buffer| && outgoing == None
      modifies this`framesUsed, this`framesFree, this`framesUsedTree, this`pool, this`outgoing
      ensures Tied() && Outcome(pool, outgoing) == Settle(Cfg(), old(pool), i) && res == outgoing.Some?
    {
      var e := entries[frame];
      assert Holds(e, pool.used[i]);
      if e.length < 0 || e.sum < e.length {
        if |e.chunks| == numChunks {
          FreeFrame(frame, i);
        }
        return false;
      }
      FreeFrame(frame, i);
      outgoing := Some(e.buffer[..e.length]);
      return true;
    }
  
    method AdvanceClock()
      requires Tied() && Inv(Cfg(), pool)
      modifies this`time, this`framesUsed, this`framesFree, this`framesUsedTree, this`pool, entries
      ensures Tied() && pool == Tick(Cfg(), old(pool)) && Inv(Cfg(), pool)
    {
      InvMinBelowClock(Cfg(), pool);
      TickCorrect(Cfg(), pool);
      if time == 0xFFFF_FFFF {
        ReduceTimesCorrect(Cfg(), pool);
        ReduceTimes();
        if framesUsed != [] {
          SetClock(time + 1);
        }
      } else {
        SetClock(time + 1);
      }
    }

    /** One iteration of the loop of process_input: reads a header and processes the chunk. */
    method NextChunk() returns (ok: bool, res: bool)
      requires Tied() && HasSlot(pool) && Sized(Cfg(), pool) && outgoing == None
      requires 0 <= inPos <= inLen == |input|
      modifies this`framesUsed, this`framesFree, this`framesUsedTree, this`pool, entries,
               this`outgoing, this`inPos
      ensures Tied() && inPos <= inLen
      ensures ok == ParseChunk(input[old(inPos)..]).Some?
      ensures !ok ==> pool == old(pool) && outgoing == None && inPos == old(inPos)
      ensures ok ==> var ch := ParseChunk(input[old(inPos)..]).value;
        && Outcome(pool, outgoing) == AssemblerModel.ProcessChunk(Cfg(), old(pool), ch) && res == outgoing.Some?
        && inPos == old(inPos) + FragmentProto.HEADER + |ch.data|
    {
      hide Sized, HasSlot, AssemblerModel.ProcessChunk, Linked, Indexed, Holds;
      ghost var rest := input[inPos..];
      if inLen - inPos < FragmentProto.HEADER {
        return false, false;
      }
      var frameId := Dec16(input[inPos], input[inPos + 1]);
      var chunkStart := Dec16(input[inPos + 2], input[inPos + 3]);
      var chunkLen := Dec16(input[inPos + 4], input[inPos + 5]);
      var isLast := input[inPos + 6];
      if !(isLast == 0 || isLast == 1) {
        return false, false;
      }
      if inLen - (inPos + FragmentProto.HEADER) < chunkLen {
        return false, false;
      }
      inPos := inPos + FragmentProto.HEADER;
      var payload := input[inPos..inPos + chunkLen];
      assert payload == rest[FragmentProto.HEADER..FragmentProto.HEADER + chunkLen];
      res := ProcessChunk(frameId, chunkStart, chunkLen, isLast == 1, payload);
      inPos := inPos + chunkLen;
      ok := true;
    }

    /** The same iteration, as a step of Scan; `more` says that the loop goes on. */
    method ScanNext(ghost goal: Stop) returns (more: bool, res: bool)
      requires Tied() && Inv(Cfg(), pool) && outgoing == None
      requires 0 <= inPos < inLen == |input|
      requires HasSlot(pool) && Sized(Cfg(), pool) && goal == Scan(Cfg(), pool, input[inPos..])
      modifies this`framesUsed, this`framesFree, this`framesUsedTree, this`pool, entries,
               this`outgoing, this`inPos
      ensures Tied() && Inv(Cfg(), pool) && HasSlot(pool) && Sized(Cfg(), pool)
      ensures 0 <= inPos <= inLen && (more ==> old(inPos) < inPos)
      ensures res ==> goal == Stop(pool, outgoing, input[inPos..]) && outgoing.Some?
      ensures !res ==> outgoing == None && goal == Scan(Cfg(), pool, input[inPos..])
      ensures !more && !res ==> goal == Stop(Tick(Cfg(), pool), None, [])
      ensures more ==> !res
    {
      hide Inv, Scan, Sized, ParseChunk, Tick, AssemblerModel.ProcessChunk, Linked, Indexed, Holds;
      ScanStep(Cfg(), pool, input, inPos);
      ScanEnd(Cfg(), pool, input, inPos);
      var ok, r := NextChunk();
      InvSized(Cfg(), pool);
      more, res := ok && !r, ok && r;
    }

    /** process_input; `finished` says whether it ended with PacketPassInterface_Done on the input. */
    method ProcessInput() returns (finished: bool)
      requires Tied() && Inv(Cfg(), pool) && outgoing == None && 0 <= inPos <= inLen == |input|
      modifies this`time, this`framesUsed, this`framesFree, this`framesUsedTree, this`pool, entries,
               this`outgoing, this`inLen, this`inPos
      ensures Valid() && HasSlot(old(pool)) && Sized(Cfg(), old(pool))
      ensures Follows(Scan(Cfg(), old(pool), input[old(inPos)..]), finished)
    {
      hide Inv, Scan, Sized, HasSlot, Tick, ParseChunk, Linked, Indexed, Holds;
      InvSized(Cfg(), pool);
      ghost var goal := Scan(Cfg(), pool, input[inPos..]);
      while inPos < inLen
        invariant Tied() && Inv(Cfg(), pool) && HasSlot(pool) && Sized(Cfg(), pool)
        invariant 0 <= inPos <= inLen == |input| && outgoing == None
        invariant goal == Scan(Cfg(), pool, input[inPos..])
      {
        var more, res := ScanNext(goal);
        if res {
          return false;
        }
        if !more {
          break;
        }
      }
      if inPos == inLen {
        ScanEnd(Cfg(), pool, input, inPos);
      }
      assert goal == Stop(Tick(Cfg(), pool), None, []);
      AdvanceClock();
      inLen := -1;
      return true;
    }

    /** The object is where Scan says a call of process_input stops. */
    ghost predicate Follows(stop: Stop, finished: bool)
      reads this
    {
      && pool == stop.pool && outgoing == stop.sent && finished == stop.sent.None?
      && (if finished then inLen == -1 else 0 <= inPos <= inLen == |input| && input[inPos..] == stop.rest)
    }

    method InputHandlerSend(data: seq<byte>) returns (finished: bool)
      requires Valid() && inLen == -1
      modifies this, entries
      ensures Valid() && HasSlot(old(pool)) && Sized(Cfg(), old(pool))
      ensures Follows(Scan(Cfg(), old(pool), data), finished)
    {
      inLen := |data|;
      input := data;
      inPos := 0;
      assert input[0..] == data;
      finished := ProcessInput();
    }

    /** The output is done with the packet: its slot buffer has not been touched in between. */
    method OutputHandlerDone() returns (finished: bool)
      requires Valid() && outgoing.Some?
      modifies this, entries
      ensures Valid() && HasSlot(old(pool)) && Sized(Cfg(), old(pool))
      ensures Follows(Scan(Cfg(), old(pool), old(input[inPos..])), finished)
    {
      outgoing := None;
      finished := ProcessInput();
    }
  }

  lemma ScanStep(c: Config, p: Pool, input: seq<byte>, pos: nat)
    requires Inv(c, p) && pos <= |input|
    ensures HasSlot(p) && Sized(c, p)
    ensures ParseChunk(input[pos..]).Some? ==>
      var ch := ParseChunk(input[pos..]).value;
      var o := AssemblerModel.ProcessChunk(c, p, ch);
      var next := pos + FragmentProto.HEADER + |ch.data|;
      && Inv(c, o.pool) && next <= |input|
      && Scan(c, p, input[pos..]) ==
         (if o.sent.Some? then Stop(o.pool, o.sent, input[next..]) else Scan(c, o.pool, input[next..]))
  {
    InvSized(c, p);
    if ParseChunk(input[pos..]).Some? {
      hide Inv, Sized, HasSlot, Scan, AssemblerModel.ProcessChunk;
      var ch := ParseChunk(input[pos..]).value;
      ProcessChunkCorrect(c, p, ch);
      ScanUnfold(c, p, input[pos..]);
      assert input[pos..][FragmentProto.HEADER + |ch.data|..] == input[pos + FragmentProto.HEADER + |ch.data|..];
    }
  }

  lemma ScanUnfold(c: Config, p: Pool, s: seq<byte>)
    requires HasSlot(p) && Sized(c, p) && ParseChunk(s).Some?
    ensures
      var ch := ParseChunk(s).value;
      var o := AssemblerModel.ProcessChunk(c, p, ch);
      var rest := s[FragmentProto.HEADER + |ch.data|..];
      Scan(c, p, s) == if o.sent.Some? then Stop(o.pool, o.sent, rest) else Scan(c, o.pool, rest)
  {
    hide Tick, ParseChunk, Sized, HasSlot, AssemblerModel.ProcessChunk;
  }

  lemma ScanEnd(c: Config, p: Pool, input: seq<byte>, pos: nat)
    requires Inv(c, p) && pos <= |input|
    ensures HasSlot(p) && Sized(c, p)
    ensures ParseChunk(input[pos..]).None? ==> Scan(c, p, input[pos..]) == Stop(Tick(c, p), None, [])
    ensures pos == |input| ==> ParseChunk(input[pos..]).None?
  {
    InvSized(c, p);
  }

  lemma TreeLookup(tree: map<nat, nat>, list: seq<nat>, used: seq<Frame>, id: nat)
    requires Indexed(tree, list, used)
    ensures |list| == |used| && (id in tree <==> IndexOf(used, id) < |used|)
    ensures id in tree ==> tree[id] == list[IndexOf(used, id)]
  {
    if id in tree {
      assert HasId(used, id);
    }
  }

  lemma {:induction false} MinTimeAppend(s: seq<Frame>, f: Frame)
    ensures MinTime(s + [f]) == if s == [] || f.time < MinTime(s) then f.time else MinTime(s)
  {
    if s == [] {
      assert s + [f] == [f];
    } else {
      MinTimeAppend(s[1..], f);
      assert (s + [f])[1..] == s[1..] + [f];
    }
  }

  lemma MinTimeUpTo(used: seq<Frame>, i: nat)
    requires i < |used|
    ensures MinTime(used[..i + 1]) ==
      if i == 0 || used[i].time < MinTime(used[..i]) then used[i].time else MinTime(used[..i])
  {
    assert used[..i + 1] == used[..i] + [used[i]];
    MinTimeAppend(used[..i], used[i]);
  }

  predicate MinBelowClock(c: Config, p: Pool) {
    var keep := Fresh(c, p.time, p.used);
    keep != [] ==> MinTime(keep) <= p.time
  }

  lemma InvMinBelowClock(c: Config, p: Pool)
    requires Inv(c, p)
    ensures MinBelowClock(c, p)
  {
    var keep := Fresh(c, p.time, p.used);
    FreshIsSublist(c, p.time, p.used);
    if keep != [] {
      assert keep[0] in p.used;
      var i :| 0 <= i < |p.used| && p.used[i] == keep[0];
      assert InProgress(c, p.time, p.used[i]);
    }
  }

  function WithFrameTime(p: Pool, i: nat, t: nat): Pool
    requires i < |p.used|
  {
    p.(used := p.used[i := p.used[i].(time := t)])
  }

  ghost predicate NoEarlier(p: Pool, d: nat, i: nat) {
    forall j :: i <= j < |p.used| ==> d <= p.used[j].time
  }

  /** Subtracts d from the times of the frames from index i on. */
  function ShiftFrom(p: Pool, d: nat, i: nat): Pool
    decreases |p.used| - i
  {
    if i >= |p.used| then p
    else ShiftFrom(WithFrameTime(p, i, if d <= p.used[i].time then p.used[i].time - d else 0), d, i + 1)
  }

  lemma {:induction false} ShiftFromAt(p: Pool, d: nat, i: nat)
    requires i <= |p.used| && NoEarlier(p, d, i)
    ensures var r := ShiftFrom(p, d, i).used;
      && ShiftFrom(p, d, i) == p.(used := r) && |r| == |p.used|
      && forall j :: 0 <= j < |r| ==> r[j] == if j < i then p.used[j] else Earlier(p.used[j], d)
    decreases |p.used| - i
  {
    if i < |p.used| {
      ShiftFromAt(WithFrameTime(p, i, p.used[i].time - d), d, i + 1);
    }
  }

  lemma ShiftFromStep(p: Pool, d: nat, i: nat)
    requires i < |p.used| && NoEarlier(p, d, i)
    ensures var q := WithFrameTime(p, i, p.used[i].time - d);
      ShiftFrom(p, d, i) == ShiftFrom(q, d, i + 1) && NoEarlier(q, d, i + 1)
  {
  }

  lemma ShiftFromEnd(p: Pool, d: nat, i: nat)
    requires i >= |p.used|
    ensures ShiftFrom(p, d, i) == p
  {
  }

  function Earlier(f: Frame, d: nat): Frame {
    f.(time := if d <= f.time then f.time - d else 0)
  }

  lemma ShiftFromIs(p: Pool, d: nat)
    requires NoEarlier(p, d, 0)
    ensures ShiftFrom(p, d, 0) == p.(used := Shift(p.used, d))
  {
    ShiftFromAt(p, d, 0);
    assert ShiftFrom(p, d, 0).used == Shift(p.used, d);
  }

  /** Frees the timed-out frames from index i on. */
  function Prune(c: Config, p: Pool, i: nat): Pool
    decreases |p.used| - i
  {
    if i >= |p.used| then p
    else if TimedOut(c, p.time, p.used[i]) then Prune(c, FreeAt(p, i), i)
    else Prune(c, p, i + 1)
  }

  lemma PruneStep(c: Config, p: Pool, i: nat)
    requires i < |p.used|
    ensures FreeAt(p, i).used[..i] == p.used[..i]
    ensures Prune(c, p, i) ==
      if TimedOut(c, p.time, p.used[i]) then Prune(c, FreeAt(p, i), i) else Prune(c, p, i + 1)
  {
  }

  lemma PruneEnd(c: Config, p: Pool)
    ensures Prune(c, p, |p.used|) == p
  {
  }

  lemma {:induction false} PruneFrom(c: Config, p: Pool, i: nat)
    requires i <= |p.used|
    ensures Prune(c, p, i) == Pool(p.time, p.used[..i] + Fresh(c, p.time, p.used[i..]),
                                   p.free + StaleBuffers(c, p.time, p.used[i..]))
    decreases |p.used| - i
  {
    if i < |p.used| {
      assert p.used[i..][1..] == p.used[i + 1..];
      if TimedOut(c, p.time, p.used[i]) {
        var q := FreeAt(p, i);
        assert q.used[..i] == p.used[..i] && q.used[i..] == p.used[i + 1..];
        PruneFrom(c, q, i);
      } else {
        PruneFrom(c, p, i + 1);
        assert p.used[..i + 1] == p.used[..i] + [p.used[i]];
      }
    }
  }

  lemma PruneIsFresh(c: Config, p: Pool)
    ensures Prune(c, p, 0) == Pool(p.time, Fresh(c, p.time, p.used), p.free + StaleBuffers(c, p.time, p.used))
  {
    PruneFrom(c, p, 0);
    assert p.used[0..] == p.used;
  }

  lemma PositionUnique(list: seq<nat>, i: nat)
    requires NoDup(list) && i < |list|
    ensures Position(list, list[i]) == i
  {
  }
}
