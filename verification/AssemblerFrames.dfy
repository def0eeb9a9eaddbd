/** What a step of the assembler does to the frames it is not about. */
module AssemblerFrames {
  import A = AssemblerModel
  import opened Counting
  import opened FragmentProto
  import opened Lists

  lemma IndexOfIs(used: seq<A.Frame>, i: nat)
    requires A.DistinctIds(used) && i < |used|
    ensures A.IndexOf(used, used[i].id) == i
  {
    var j := A.IndexOf(used, used[i].id);
    assert j <= i;
  }

  /** A frame of the pool q is one of the pool p. */
  ghost predicate FromPool(q: A.Pool, j: nat, p: A.Pool)
    requires j < |q.used|
  {
    exists i :: 0 <= i < |p.used| && p.used[i] == q.used[j]
  }

  // ---------------------------------------------------------------- the frames of other ids

  ghost predicate IdsIn(p: A.Pool, ids: set<nat>) {
    forall i :: 0 <= i < |p.used| ==> p.used[i].id in ids
  }

  /** The pools have the same frames, except under the id x. */
  ghost predicate SameBut(p: A.Pool, q: A.Pool, x: nat) {
    && (forall j :: 0 <= j < |q.used| && q.used[j].id != x ==> FromPool(q, j, p))
    && (forall i :: 0 <= i < |p.used| && p.used[i].id != x ==> FromPool(p, i, q))
  }

  function IdsOf(used: seq<A.Frame>): (ids: seq<nat>)
    ensures |ids| == |used| && forall i :: 0 <= i < |ids| ==> ids[i] == used[i].id
  {
    seq(|used|, i requires 0 <= i < |used| => used[i].id)
  }

  /** With no more ids than frame slots, a frame that is not there yet finds a free slot. */
  lemma SlotIsFree(c: A.Config, p: A.Pool, ids: set<nat>, x: nat)
    requires A.Inv(c, p) && IdsIn(p, ids) && |ids| <= c.numFrames && x in ids && A.IndexOf(p.used, x) == |p.used|
    ensures p.free != []
  {
    var all := IdsOf(p.used);
    ElementCount(all);
    ElementMembers(all);
    assert forall i :: 0 <= i < |all| ==> all[i] != x;
    SubsetSize(Elements(all) + {x}, ids);
  }

  lemma SameButTwice(p: A.Pool, q: A.Pool, r: A.Pool, x: nat)
    requires SameBut(p, q, x) && SameBut(q, r, x)
    ensures SameBut(p, r, x)
  {
    forall j | 0 <= j < |r.used| && r.used[j].id != x ensures FromPool(r, j, p) {
      assert FromPool(r, j, q);
      var k :| 0 <= k < |q.used| && q.used[k] == r.used[j];
      assert FromPool(q, k, p);
    }
    forall i | 0 <= i < |p.used| && p.used[i].id != x ensures FromPool(p, i, r) {
      assert FromPool(p, i, q);
      var k :| 0 <= k < |q.used| && q.used[k] == p.used[i];
      assert FromPool(q, k, r);
    }
  }

  lemma FreeAtOthers(p: A.Pool, i: nat)
    requires i < |p.used|
    ensures SameBut(p, A.FreeAt(p, i), p.used[i].id)
  {
    var r := A.FreeAt(p, i);
    forall j | 0 <= j < |r.used| ensures FromPool(r, j, p) {
      assert r.used[j] == p.used[if j < i then j else j + 1];
    }
    forall k | 0 <= k < |p.used| && k != i ensures FromPool(p, k, r) {
      assert r.used[if k < i then k else k - 1] == p.used[k];
    }
  }

  lemma ReplaceOthers(p: A.Pool, i: nat, g: A.Frame)
    requires i < |p.used| && g.id == p.used[i].id
    ensures SameBut(p, p.(used := p.used[i := g]), g.id)
  {
    var r := p.(used := p.used[i := g]);
    forall j | 0 <= j < |r.used| && j != i ensures FromPool(r, j, p) && FromPool(p, j, r) {
      assert r.used[j] == p.used[j];
    }
  }

  lemma AllocateOthers(p: A.Pool, x: nat)
    requires p.free != []
    ensures SameBut(p, A.Allocate(p, x), x)
  {
    var r := A.Allocate(p, x);
    forall i | 0 <= i < |p.used| ensures FromPool(p, i, r) && FromPool(r, i, p) {
      assert r.used[i] == p.used[i];
    }
  }

  lemma SameIdsIn(p: A.Pool, q: A.Pool, x: nat, ids: set<nat>)
    requires SameBut(p, q, x) && IdsIn(p, ids) && x in ids
    ensures IdsIn(q, ids)
  {
    forall j | 0 <= j < |q.used| ensures q.used[j].id in ids {
      if q.used[j].id != x {
        assert FromPool(q, j, p);
      }
    }
  }

  /** Making room for a chunk evicts no other frame. */
  lemma LocateOthers(c: A.Config, p: A.Pool, ids: set<nat>, x: nat)
    requires A.Inv(c, p) && IdsIn(p, ids) && |ids| <= c.numFrames && x in ids
    ensures A.HasSlot(p)
    ensures var q := A.Locate(c, p, x); A.Inv(c, q) && q.time == p.time && SameBut(p, q, x)
  {
    hide A.Inv, SameBut, A.Allocate, A.FreeAt;
    A.LocateInv(c, p, x);
    var i := A.IndexOf(p.used, x);
    if i == |p.used| {
      SlotIsFree(c, p, ids, x);
      AllocateOthers(p, x);
    } else if A.TimedOut(c, p.time, p.used[i]) {
      FreeAtOthers(p, i);
      FreedHasSlot(p, i);
      AllocateOthers(A.FreeAt(p, i), x);
      SameButTwice(p, A.FreeAt(p, i), A.Allocate(A.FreeAt(p, i), x), x);
    } else {
      SameButItself(p, x);
    }
  }

  lemma SameButItself(p: A.Pool, x: nat)
    ensures SameBut(p, p, x)
  {
  }

  lemma FreedHasSlot(p: A.Pool, i: nat)
    requires i < |p.used|
    ensures A.FreeAt(p, i).free != []
  {
  }

  /** A chunk leaves the frames of other ids alone, whatever it is. */
  lemma ChunkOthers(c: A.Config, p: A.Pool, ids: set<nat>, ch: Chunk)
    requires A.Inv(c, p) && IdsIn(p, ids) && |ids| <= c.numFrames && ch.id in ids
    ensures A.HasSlot(p) && A.Sized(c, p)
    ensures var r := A.ProcessChunk(c, p, ch).pool; A.Inv(c, r) && r.time == p.time && SameBut(p, r, ch.id) && IdsIn(r, ids)
  {
    hide A.Inv, SameBut, A.FreeAt, A.Locate, A.Acceptable, A.AddPiece, A.Sized, IdsIn;
    A.ProcessChunkCorrect(c, p, ch);
    var s := A.Piece(ch.start, ch.data);
    if s.End() <= c.outputMtu {
      LocateOthers(c, p, ids, ch.id);
      var q := A.Locate(c, p, ch.id);
      var i := A.IndexOf(q.used, ch.id);
      FreeAtOthers(q, i);
      SameButTwice(p, q, A.FreeAt(q, i), ch.id);
      if A.Acceptable(q.used[i], s, ch.last) {
        AddedOthers(c, q, i, s, ch.last);
        var r := q.(used := q.used[i := A.AddPiece(q.used[i], q.time, s, ch.last)]);
        SameButTwice(p, q, r, ch.id);
        SameButTwice(p, q, A.FreeAt(r, i), ch.id);
      }
    } else {
      SameButItself(p, ch.id);
    }
    SameIdsIn(p, A.ProcessChunk(c, p, ch).pool, ch.id, ids);
  }

  lemma AddedOthers(c: A.Config, q: A.Pool, i: nat, s: A.Piece, last: bool)
    requires A.Inv(c, q) && i < |q.used| && s.End() <= c.outputMtu
    ensures |q.used[i].buffer| == c.outputMtu
    ensures var r := q.(used := q.used[i := A.AddPiece(q.used[i], q.time, s, last)]);
      SameBut(q, r, q.used[i].id) && SameBut(q, A.FreeAt(r, i), q.used[i].id)
  {
    hide SameBut, A.FreeAt;
    var f := q.used[i];
    assert A.InProgress(c, q.time, f);
    var g := A.AddPiece(f, q.time, s, last);
    var r := q.(used := q.used[i := g]);
    ReplaceOthers(q, i, g);
    FreeAtOthers(r, i);
    SameButTwice(q, r, A.FreeAt(r, i), f.id);
  }

  /** What the other pool has under an id it agrees on. */
  lemma SameFrame(p: A.Pool, q: A.Pool, x: nat, id: nat)
    requires A.DistinctIds(p.used) && A.DistinctIds(q.used) && SameBut(p, q, x) && id != x
    ensures var i, j := A.IndexOf(p.used, id), A.IndexOf(q.used, id);
      (i < |p.used| <==> j < |q.used|) && (i < |p.used| ==> p.used[i] == q.used[j])
  {
    var i, j := A.IndexOf(p.used, id), A.IndexOf(q.used, id);
    if j < |q.used| {
      assert FromPool(q, j, p);
      var k :| 0 <= k < |p.used| && p.used[k] == q.used[j];
      IndexOfIs(p.used, k);
    }
    if i < |p.used| {
      assert FromPool(p, i, q);
      var k :| 0 <= k < |q.used| && q.used[k] == p.used[i];
      IndexOfIs(q.used, k);
    }
  }

  // ---------------------------------------------------------------- the end of a packet

  ghost predicate Live(c: A.Config, p: A.Pool, id: nat) {
    var i := A.IndexOf(p.used, id);
    i < |p.used| && !A.TimedOut(c, p.time, p.used[i])
  }

  /** The same frame, a packet later. */
  ghost predicate Older(f: A.Frame, now: nat, g: A.Frame, later: nat) {
    g == f.(time := g.time) && later - g.time == now - f.time + 1
  }

  ghost predicate HasOlder(r: A.Pool, f: A.Frame, now: nat) {
    exists j :: 0 <= j < |r.used| && Older(f, now, r.used[j], r.time)
  }

  ghost predicate WasYounger(p: A.Pool, g: A.Frame, later: nat) {
    exists i :: 0 <= i < |p.used| && Older(p.used[i], p.time, g, later)
  }

  /** Every frame gets one packet older, unless it is too old and the clock is renormalised. */
  lemma TickFrames(c: A.Config, p: A.Pool)
    requires A.Inv(c, p)
    ensures var r := A.Tick(c, p);
      && (forall j :: 0 <= j < |r.used| ==> WasYounger(p, r.used[j], r.time))
      && (forall i :: 0 <= i < |p.used| && !A.TimedOut(c, p.time, p.used[i]) ==> HasOlder(r, p.used[i], p.time))
  {
    hide A.Inv, A.ReduceTimes;
    var r := A.Tick(c, p);
    if p.time == A.MAX_TIME {
      A.ReduceTimesCorrect(c, p);
      A.FreshIsSublist(c, p.time, p.used);
      ShiftedFrames(c, p, A.ReduceTimes(c, p), r, A.Fresh(c, p.time, p.used));
    } else {
      forall j | 0 <= j < |r.used| ensures WasYounger(p, r.used[j], r.time) && HasOlder(r, p.used[j], p.time) {
        assert Older(p.used[j], p.time, r.used[j], r.time);
      }
    }
  }

  lemma ShiftedFrames(c: A.Config, p: A.Pool, m: A.Pool, r: A.Pool, keep: seq<A.Frame>)
    requires A.SameAges(m.used, m.time, keep, p.time) && r.used == m.used && (m.used != [] ==> r.time == m.time + 1)
    requires forall f :: f in keep <==> f in p.used && !A.TimedOut(c, p.time, f)
    ensures forall j :: 0 <= j < |r.used| ==> WasYounger(p, r.used[j], r.time)
    ensures forall i :: 0 <= i < |p.used| && !A.TimedOut(c, p.time, p.used[i]) ==> HasOlder(r, p.used[i], p.time)
  {
    forall j | 0 <= j < |r.used| ensures WasYounger(p, r.used[j], r.time) {
      assert keep[j] in keep;
      var i :| 0 <= i < |p.used| && p.used[i] == keep[j];
      assert Older(p.used[i], p.time, r.used[j], r.time);
    }
    forall i | 0 <= i < |p.used| && !A.TimedOut(c, p.time, p.used[i]) ensures HasOlder(r, p.used[i], p.time) {
      assert p.used[i] in keep;
      var j :| 0 <= j < |keep| && keep[j] == p.used[i];
      assert Older(p.used[i], p.time, r.used[j], r.time);
    }
  }

  /** A frame that is not too old yet is still there, and nothing comes from nowhere. */
  lemma TickLive(c: A.Config, p: A.Pool, id: nat)
    requires A.Inv(c, p)
    ensures var r := A.Tick(c, p); var i, j := A.IndexOf(p.used, id), A.IndexOf(r.used, id);
      && (Live(c, r, id) ==> Live(c, p, id)) && (i == |p.used| ==> j == |r.used|)
      && (Live(c, p, id) ==> j < |r.used| && Older(p.used[i], p.time, r.used[j], r.time))
  {
    hide A.Tick;
    A.TickCorrect(c, p);
    TickFrames(c, p);
    var r := A.Tick(c, p);
    var i, j := A.IndexOf(p.used, id), A.IndexOf(r.used, id);
    if j < |r.used| {
      assert WasYounger(p, r.used[j], r.time);
      var k :| 0 <= k < |p.used| && Older(p.used[k], p.time, r.used[j], r.time);
      IndexOfIs(p.used, k);
    }
    if Live(c, p, id) {
      assert HasOlder(r, p.used[i], p.time);
      var k :| 0 <= k < |r.used| && Older(p.used[i], p.time, r.used[k], r.time);
      IndexOfIs(r.used, k);
    }
  }

  lemma TickIdsIn(c: A.Config, p: A.Pool, ids: set<nat>)
    requires A.Inv(c, p) && IdsIn(p, ids)
    ensures IdsIn(A.Tick(c, p), ids)
  {
    hide A.Tick, A.Inv;
    TickFrames(c, p);
    var r := A.Tick(c, p);
    forall j | 0 <= j < |r.used| ensures r.used[j].id in ids {
      assert WasYounger(p, r.used[j], r.time);
    }
  }
}
