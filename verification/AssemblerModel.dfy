/**
 * The state of a FragmentProto assembler as a value, and what each step does to it.
 * The class of module FragmentProtoAssembler is proved to follow these functions.
 */
module AssemblerModel {
  import opened Bytes
  import opened Counting
  import opened FragmentProto
  import opened Lists

  /** FPA_MAX_TIME, the largest value of the 32-bit packet clock. */
  const MAX_TIME: nat := 0xFFFF_FFFF

  datatype Config = Config(outputMtu: nat, numFrames: nat, numChunks: nat) {
    predicate Valid() {
      0 < numFrames < MAX_TIME && 0 < numChunks
    }
  }

  /** An accepted chunk: where it starts, and the bytes it brought. */
  datatype Piece = Piece(start: nat, data: seq<byte>) {
    function End(): nat { start + |data| }

    predicate Covers(k: int) { start <= k < End() }
  }

  datatype Frame = Frame(id: nat, time: nat, pieces: seq<Piece>, sum: nat,
                         length: int, lengthSoFar: nat, buffer: seq<byte>)

  /**
   * `used` is the used list, oldest allocation first. `free` holds the stale buffers
   * of the free list, in list order: a newly allocated frame starts with one of them.
   */
  datatype Pool = Pool(time: nat, used: seq<Frame>, free: seq<seq<byte>>)

  // ---------------------------------------------------------------- slots

  function IndexOf(used: seq<Frame>, id: nat): (i: nat)
    ensures i <= |used|
    ensures i < |used| ==> used[i].id == id
    ensures forall j :: 0 <= j < i ==> used[j].id != id
  {
    if used == [] || used[0].id == id then 0 else 1 + IndexOf(used[1..], id)
  }

  predicate TimedOut(c: Config, now: nat, f: Frame) {
    now - f.time > c.numFrames
  }

  function FreeAt(p: Pool, i: nat): Pool
    requires i < |p.used|
  {
    p.(used := RemoveAt(p.used, i), free := p.free + [p.used[i].buffer])
  }

  function NewFrame(id: nat, now: nat, buffer: seq<byte>): Frame {
    Frame(id, now, [], 0, -1, 0, buffer)
  }

  /** A frame slot for `id`: the first free one, after evicting the oldest used one if none is free. */
  function Allocate(p: Pool, id: nat): (q: Pool)
    requires p.used != [] || p.free != []
    ensures q.used != [] && q.used[|q.used| - 1].id == id
  {
    var r := if p.free == [] then FreeAt(p, 0) else p;
    r.(used := r.used + [NewFrame(id, r.time, r.free[0])], free := r.free[1..])
  }

  // ---------------------------------------------------------------- the clock

  function Fresh(c: Config, now: nat, used: seq<Frame>): seq<Frame> {
    if used == [] then [] else
    (if TimedOut(c, now, used[0]) then [] else [used[0]]) + Fresh(c, now, used[1..])
  }

  function StaleBuffers(c: Config, now: nat, used: seq<Frame>): seq<seq<byte>> {
    if used == [] then [] else
    (if TimedOut(c, now, used[0]) then [used[0].buffer] else []) + StaleBuffers(c, now, used[1..])
  }

  function MinTime(used: seq<Frame>): (m: nat)
    requires used != []
    ensures forall i :: 0 <= i < |used| ==> m <= used[i].time
  {
    if |used| == 1 then used[0].time else
    var m := MinTime(used[1..]);
    assert forall i :: 1 <= i < |used| ==> used[i] == used[1..][i - 1];
    if used[0].time < m then used[0].time else m
  }

  function Shift(used: seq<Frame>, d: nat): (r: seq<Frame>)
    requires forall i :: 0 <= i < |used| ==> d <= used[i].time
    ensures |r| == |used|
    ensures forall i :: 0 <= i < |r| ==> r[i] == used[i].(time := used[i].time - d)
  {
    seq(|used|, i requires 0 <= i < |used| => used[i].(time := used[i].time - d))
  }

  ghost function ReduceTimes(c: Config, p: Pool): Pool {
    var keep := Fresh(c, p.time, p.used);
    var free := p.free + StaleBuffers(c, p.time, p.used);
    if keep == [] then Pool(0, [], free)
    else
      var m := MinTime(keep);
      Pool(if m <= p.time then p.time - m else 0, Shift(keep, m), free)
  }

  /** The end of an input packet advances the packet clock. */
  ghost function Tick(c: Config, p: Pool): Pool {
    if p.time == MAX_TIME then
      var r := ReduceTimes(c, p);
      if r.used != [] then r.(time := r.time + 1) else r
    else
      p.(time := p.time + 1)
  }

  // ---------------------------------------------------------------- chunks

  predicate Overlap(start1: int, len1: int, start2: int, len2: int) {
    start1 + len1 > start2 && start2 + len2 > start1
  }

  predicate Acceptable(f: Frame, s: Piece, last: bool) {
    && (forall i :: 0 <= i < |f.pieces| ==> !Overlap(f.pieces[i].start, |f.pieces[i].data|, s.start, |s.data|))
    && (if last then f.length < 0 && f.lengthSoFar <= s.End()
        else f.length < 0 || s.End() <= f.length)
  }

  function Splice(buffer: seq<byte>, s: Piece): (r: seq<byte>)
    requires s.End() <= |buffer|
    ensures |r| == |buffer|
    ensures forall k :: 0 <= k < |r| ==> r[k] == if s.Covers(k) then s.data[k - s.start] else buffer[k]
  {
    buffer[..s.start] + s.data + buffer[s.End()..]
  }

  function AddPiece(f: Frame, now: nat, s: Piece, last: bool): Frame
    requires s.End() <= |f.buffer|
  {
    Frame(f.id, now, f.pieces + [s], f.sum + |s.data|,
          if last then s.End() else f.length,
          if !last && f.length < 0 && f.lengthSoFar < s.End() then s.End() else f.lengthSoFar,
          Splice(f.buffer, s))
  }

  predicate Incomplete(f: Frame) {
    f.length < 0 || f.sum < f.length
  }

  predicate HasSlot(p: Pool) {
    p.used != [] || p.free != []
  }

  /** The pool in which the chunk's frame exists and is not timed out. */
  function Locate(c: Config, p: Pool, id: nat): (q: Pool)
    requires HasSlot(p)
    ensures IndexOf(q.used, id) < |q.used|
  {
    var i := IndexOf(p.used, id);
    if i == |p.used| then Allocate(p, id)
    else if TimedOut(c, p.time, p.used[i]) then Allocate(FreeAt(p, i), id)
    else p
  }

  datatype Outcome = Outcome(pool: Pool, sent: Option<seq<byte>>)

  function ProcessChunk(c: Config, p: Pool, ch: Chunk): (o: Outcome)
    requires HasSlot(p) && Sized(c, p)
    ensures HasSlot(o.pool) && Sized(c, o.pool)
  {
    var s := Piece(ch.start, ch.data);
    if s.End() > c.outputMtu then Outcome(p, None)
    else
      var q := Locate(c, p, ch.id);
      var i := IndexOf(q.used, ch.id);
      LocateSized(c, p, ch.id);
      FreeAtSized(c, q, i);
      if !Acceptable(q.used[i], s, ch.last) then Outcome(FreeAt(q, i), None)
      else
        var r := q.(used := q.used[i := AddPiece(q.used[i], q.time, s, ch.last)]);
        FreeAtSized(c, r, i);
        Settle(c, r, i)
  }

  /** What becomes of frame i when a chunk has just been added to it. */
  function Settle(c: Config, r: Pool, i: nat): Outcome
    requires i < |r.used| && r.used[i].length <= |r.used[i].buffer|
  {
    var f := r.used[i];
    if Incomplete(f) then
      Outcome(if |f.pieces| == c.numChunks then FreeAt(r, i) else r, None)
    else
      Outcome(FreeAt(r, i), Some(f.buffer[..f.length]))
  }

  predicate Sized(c: Config, p: Pool) {
    && (forall i :: 0 <= i < |p.used| ==> |p.used[i].buffer| == c.outputMtu && p.used[i].length <= c.outputMtu)
    && (forall i :: 0 <= i < |p.free| ==> |p.free[i]| == c.outputMtu)
  }

  lemma FreeAtSized(c: Config, p: Pool, i: nat)
    requires i < |p.used| && Sized(c, p)
    ensures HasSlot(FreeAt(p, i)) && Sized(c, FreeAt(p, i))
  {
  }

  lemma AllocateSized(c: Config, p: Pool, id: nat)
    requires HasSlot(p) && Sized(c, p)
    ensures Sized(c, Allocate(p, id))
  {
    if p.free == [] { FreeAtSized(c, p, 0); }
  }

  lemma LocateSized(c: Config, p: Pool, id: nat)
    requires HasSlot(p) && Sized(c, p)
    ensures Sized(c, Locate(c, p, id))
  {
    var i := IndexOf(p.used, id);
    if i == |p.used| {
      AllocateSized(c, p, id);
    } else if TimedOut(c, p.time, p.used[i]) {
      FreeAtSized(c, p, i);
      AllocateSized(c, FreeAt(p, i), id);
    }
  }

  // ---------------------------------------------------------------- invariant

  function Total(ps: seq<Piece>): nat {
    if ps == [] then 0 else Total(ps[..|ps| - 1]) + |ps[|ps| - 1].data|
  }

  ghost predicate Disjoint(ps: seq<Piece>) {
    forall i, j :: 0 <= i < j < |ps| ==>
      !Overlap(ps[i].start, |ps[i].data|, ps[j].start, |ps[j].data|)
  }

  ghost predicate Within(ps: seq<Piece>, bound: int) {
    forall i :: 0 <= i < |ps| ==> ps[i].End() <= bound
  }

  ghost predicate Written(ps: seq<Piece>, buffer: seq<byte>) {
    forall i, k :: 0 <= i < |ps| && ps[i].Covers(k) && k < |buffer| ==> buffer[k] == ps[i].data[k - ps[i].start]
  }

  function BoundOf(f: Frame): int {
    if f.length >= 0 then f.length else f.lengthSoFar
  }

  ghost predicate FrameOk(c: Config, now: nat, f: Frame) {
    && f.time <= now
    && |f.buffer| == c.outputMtu
    && -1 <= f.length && BoundOf(f) <= c.outputMtu
    && f.sum == Total(f.pieces)
    && Disjoint(f.pieces)
    && Within(f.pieces, BoundOf(f))
    && Written(f.pieces, f.buffer)
  }

  ghost predicate InProgress(c: Config, now: nat, f: Frame) {
    FrameOk(c, now, f) && |f.pieces| < c.numChunks && Incomplete(f)
  }

  ghost predicate DistinctIds(used: seq<Frame>) {
    forall i, j :: 0 <= i < j < |used| ==> used[i].id != used[j].id
  }

  ghost predicate Inv(c: Config, p: Pool) {
    && c.Valid()
    && p.time <= MAX_TIME
    && |p.used| + |p.free| == c.numFrames
    && DistinctIds(p.used)
    && (forall i :: 0 <= i < |p.used| ==> InProgress(c, p.time, p.used[i]))
    && (forall i :: 0 <= i < |p.free| ==> |p.free[i]| == c.outputMtu)
  }

  lemma InvSized(c: Config, p: Pool)
    requires Inv(c, p)
    ensures HasSlot(p) && Sized(c, p)
  {
  }

  // ---------------------------------------------------------------- pigeonhole

  function CoverOf(ps: seq<Piece>): (s: set<nat>) {
    if ps == [] then {} else
    var last := ps[|ps| - 1];
    CoverOf(ps[..|ps| - 1]) + Interval(last.start, last.End())
  }

  ghost predicate Covered(ps: seq<Piece>, k: nat) {
    exists i :: 0 <= i < |ps| && ps[i].Covers(k)
  }

  lemma {:induction false} CoverOfMembers(ps: seq<Piece>, k: nat)
    ensures k in CoverOf(ps) <==> Covered(ps, k)
  {
    if ps != [] {
      var front, last := ps[..|ps| - 1], ps[|ps| - 1];
      CoverOfMembers(front, k);
      if Covered(ps, k) {
        var i :| 0 <= i < |ps| && ps[i].Covers(k);
        assert i < |front| ==> front[i].Covers(k);
      }
      if Covered(front, k) {
        var i :| 0 <= i < |front| && front[i].Covers(k);
        assert ps[i].Covers(k);
      }
      assert last.Covers(k) ==> Covered(ps, k);
    }
  }

  lemma LastIsApart(ps: seq<Piece>, k: nat)
    requires Disjoint(ps) && ps != [] && k in CoverOf(ps[..|ps| - 1])
    ensures !ps[|ps| - 1].Covers(k)
  {
    var front, last := ps[..|ps| - 1], ps[|ps| - 1];
    CoverOfMembers(front, k);
    var i :| 0 <= i < |front| && front[i].Covers(k);
    assert !Overlap(ps[i].start, |ps[i].data|, last.start, |last.data|);
  }

  lemma {:induction false} CoverOfSize(ps: seq<Piece>)
    requires Disjoint(ps)
    ensures |CoverOf(ps)| == Total(ps)
  {
    if ps != [] {
      var front, last := ps[..|ps| - 1], ps[|ps| - 1];
      CoverOfSize(front);
      forall k | k in CoverOf(front) ensures k !in Interval(last.start, last.End()) {
        LastIsApart(ps, k);
      }
      assert CoverOf(front) !! Interval(last.start, last.End());
    }
  }

  /**
   * Disjoint pieces inside [0, bound) hold at most `bound` bytes, and when they hold exactly that
   * many, every position is covered.
   */
  lemma Pigeonhole(ps: seq<Piece>, bound: nat)
    requires Disjoint(ps) && Within(ps, bound)
    ensures Total(ps) <= bound
    ensures Total(ps) == bound ==> forall k :: 0 <= k < bound ==> Covered(ps, k)
  {
    var all := Interval(0, bound);
    CoverOfSize(ps);
    forall k | k in CoverOf(ps) ensures k in all {
      CoverOfMembers(ps, k);
    }
    SubsetSize(CoverOf(ps), all);
    if Total(ps) == bound {
      forall k | 0 <= k < bound ensures Covered(ps, k) {
        assert k in all;
        CoverOfMembers(ps, k);
      }
    }
  }

  lemma CoveredOnce(ps: seq<Piece>, i: nat, j: nat, k: nat)
    requires Disjoint(ps) && i < |ps| && j < |ps| && ps[i].Covers(k) && ps[j].Covers(k)
    ensures i == j
  {
    if i < j {
      assert Overlap(ps[i].start, |ps[i].data|, ps[j].start, |ps[j].data|);
    } else if j < i {
      assert Overlap(ps[j].start, |ps[j].data|, ps[i].start, |ps[i].data|);
    }
  }

  // ---------------------------------------------------------------- preservation

  lemma FreeAtInv(c: Config, p: Pool, i: nat)
    requires i < |p.used|
    requires c.Valid() && p.time <= MAX_TIME && |p.used| + |p.free| == c.numFrames && DistinctIds(p.used)
    requires forall j :: 0 <= j < |p.used| && j != i ==> InProgress(c, p.time, p.used[j])
    requires forall j :: 0 <= j < |p.free| ==> |p.free[j]| == c.outputMtu
    requires |p.used[i].buffer| == c.outputMtu
    ensures Inv(c, FreeAt(p, i))
  {
  }

  lemma DroppedInv(c: Config, p: Pool, i: nat)
    requires Inv(c, p) && i < |p.used|
    ensures Inv(c, FreeAt(p, i))
  {
    FreeAtInv(c, p, i);
  }

  lemma AllocateInv(c: Config, p: Pool, id: nat)
    requires Inv(c, p) && IndexOf(p.used, id) == |p.used|
    ensures HasSlot(p) && Inv(c, Allocate(p, id))
    ensures IndexOf(Allocate(p, id).used, id) == |Allocate(p, id).used| - 1
    ensures Allocate(p, id).used[|Allocate(p, id).used| - 1].pieces == []
  {
    var r := if p.free == [] then FreeAt(p, 0) else p;
    if p.free == [] { DroppedInv(c, p, 0); }
    forall j | 0 <= j < |r.used| ensures r.used[j].id != id {
      if p.free == [] { assert r.used[j] == p.used[j + 1]; }
    }
    var f := NewFrame(id, r.time, r.free[0]);
    assert FrameOk(c, r.time, f);
  }

  /**
   * Only the frame at the head of the used list is evicted, and only if no slot is free; the others
   * stay as they are, and the new frame goes behind them. So it is the order of allocation that
   * decides, whichever frames have got chunks since.
   */
  lemma OldestIsEvicted(c: Config, p: Pool, id: nat, f: Frame)
    requires HasSlot(p)
    ensures f in p.used && f !in Allocate(p, id).used ==> p.free == [] && f == p.used[0]
    ensures f in Allocate(p, id).used && f !in p.used ==> f.id == id && f.pieces == [] && f.length == -1
    ensures forall i, j :: 0 <= i < j < |Allocate(p, id).used| - 1 ==>
      var first := if p.free == [] then 1 else 0;
      Allocate(p, id).used[i] == p.used[i + first] && Allocate(p, id).used[j] == p.used[j + first]
  {
    var q := Allocate(p, id).used;
    if f in p.used {
      var i :| 0 <= i < |p.used| && p.used[i] == f;
      if p.free != [] {
        assert q[i] == f;
      } else if i > 0 {
        assert q[i - 1] == f;
      }
    }
  }

  lemma RemovedIdIsGone(c: Config, p: Pool, i: nat)
    requires Inv(c, p) && i < |p.used|
    ensures IndexOf(FreeAt(p, i).used, p.used[i].id) == |p.used| - 1
  {
    var r := FreeAt(p, i).used;
    forall j | 0 <= j < |r| ensures r[j].id != p.used[i].id {
      assert r[j] == p.used[if j < i then j else j + 1];
    }
  }

  lemma LocateInv(c: Config, p: Pool, id: nat)
    requires Inv(c, p)
    ensures HasSlot(p) && Inv(c, Locate(c, p, id))
    ensures Locate(c, p, id).time == p.time
    ensures Locate(c, p, id).used[IndexOf(Locate(c, p, id).used, id)].pieces == AcceptedSoFar(c, p, id)
  {
    var i := IndexOf(p.used, id);
    if i == |p.used| {
      AllocateInv(c, p, id);
    } else if TimedOut(c, p.time, p.used[i]) {
      FreeAtInv(c, p, i);
      RemovedIdIsGone(c, p, i);
      AllocateInv(c, FreeAt(p, i), id);
    }
  }

  /** The chunks the live frame with this id has accepted; none if there is no such frame. */
  function AcceptedSoFar(c: Config, p: Pool, id: nat): seq<Piece> {
    var i := IndexOf(p.used, id);
    if i < |p.used| && !TimedOut(c, p.time, p.used[i]) then p.used[i].pieces else []
  }

  lemma AddPieceOk(c: Config, now: nat, f: Frame, s: Piece, last: bool)
    requires InProgress(c, now, f) && s.End() <= c.outputMtu && Acceptable(f, s, last)
    ensures FrameOk(c, now, AddPiece(f, now, s, last))
    ensures var g := AddPiece(f, now, s, last); g.length >= 0 ==> g.sum <= g.length
  {
    var g := AddPiece(f, now, s, last);
    assert g.pieces[..|g.pieces| - 1] == f.pieces;
    forall i, k | 0 <= i < |g.pieces| && g.pieces[i].Covers(k) && k < |g.buffer|
      ensures g.buffer[k] == g.pieces[i].data[k - g.pieces[i].start]
    {
      if i < |f.pieces| {
        assert !Overlap(f.pieces[i].start, |f.pieces[i].data|, s.start, |s.data|);
        assert f.pieces[i].Covers(k) && !s.Covers(k);
      }
    }
    assert Within(g.pieces, BoundOf(g));
    if g.length >= 0 {
      Pigeonhole(g.pieces, g.length);
    }
  }

  /** Position k of `out` was brought by piece i. */
  ghost predicate Brought(ps: seq<Piece>, out: seq<byte>, i: int, k: int) {
    0 <= i < |ps| && 0 <= k < |out| && ps[i].Covers(k) && out[k] == ps[i].data[k - ps[i].start]
  }

  ghost predicate BroughtBySome(ps: seq<Piece>, out: seq<byte>, k: int) {
    exists i :: Brought(ps, out, i, k)
  }

  /** Every position of the frame sent comes from one accepted chunk and from no other. */
  ghost predicate ExactlyFrom(ps: seq<Piece>, out: seq<byte>) {
    && Within(ps, |out|) && Total(ps) == |out|
    && (forall k :: 0 <= k < |out| ==> BroughtBySome(ps, out, k))
    && (forall i, j, k :: Brought(ps, out, i, k) && 0 <= j < |ps| && ps[j].Covers(k) ==> i == j)
  }

  lemma CompleteFrame(c: Config, now: nat, f: Frame)
    requires FrameOk(c, now, f) && !Incomplete(f)
    ensures f.sum == f.length <= |f.buffer|
    ensures ExactlyFrom(f.pieces, f.buffer[..f.length])
  {
    var ps, out := f.pieces, f.buffer[..f.length];
    Pigeonhole(ps, f.length);
    forall k | 0 <= k < |out| ensures BroughtBySome(ps, out, k) {
      assert Covered(ps, k);
      var i :| 0 <= i < |ps| && ps[i].Covers(k);
      assert Brought(ps, out, i, k);
    }
    forall i, j, k | Brought(ps, out, i, k) && 0 <= j < |ps| && ps[j].Covers(k) ensures i == j {
      CoveredOnce(ps, i, j, k);
    }
  }

  /**
   * One chunk keeps the invariant; and when it completes a frame, what is sent is made of the bytes
   * of that frame's accepted chunks, this one included, each position written exactly once: nothing
   * of an earlier use of the slot is left in it.
   */
  lemma ProcessChunkCorrect(c: Config, p: Pool, ch: Chunk)
    requires Inv(c, p)
    ensures HasSlot(p) && Sized(c, p)
    ensures Inv(c, ProcessChunk(c, p, ch).pool) && ProcessChunk(c, p, ch).pool.time == p.time
    ensures ProcessChunk(c, p, ch).sent.Some? ==>
      ExactlyFrom(AcceptedSoFar(c, p, ch.id) + [Piece(ch.start, ch.data)], ProcessChunk(c, p, ch).sent.value)
  {
    hide Inv, FrameOk, Disjoint, Within, Written, Locate, Acceptable, ExactlyFrom, AcceptedSoFar;
    InvSized(c, p);
    var s := Piece(ch.start, ch.data);
    if s.End() <= c.outputMtu {
      LocateInv(c, p, ch.id);
      var q := Locate(c, p, ch.id);
      var i := IndexOf(q.used, ch.id);
      if !Acceptable(q.used[i], s, ch.last) {
        DroppedInv(c, q, i);
      } else {
        AddPieceOk(c, q.time, q.used[i], s, ch.last);
        ReplacedFrameInv(c, q, i, AddPiece(q.used[i], q.time, s, ch.last));
      }
    }
  }

  lemma ReplacedFrameInv(c: Config, q: Pool, i: nat, f: Frame)
    requires Inv(c, q) && i < |q.used| && f.id == q.used[i].id
    requires FrameOk(c, q.time, f) && 0 < |f.pieces| <= c.numChunks
    ensures Inv(c, FreeAt(q.(used := q.used[i := f]), i))
    ensures InProgress(c, q.time, f) ==> Inv(c, q.(used := q.used[i := f]))
    ensures !Incomplete(f) ==> f.length <= |f.buffer| && ExactlyFrom(f.pieces, f.buffer[..f.length])
  {
    FreeAtInv(c, q.(used := q.used[i := f]), i);
    if !Incomplete(f) {
      CompleteFrame(c, q.time, f);
    }
  }

  // ---------------------------------------------------------------- clock renormalisation

  lemma {:induction false} FreshMembers(c: Config, now: nat, used: seq<Frame>)
    ensures forall f :: f in Fresh(c, now, used) <==> f in used && !TimedOut(c, now, f)
    ensures |StaleBuffers(c, now, used)| + |Fresh(c, now, used)| == |used|
  {
    hide TimedOut;
    if used != [] {
      FreshMembers(c, now, used[1..]);
      assert used == [used[0]] + used[1..];
    }
  }

  lemma {:induction false} FreshDistinct(c: Config, now: nat, used: seq<Frame>)
    requires DistinctIds(used)
    ensures DistinctIds(Fresh(c, now, used))
  {
    hide TimedOut;
    if used != [] {
      var rest := used[1..];
      FreshDistinct(c, now, rest);
      FreshMembers(c, now, rest);
      var keep := Fresh(c, now, rest);
      assert forall i :: 0 <= i < |keep| ==> keep[i] in keep;
      assert forall i :: 0 <= i < |rest| ==> rest[i] == used[i + 1];
    }
  }

  lemma FreshIsSublist(c: Config, now: nat, used: seq<Frame>)
    ensures forall f :: f in Fresh(c, now, used) <==> f in used && !TimedOut(c, now, f)
    ensures forall i :: 0 <= i < |Fresh(c, now, used)| ==> !TimedOut(c, now, Fresh(c, now, used)[i])
    ensures |StaleBuffers(c, now, used)| + |Fresh(c, now, used)| == |used|
    ensures DistinctIds(used) ==> DistinctIds(Fresh(c, now, used))
  {
    hide TimedOut, Fresh, StaleBuffers;
    FreshMembers(c, now, used);
    var keep := Fresh(c, now, used);
    assert forall i :: 0 <= i < |keep| ==> keep[i] in keep;
    if DistinctIds(used) { FreshDistinct(c, now, used); }
  }

  lemma {:induction false} StaleBuffersSized(c: Config, now: nat, used: seq<Frame>)
    requires forall f :: f in used ==> |f.buffer| == c.outputMtu
    ensures forall b :: b in StaleBuffers(c, now, used) ==> |b| == c.outputMtu
  {
    if used != [] {
      assert used == [used[0]] + used[1..];
      StaleBuffersSized(c, now, used[1..]);
    }
  }

  lemma DropStaleInv(c: Config, p: Pool)
    requires Inv(c, p)
    ensures Inv(c, Pool(p.time, Fresh(c, p.time, p.used), p.free + StaleBuffers(c, p.time, p.used)))
  {
    var keep := Fresh(c, p.time, p.used);
    var stale := StaleBuffers(c, p.time, p.used);
    FreshIsSublist(c, p.time, p.used);
    StaleBuffersSized(c, p.time, p.used);
    forall i | 0 <= i < |keep| ensures InProgress(c, p.time, keep[i]) {
      assert keep[i] in p.used;
    }
    assert forall i :: 0 <= i < |stale| ==> stale[i] in stale;
  }

  lemma ShiftInv(c: Config, p: Pool, m: nat)
    requires Inv(c, p) && p.used != [] && forall i :: 0 <= i < |p.used| ==> m <= p.used[i].time
    ensures m <= p.time && Inv(c, Pool(p.time - m, Shift(p.used, m), p.free))
  {
    assert InProgress(c, p.time, p.used[0]);
    var r := Shift(p.used, m);
    forall i | 0 <= i < |r| ensures InProgress(c, p.time - m, r[i]) {
      assert InProgress(c, p.time, p.used[i]);
    }
  }

  /**
   * Renormalising the clock frees the timed-out frames and no other, and keeps the order, the age
   * and everything but the time of each survivor. The clock ends at most num_frames past zero.
   */
  lemma ReduceTimesCorrect(c: Config, p: Pool)
    requires Inv(c, p)
    ensures Inv(c, ReduceTimes(c, p)) && ReduceTimes(c, p).time <= c.numFrames
    ensures SameAges(ReduceTimes(c, p).used, ReduceTimes(c, p).time, Fresh(c, p.time, p.used), p.time)
    ensures Fresh(c, p.time, p.used) == [] ==> ReduceTimes(c, p).time == 0
  {
    DropStaleInv(c, p);
    FreshIsSublist(c, p.time, p.used);
    var keep := Fresh(c, p.time, p.used);
    if keep != [] {
      var m := MinTime(keep);
      ShiftInv(c, Pool(p.time, keep, p.free + StaleBuffers(c, p.time, p.used)), m);
      ShiftKeepsAges(keep, m, p.time);
      YoungestAge(c, p.time, keep);
    }
  }

  ghost predicate SameAges(r: seq<Frame>, rNow: int, keep: seq<Frame>, now: int) {
    |r| == |keep| &&
    forall i :: 0 <= i < |r| ==> r[i] == keep[i].(time := r[i].time) && rNow - r[i].time == now - keep[i].time
  }

  lemma ShiftKeepsAges(keep: seq<Frame>, m: nat, now: nat)
    requires forall i :: 0 <= i < |keep| ==> m <= keep[i].time
    ensures SameAges(Shift(keep, m), now - m, keep, now)
  {
  }

  lemma {:induction false} YoungestAge(c: Config, now: nat, keep: seq<Frame>)
    requires keep != [] && forall i :: 0 <= i < |keep| ==> !TimedOut(c, now, keep[i])
    ensures now - MinTime(keep) <= c.numFrames
  {
    assert !TimedOut(c, now, keep[0]);
    if |keep| > 1 { YoungestAge(c, now, keep[1..]); }
  }

  /** The 32-bit clock never wraps: at its maximum, renormalisation makes room for the increment. */
  lemma TickCorrect(c: Config, p: Pool)
    requires Inv(c, p)
    ensures Inv(c, Tick(c, p))
    ensures p.time == MAX_TIME ==> Tick(c, p).time <= c.numFrames + 1
  {
    if p.time < MAX_TIME {
      LaterStillOk(c, p, p.time + 1);
    } else {
      ReduceTimesCorrect(c, p);
      var r := ReduceTimes(c, p);
      LaterStillOk(c, r, r.time + 1);
    }
  }

  lemma LaterStillOk(c: Config, p: Pool, time: nat)
    requires Inv(c, p) && p.time <= time <= MAX_TIME
    ensures Inv(c, p.(time := time))
  {
    forall i | 0 <= i < |p.used| ensures InProgress(c, time, p.used[i]) {
      assert InProgress(c, p.time, p.used[i]);
    }
  }

  // ---------------------------------------------------------------- input packets

  /**
   * Where a call of process_input stops: with a frame handed to the output and the input left to
   * resume at, or at the end of the packet, the clock advanced.
   */
  datatype Stop = Stop(pool: Pool, sent: Option<seq<byte>>, rest: seq<byte>)

  function ParseChunk(s: seq<byte>): Option<Chunk> {
    if |s| < HEADER || s[6] > 1 then None else
    var len := Dec16(s[4], s[5]);
    if |s| - HEADER < len then None else
    Some(Chunk(Dec16(s[0], s[1]), Dec16(s[2], s[3]), s[HEADER..HEADER + len], s[6] == 1))
  }

  ghost function Scan(c: Config, p: Pool, s: seq<byte>): (r: Stop)
    requires HasSlot(p) && Sized(c, p)
    ensures r.sent.Some? ==> HasSlot(r.pool) && Sized(c, r.pool) && |r.rest| < |s|
    decreases |s|
  {
    match ParseChunk(s)
    case None => Stop(Tick(c, p), None, [])
    case Some(ch) =>
      var o := ProcessChunk(c, p, ch);
      var rest := s[HEADER + |ch.data|..];
      if o.sent.Some? then Stop(o.pool, o.sent, rest) else Scan(c, o.pool, rest)
  }

  lemma {:induction false} ScanInv(c: Config, p: Pool, s: seq<byte>)
    requires Inv(c, p)
    ensures HasSlot(p) && Sized(c, p) && Inv(c, Scan(c, p, s).pool)
    decreases |s|
  {
    InvSized(c, p);
    match ParseChunk(s)
    case None => TickCorrect(c, p);
    case Some(ch) =>
      ProcessChunkCorrect(c, p, ch);
      var o := ProcessChunk(c, p, ch);
      if o.sent.None? { ScanInv(c, o.pool, s[HEADER + |ch.data|..]); }
  }

  datatype Result = Result(pool: Pool, frames: seq<seq<byte>>)

  /** A whole input packet, the output accepting each frame when it is sent. */
  ghost function ReceivePacket(c: Config, p: Pool, s: seq<byte>): (r: Result)
    requires Inv(c, p)
    ensures Inv(c, r.pool)
    decreases |s|
  {
    ScanInv(c, p, s);
    var r := Scan(c, p, s);
    if r.sent.None? then Result(r.pool, []) else
    var q := ReceivePacket(c, r.pool, r.rest);
    Result(q.pool, [r.sent.value] + q.frames)
  }

  /** A run: any sequence of packets, well formed or not. */
  ghost function Receive(c: Config, p: Pool, packets: seq<seq<byte>>): (r: Result)
    requires Inv(c, p)
    ensures Inv(c, r.pool)
    decreases |packets|
  {
    if packets == [] then Result(p, []) else
    var q := ReceivePacket(c, p, packets[0]);
    var r := Receive(c, q.pool, packets[1..]);
    Result(r.pool, q.frames + r.frames)
  }

  ghost predicate Initial(c: Config, p: Pool) {
    c.Valid() && p.time == 0 && p.used == [] && |p.free| == c.numFrames &&
    forall i :: 0 <= i < |p.free| ==> |p.free[i]| == c.outputMtu
  }

  lemma InitialInv(c: Config, p: Pool)
    requires Initial(c, p)
    ensures Inv(c, p)
  {
  }
}
