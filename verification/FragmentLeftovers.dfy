/**
 * What an assembler makes of the chunks of a disassembler that may cancel packets of which a part is
 * written: the chunks left over under a frame id, and the frames that stay unfinished in the pool.
 */
module FragmentLeftovers {
  import opened AssemblerFrames
  import A = AssemblerModel
  import opened Bytes
  import opened Counting
  import opened FragmentProto
  import opened Lists
  import RT = FragmentRoundTrip

  // ---------------------------------------------------------------- a reader's view of the assembler

  /**
   * What the assembler holds under the frame id a reader is at: chunks of a packet that was given up,
   * the first byte of which is `low`; or all bytes of this packet from position `from` on.
   */
  datatype Mode = Over(low: nat) | After(from: nat)

  /** `count` is the number of these chunks, `kept` the payloads delivered, `lost` the number of those that were not. */
  datatype View = View(mode: Mode, count: nat, kept: seq<seq<byte>>, lost: nat)

  const START := View(After(0), 0, [], 0)

  /**
   * A chunk that meets bytes left over, or that does not leave room for more chunks, makes the
   * assembler give up on what it has. A packet is delivered if all of it is there at the end.
   */
  function See(c: A.Config, rd: RT.Reader, v: View, ch: Chunk): View {
    var end := |rd.acc| + |ch.data|;
    if ch.last then
      if v.mode == After(0) then View(After(0), 0, v.kept + [rd.acc + ch.data], v.lost)
      else View(After(0), 0, v.kept, v.lost + 1)
    else
      match v.mode
      case Over(low) =>
        if end > low || v.count + 1 == c.numChunks then v.(mode := After(end), count := 0) else v.(count := v.count + 1)
      case After(_) => v.(count := v.count + 1)
  }

  function SeeAll(c: A.Config, rd: RT.Reader, v: View, cs: seq<Chunk>): View
    decreases |cs|
  {
    if cs == [] then v else SeeAll(c, RT.Read(rd, cs[0]), See(c, rd, v, cs[0]), cs[1..])
  }

  /** The packet is given up: what the assembler has of it is left over. */
  function GiveUp(rd: RT.Reader, v: View): View {
    match v.mode
    case Over(low) => v.(mode := Over(if rd.acc == [] then low else 0))
    case After(from) => if from < |rd.acc| then v.(mode := Over(from)) else v.(mode := After(0), count := 0)
  }

  lemma {:induction false} SeeAppend(c: A.Config, rd: RT.Reader, v: View, cs: seq<Chunk>, ds: seq<Chunk>)
    ensures SeeAll(c, rd, v, cs + ds) == SeeAll(c, RT.ReadAll(rd, cs), SeeAll(c, rd, v, cs), ds)
    decreases |cs|
  {
    if cs == [] {
      assert cs + ds == ds;
    } else {
      SeeAppend(c, RT.Read(rd, cs[0]), See(c, rd, v, cs[0]), cs[1..], ds);
      assert (cs + ds)[1..] == cs[1..] + ds;
    }
  }

  lemma {:induction false} KeptGrows(c: A.Config, rd: RT.Reader, v: View, cs: seq<Chunk>)
    ensures v.kept <= SeeAll(c, rd, v, cs).kept
    decreases |cs|
  {
    if cs != [] {
      KeptGrows(c, RT.Read(rd, cs[0]), See(c, rd, v, cs[0]), cs[1..]);
    }
  }

  /** Every packet that was finished is kept or lost. */
  predicate Counts(rd: RT.Reader, v: View) {
    |v.kept| + v.lost == |rd.done| && (v.lost == 0 ==> v.kept == rd.done)
  }

  lemma {:induction false} CountsAll(c: A.Config, rd: RT.Reader, v: View, cs: seq<Chunk>)
    requires Counts(rd, v)
    ensures Counts(RT.ReadAll(rd, cs), SeeAll(c, rd, v, cs))
    decreases |cs|
  {
    if cs != [] {
      CountsAll(c, RT.Read(rd, cs[0]), See(c, rd, v, cs[0]), cs[1..]);
    }
  }

  // ---------------------------------------------------------------- the frame in progress

  /** The frame a chunk of the reader's packet goes to, as the view has it; it may be a new one. */
  ghost predicate Holds(f: A.Frame, rd: RT.Reader, v: View) {
    && f.length == -1 && |f.pieces| == v.count && |rd.acc| <= |f.buffer|
    && match v.mode
       case After(from) => HoldsEnd(f, rd, from) && v.count <= rd.count
       case Over(low) => HoldsOld(f, rd, low)
  }

  ghost predicate HoldsEnd(f: A.Frame, rd: RT.Reader, from: nat)
    requires |rd.acc| <= |f.buffer|
  {
    && from <= |rd.acc| && f.lengthSoFar <= |rd.acc| && f.sum == |rd.acc| - from
    && (if f.pieces == [] then from == |rd.acc| else f.pieces[0].start == from && f.pieces[0].data != [])
    && (forall i :: 0 <= i < |f.pieces| ==> f.pieces[i].start >= from)
    && (from == 0 ==> f.buffer[..|rd.acc|] == rd.acc)
  }

  ghost predicate HoldsOld(f: A.Frame, rd: RT.Reader, low: nat) {
    && |rd.acc| <= low < f.lengthSoFar && A.Covered(f.pieces, low) && (rd.acc != [] ==> A.Covered(f.pieces, 0))
    && (forall i :: 0 <= i < |f.pieces| ==> f.pieces[i].End() <= |rd.acc| || low <= f.pieces[i].start)
  }

  /** What the chunk makes of the frame, and whether it is given up then. */
  lemma EndTakes(c: A.Config, q: A.Pool, f: A.Frame, rd: RT.Reader, v: View, ch: Chunk)
    requires A.InProgress(c, q.time, f) && Holds(f, rd, v) && v.mode.After? && RT.Accepts(c, rd, ch)
    ensures var s := A.Piece(ch.start, ch.data);
      && s.End() <= |f.buffer| && A.Acceptable(f, s, ch.last)
      && var g := A.AddPiece(f, q.time, s, ch.last);
      && (!ch.last ==> A.Incomplete(g) && |g.pieces| < c.numChunks && Holds(g, RT.Read(rd, ch), See(c, rd, v, ch)))
      && (ch.last ==> g.length == |rd.acc| + |ch.data| && (A.Incomplete(g) <==> v.mode.from > 0))
      && (ch.last && v.mode.from == 0 ==> g.buffer[..g.length] == rd.acc + ch.data)
  {
    var s := A.Piece(ch.start, ch.data);
    forall i | 0 <= i < |f.pieces| ensures !A.Overlap(f.pieces[i].start, |f.pieces[i].data|, s.start, |s.data|) {
      assert f.pieces[i].End() <= A.BoundOf(f);
    }
    var g := A.AddPiece(f, q.time, s, ch.last);
    if v.mode.from == 0 {
      assert g.buffer[..|rd.acc| + |ch.data|] == rd.acc + ch.data;
    }
  }

  lemma OldMeets(c: A.Config, q: A.Pool, f: A.Frame, rd: RT.Reader, v: View, ch: Chunk)
    requires A.InProgress(c, q.time, f) && Holds(f, rd, v) && v.mode.Over? && RT.Accepts(c, rd, ch)
    requires ch.last || |rd.acc| + |ch.data| > v.mode.low
    ensures !A.Acceptable(f, A.Piece(ch.start, ch.data), ch.last)
  {
    var low, s := v.mode.low, A.Piece(ch.start, ch.data);
    if s.End() > low {
      var i :| 0 <= i < |f.pieces| && f.pieces[i].Covers(low);
      assert A.Overlap(f.pieces[i].start, |f.pieces[i].data|, s.start, |s.data|);
    }
  }

  lemma OldTakes(c: A.Config, q: A.Pool, f: A.Frame, rd: RT.Reader, v: View, ch: Chunk)
    requires A.InProgress(c, q.time, f) && Holds(f, rd, v) && v.mode.Over? && RT.Accepts(c, rd, ch)
    requires !ch.last && |rd.acc| + |ch.data| <= v.mode.low
    ensures var s := A.Piece(ch.start, ch.data);
      && s.End() <= |f.buffer| && A.Acceptable(f, s, ch.last)
      && var g := A.AddPiece(f, q.time, s, ch.last);
      && A.Incomplete(g) && |g.pieces| == v.count + 1 <= c.numChunks
      && HoldsOld(g, RT.Read(rd, ch), v.mode.low) && g.length == -1 && |rd.acc| + |ch.data| <= |g.buffer|
  {
    var low, s := v.mode.low, A.Piece(ch.start, ch.data);
    var g := A.AddPiece(f, q.time, s, ch.last);
    StillCovered(f.pieces, s, low);
    if rd.acc == [] {
      assert g.pieces[|f.pieces|].Covers(0);
    } else {
      StillCovered(f.pieces, s, 0);
    }
  }

  lemma StillCovered(ps: seq<A.Piece>, s: A.Piece, k: nat)
    requires A.Covered(ps, k)
    ensures A.Covered(ps + [s], k)
  {
    var i :| 0 <= i < |ps| && ps[i].Covers(k);
    assert (ps + [s])[i].Covers(k);
  }

  /** The packet is given up. */
  lemma HoldsLeftover(c: A.Config, now: nat, f: A.Frame, rd: RT.Reader, v: View)
    requires A.InProgress(c, now, f) && Holds(f, rd, v) && f.pieces != []
    ensures Holds(f, RT.Reader(rd.id, [], 0, rd.done), GiveUp(rd, v))
  {
    if v.mode.After? {
      assert f.pieces[0].Covers(v.mode.from);
      assert f.pieces[0].End() <= A.BoundOf(f);
    } else if rd.acc != [] {
      var i :| 0 <= i < |f.pieces| && f.pieces[i].Covers(0);
      assert f.pieces[i].End() <= A.BoundOf(f);
    }
  }

  // ---------------------------------------------------------------- the pool

  /** How many ids one is behind the other. */
  function Behind(id: nat, now: nat): nat
    requires id < 0x1_0000 && now < 0x1_0000
  {
    if id <= now then now - id else now + 0x1_0000 - id
  }

  /**
   * A frame left unfinished goes back no more ids than there can be frames in the packets since:
   * `perPacket` in each, and `b` in this one so far.
   */
  ghost predicate Recent(c: A.Config, now: nat, f: A.Frame, id: nat, b: nat, perPacket: nat) {
    && f.id < 0x1_0000 && id < 0x1_0000 && f.pieces != [] && f.time <= now
    && (f.id != id && !A.TimedOut(c, now, f) ==> Behind(f.id, id) <= perPacket * (now - f.time) + b)
  }

  ghost predicate Spaced(c: A.Config, p: A.Pool, id: nat, b: nat, perPacket: nat) {
    forall i :: 0 <= i < |p.used| ==> Recent(c, p.time, p.used[i], id, b, perPacket)
  }

  ghost predicate Current(c: A.Config, p: A.Pool, rd: RT.Reader, v: View, age: nat) {
    if Live(c, p, rd.id) then
      var f := p.used[A.IndexOf(p.used, rd.id)];
      Holds(f, rd, v) && p.time - f.time <= age
    else
      v.mode == After(|rd.acc|) && v.count == 0
  }

  /** The assembler is where the reader and its view are. */
  ghost predicate Seen(c: A.Config, p: A.Pool, rd: RT.Reader, v: View, age: nat, b: nat, perPacket: nat) {
    && A.Inv(c, p) && rd.id < 0x1_0000 && (rd.acc == [] ==> rd.count == 0) && |rd.acc| <= c.outputMtu
    && Current(c, p, rd, v, age) && Spaced(c, p, rd.id, b, perPacket)
  }

  /** 2^16 frames do not fit into num_frames + 1 packets. */
  predicate Spacious(c: A.Config, perPacket: nat) {
    perPacket * (c.numFrames + 1) < 0x1_0000
  }

  /** The frame the chunk goes to, and the others. */
  lemma LocateSeen(c: A.Config, p: A.Pool, rd: RT.Reader, v: View, b: nat, perPacket: nat)
    requires Seen(c, p, rd, v, 1, b, perPacket)
    ensures A.HasSlot(p)
    ensures var q := A.Locate(c, p, rd.id); var i := A.IndexOf(q.used, rd.id);
      && A.Inv(c, q) && q.time == p.time && i < |q.used| && Holds(q.used[i], rd, v)
      && forall j :: 0 <= j < |q.used| && j != i ==> FromPool(q, j, p) && q.used[j].id != rd.id
  {
    hide Holds;
    A.LocateInv(c, p, rd.id);
    var q, k := A.Locate(c, p, rd.id), A.IndexOf(p.used, rd.id);
    if Live(c, p, rd.id) {
      assert q == p;
    } else {
      var r := if k == |p.used| then p else A.FreeAt(p, k);
      if k < |p.used| {
        A.DroppedInv(c, p, k);
        A.RemovedIdIsGone(c, p, k);
      }
      assert q == A.Allocate(r, rd.id);
      A.AllocateInv(c, r, rd.id);
      NewHolds(c, q.used[|q.used| - 1], rd, v);
    }
    OthersDiffer(q, rd.id);
  }

  lemma NewHolds(c: A.Config, f: A.Frame, rd: RT.Reader, v: View)
    requires f.pieces == [] && f.sum == 0 && f.length == -1 && f.lengthSoFar == 0 && |f.buffer| == c.outputMtu
    requires |rd.acc| <= c.outputMtu && v.mode == After(|rd.acc|) && v.count == 0
    ensures Holds(f, rd, v)
  {
  }

  lemma OthersDiffer(q: A.Pool, id: nat)
    requires A.DistinctIds(q.used) && A.IndexOf(q.used, id) < |q.used|
    ensures forall j :: 0 <= j < |q.used| && j != A.IndexOf(q.used, id) ==> q.used[j].id != id
  {
  }

  function NextId(id: nat): nat {
    (id + 1) % 0x1_0000
  }

  /** When a frame is finished, the ids go on; a frame left with the next id is too old to be found. */
  lemma RecentNext(c: A.Config, now: nat, f: A.Frame, id: nat, b: nat, perPacket: nat)
    requires Recent(c, now, f, id, b, perPacket) && Spacious(c, perPacket) && b < perPacket
    ensures Recent(c, now, f, NextId(id), b + 1, perPacket)
    ensures f.id == NextId(id) ==> A.TimedOut(c, now, f)
  {
    var age := now - f.time;
    if f.id != id && !A.TimedOut(c, now, f) {
      MulMonotone(perPacket, age, c.numFrames);
      assert perPacket * (c.numFrames + 1) == perPacket * c.numFrames + perPacket;
    }
    assert perPacket * age >= 0;
  }

  lemma MulMonotone(k: nat, a: nat, b: nat)
    requires a <= b
    ensures k * a <= k * b
  {
  }

  /** A pool in which every frame is an old one, or `g` under the reader's id. */
  ghost predicate Leaves(r: A.Pool, p: A.Pool, id: nat, g: A.Frame, kept: bool) {
    && r.time == p.time && (kept ==> g.time == r.time && g.id == id && g.pieces != [])
    && forall j :: 0 <= j < |r.used| ==> (kept && r.used[j] == g) || (FromPool(r, j, p) && r.used[j].id != id)
  }

  lemma LeavesSpaced(c: A.Config, p: A.Pool, r: A.Pool, id: nat, g: A.Frame, kept: bool, b: nat, perPacket: nat)
    requires Spaced(c, p, id, b, perPacket) && Leaves(r, p, id, g, kept) && id < 0x1_0000
    ensures Spaced(c, r, id, b, perPacket)
    ensures Spacious(c, perPacket) && b < perPacket ==> Spaced(c, r, NextId(id), b + 1, perPacket) && !Live(c, r, NextId(id))
  {
    forall j | 0 <= j < |r.used|
      ensures Recent(c, r.time, r.used[j], id, b, perPacket)
      ensures Spacious(c, perPacket) && b < perPacket ==>
        Recent(c, r.time, r.used[j], NextId(id), b + 1, perPacket) && (r.used[j].id == NextId(id) ==> A.TimedOut(c, r.time, r.used[j]))
    {
      if FromPool(r, j, p) && r.used[j].id != id {
        var i :| 0 <= i < |p.used| && p.used[i] == r.used[j];
        assert Recent(c, p.time, p.used[i], id, b, perPacket);
      }
      if Spacious(c, perPacket) && b < perPacket {
        RecentNext(c, r.time, r.used[j], id, b, perPacket);
      }
    }
  }

  /** Frame i is the one under the id; the others come from the pool p. */
  ghost predicate Located(q: A.Pool, i: nat, p: A.Pool, id: nat) {
    && i < |q.used| && q.used[i].id == id && q.time == p.time
    && forall j :: 0 <= j < |q.used| && j != i ==> FromPool(q, j, p) && q.used[j].id != id
  }

  lemma DropLeaves(q: A.Pool, i: nat, p: A.Pool, id: nat, g: A.Frame)
    requires Located(q, i, p, id)
    ensures Leaves(A.FreeAt(q.(used := q.used[i := g]), i), p, id, g, false)
    ensures Leaves(A.FreeAt(q, i), p, id, g, false)
  {
    var u, r := q.used[i := g], A.FreeAt(q, i).used;
    assert RemoveAt(u, i) == RemoveAt(q.used, i) == r;
    forall j | 0 <= j < |r| ensures FromPool(A.FreeAt(q, i), j, p) && r[j].id != id {
      var k := if j < i then j else j + 1;
      assert r[j] == q.used[k] && FromPool(q, k, p);
    }
    forall j | 0 <= j < |r| ensures FromPool(A.FreeAt(q.(used := u), i), j, p) {
      assert FromPool(A.FreeAt(q, i), j, p);
    }
  }

  lemma KeepLeaves(q: A.Pool, i: nat, p: A.Pool, id: nat, g: A.Frame)
    requires Located(q, i, p, id) && g.time == q.time && g.id == id && g.pieces != []
    ensures Leaves(q.(used := q.used[i := g]), p, id, g, true)
  {
    var r := q.(used := q.used[i := g]);
    forall j | 0 <= j < |r.used| && j != i ensures FromPool(r, j, p) && r.used[j].id != id {
      assert r.used[j] == q.used[j] && FromPool(q, j, p);
    }
  }

  /** Nothing is held under the id after the frame is given up. */
  lemma GoneSeen(c: A.Config, p: A.Pool, r: A.Pool, rd: RT.Reader, v: View, g: A.Frame, b: nat, perPacket: nat)
    requires A.Inv(c, r) && Spaced(c, p, rd.id, b, perPacket) && Leaves(r, p, rd.id, g, false)
    requires rd.id < 0x1_0000 && rd.acc != [] && |rd.acc| <= c.outputMtu && v.mode == After(|rd.acc|) && v.count == 0
    ensures Seen(c, r, rd, v, 0, b, perPacket)
  {
    LeavesSpaced(c, p, r, rd.id, g, false, b, perPacket);
  }

  /** The frame that was added to is still there. */
  lemma KeptSeen(c: A.Config, p: A.Pool, r: A.Pool, i: nat, rd: RT.Reader, v: View, g: A.Frame, b: nat, perPacket: nat)
    requires A.Inv(c, r) && Spaced(c, p, rd.id, b, perPacket) && Leaves(r, p, rd.id, g, true)
    requires i < |r.used| && r.used[i] == g && Holds(g, rd, v)
    requires rd.id < 0x1_0000 && rd.acc != [] && |rd.acc| <= c.outputMtu
    ensures Seen(c, r, rd, v, 0, b, perPacket)
  {
    hide Holds;
    LeavesSpaced(c, p, r, rd.id, g, true, b, perPacket);
    IndexOfIs(r.used, i);
  }

  /** The next packet begins. */
  lemma NextSeen(c: A.Config, p: A.Pool, r: A.Pool, id: nat, done: seq<seq<byte>>, v: View, g: A.Frame, kept: bool, b: nat, perPacket: nat)
    requires A.Inv(c, r) && Spaced(c, p, id, b, perPacket) && Leaves(r, p, id, g, kept) && id < 0x1_0000
    requires Spacious(c, perPacket) && b < perPacket && v.mode == After(0) && v.count == 0
    ensures Seen(c, r, RT.Reader(NextId(id), [], 0, done), v, 0, b + 1, perPacket)
  {
    LeavesSpaced(c, p, r, id, g, kept, b, perPacket);
  }

  ghost predicate SeenAfter(c: A.Config, r: A.Pool, rd: RT.Reader, v: View, ch: Chunk, b: nat, perPacket: nat) {
    Seen(c, r, RT.Read(rd, ch), See(c, rd, v, ch), 0, if ch.last then b + 1 else b, perPacket)
  }

  /** The frame is not in the pool any more when the chunk has been processed. */
  lemma DroppedSeen(c: A.Config, p: A.Pool, r: A.Pool, rd: RT.Reader, v: View, ch: Chunk, g: A.Frame, b: nat, perPacket: nat)
    requires Seen(c, p, rd, v, 1, b, perPacket) && RT.Accepts(c, rd, ch) && Spacious(c, perPacket) && b < perPacket
    requires A.Inv(c, r) && Leaves(r, p, rd.id, g, false)
    requires !ch.last ==> See(c, rd, v, ch).mode == After(|rd.acc| + |ch.data|) && See(c, rd, v, ch).count == 0
    ensures SeenAfter(c, r, rd, v, ch, b, perPacket)
  {
    hide Leaves, Spaced, Current, Spacious, A.Inv;
    if ch.last {
      NextSeen(c, p, r, rd.id, RT.Read(rd, ch).done, See(c, rd, v, ch), g, false, b, perPacket);
    } else {
      GoneSeen(c, p, r, RT.Read(rd, ch), See(c, rd, v, ch), g, b, perPacket);
    }
  }

  lemma StayedSeen(c: A.Config, p: A.Pool, r: A.Pool, i: nat, rd: RT.Reader, v: View, ch: Chunk, g: A.Frame, b: nat, perPacket: nat)
    requires Seen(c, p, rd, v, 1, b, perPacket) && RT.Accepts(c, rd, ch) && Spacious(c, perPacket) && b < perPacket
    requires A.Inv(c, r) && Leaves(r, p, rd.id, g, true) && i < |r.used| && r.used[i] == g
    requires !ch.last ==> Holds(g, RT.Read(rd, ch), See(c, rd, v, ch))
    ensures SeenAfter(c, r, rd, v, ch, b, perPacket)
  {
    hide Leaves, Spaced, Current, Spacious, A.Inv, Holds;
    if ch.last {
      NextSeen(c, p, r, rd.id, RT.Read(rd, ch).done, See(c, rd, v, ch), g, true, b, perPacket);
    } else {
      KeptSeen(c, p, r, i, RT.Read(rd, ch), See(c, rd, v, ch), g, b, perPacket);
    }
  }

  lemma InProgressAt(c: A.Config, q: A.Pool, i: nat)
    requires A.Inv(c, q) && i < |q.used|
    ensures A.InProgress(c, q.time, q.used[i]) && |q.used[i].buffer| == c.outputMtu
  {
  }

  /** The frame is one that chunks were left over in. */
  lemma OverPlaced(c: A.Config, p: A.Pool, q: A.Pool, i: nat, rd: RT.Reader, v: View, ch: Chunk, b: nat, perPacket: nat)
    requires Seen(c, p, rd, v, 1, b, perPacket) && RT.Accepts(c, rd, ch) && Spacious(c, perPacket) && b < perPacket
    requires A.HasSlot(p) && A.Sized(c, p) && A.Inv(c, A.ProcessChunk(c, p, ch).pool)
    requires q == A.Locate(c, p, rd.id) && i == A.IndexOf(q.used, rd.id)
    requires A.Inv(c, q) && Located(q, i, p, rd.id) && Holds(q.used[i], rd, v) && v.mode.Over?
    ensures SeenAfter(c, A.ProcessChunk(c, p, ch).pool, rd, v, ch, b, perPacket) && A.ProcessChunk(c, p, ch).sent == None
  {
    hide Holds, HoldsOld, Seen, SeenAfter, Leaves, A.Acceptable, A.AddPiece, A.FreeAt, A.Locate, A.Inv, Spacious, A.Sized, Located, A.InProgress;
    var f, s := q.used[i], A.Piece(ch.start, ch.data);
    InProgressAt(c, q, i);
    if ch.last || |rd.acc| + |ch.data| > v.mode.low {
      OldMeets(c, q, f, rd, v, ch);
      DropLeaves(q, i, p, rd.id, f);
      DroppedSeen(c, p, A.FreeAt(q, i), rd, v, ch, f, b, perPacket);
    } else {
      OldTakes(c, q, f, rd, v, ch);
      var g := A.AddPiece(f, q.time, s, ch.last);
      AddedTo(f, q.time, s, ch.last);
      var r := q.(used := q.used[i := g]);
      if |g.pieces| == c.numChunks {
        DropLeaves(q, i, p, rd.id, g);
        DroppedSeen(c, p, A.FreeAt(r, i), rd, v, ch, g, b, perPacket);
      } else {
        LocatedId(q, i, p, rd.id);
        KeepLeaves(q, i, p, rd.id, g);
        OldHolds(g, rd, v, ch);
        StayedSeen(c, p, r, i, rd, v, ch, g, b, perPacket);
      }
    }
  }

  lemma OldHolds(g: A.Frame, rd: RT.Reader, v: View, ch: Chunk)
    requires v.mode.Over? && !ch.last && HoldsOld(g, RT.Read(rd, ch), v.mode.low) && g.length == -1
    requires |rd.acc| + |ch.data| <= |g.buffer| && |rd.acc| + |ch.data| <= v.mode.low && |g.pieces| == v.count + 1
    ensures forall c: A.Config :: v.count + 1 != c.numChunks ==> Holds(g, RT.Read(rd, ch), See(c, rd, v, ch))
  {
  }

  lemma LocatedId(q: A.Pool, i: nat, p: A.Pool, id: nat)
    requires Located(q, i, p, id)
    ensures i < |q.used| && q.used[i].id == id && q.time == p.time
  {
  }

  lemma AddedTo(f: A.Frame, now: nat, s: A.Piece, last: bool)
    requires s.End() <= |f.buffer|
    ensures var g := A.AddPiece(f, now, s, last); g.id == f.id && g.time == now && g.pieces == f.pieces + [s] && g.pieces != []
  {
  }

  /** The frame holds the end of what there is of this packet. */
  lemma AfterPlaced(c: A.Config, p: A.Pool, q: A.Pool, i: nat, rd: RT.Reader, v: View, ch: Chunk, b: nat, perPacket: nat)
    requires Seen(c, p, rd, v, 1, b, perPacket) && RT.Accepts(c, rd, ch) && Spacious(c, perPacket) && b < perPacket
    requires A.HasSlot(p) && A.Sized(c, p) && A.Inv(c, A.ProcessChunk(c, p, ch).pool)
    requires q == A.Locate(c, p, rd.id) && i == A.IndexOf(q.used, rd.id)
    requires A.Inv(c, q) && Located(q, i, p, rd.id) && Holds(q.used[i], rd, v) && v.mode.After?
    ensures SeenAfter(c, A.ProcessChunk(c, p, ch).pool, rd, v, ch, b, perPacket)
    ensures A.ProcessChunk(c, p, ch).sent == if ch.last && v.mode == After(0) then Some(rd.acc + ch.data) else None
  {
    hide Holds, HoldsEnd, Seen, SeenAfter, Leaves, A.Acceptable, A.AddPiece, A.FreeAt, A.Locate, A.Inv, Spacious, A.Sized, Located, A.InProgress, See;
    var f, s := q.used[i], A.Piece(ch.start, ch.data);
    InProgressAt(c, q, i);
    EndTakes(c, q, f, rd, v, ch);
    var g := A.AddPiece(f, q.time, s, ch.last);
    AddedTo(f, q.time, s, ch.last);
    var r := q.(used := q.used[i := g]);
    LocatedId(q, i, p, rd.id);
    if A.Incomplete(g) && |g.pieces| != c.numChunks {
      KeepLeaves(q, i, p, rd.id, g);
      StayedSeen(c, p, r, i, rd, v, ch, g, b, perPacket);
    } else {
      DropLeaves(q, i, p, rd.id, g);
      DroppedSeen(c, p, A.FreeAt(r, i), rd, v, ch, g, b, perPacket);
    }
  }

  /** The assembler does with a chunk what the view says. */
  lemma ChunkSeen(c: A.Config, p: A.Pool, rd: RT.Reader, v: View, ch: Chunk, b: nat, perPacket: nat)
    requires Seen(c, p, rd, v, 1, b, perPacket) && RT.Accepts(c, rd, ch) && Spacious(c, perPacket) && b < perPacket
    ensures A.HasSlot(p) && A.Sized(c, p)
    ensures SeenAfter(c, A.ProcessChunk(c, p, ch).pool, rd, v, ch, b, perPacket)
    ensures A.ProcessChunk(c, p, ch).sent == if ch.last && v.mode == After(0) then Some(rd.acc + ch.data) else None
  {
    hide Holds, SeenAfter, Leaves, Spaced, Current, A.Locate, A.Inv, Spacious, A.Sized, A.ProcessChunk;
    A.ProcessChunkCorrect(c, p, ch);
    LocateSeen(c, p, rd, v, b, perPacket);
    var q := A.Locate(c, p, rd.id);
    var i := A.IndexOf(q.used, rd.id);
    if v.mode.Over? {
      OverPlaced(c, p, q, i, rd, v, ch, b, perPacket);
    } else {
      AfterPlaced(c, p, q, i, rd, v, ch, b, perPacket);
    }
  }

  // ---------------------------------------------------------------- the end of a packet

  lemma RecentLater(c: A.Config, f: A.Frame, now: nat, g: A.Frame, later: nat, id: nat, b: nat, perPacket: nat)
    requires Recent(c, now, f, id, b, perPacket) && Older(f, now, g, later) && b <= perPacket
    ensures Recent(c, later, g, id, 0, perPacket)
  {
    var age := now - f.time;
    assert perPacket * (age + 1) == perPacket * age + perPacket;
  }

  lemma TickSpaced(c: A.Config, p: A.Pool, id: nat, b: nat, perPacket: nat)
    requires A.Inv(c, p) && Spaced(c, p, id, b, perPacket) && b <= perPacket
    ensures Spaced(c, A.Tick(c, p), id, 0, perPacket)
  {
    hide A.Tick, A.Inv, Recent, Older;
    TickFrames(c, p);
    var r := A.Tick(c, p);
    forall j | 0 <= j < |r.used| ensures Recent(c, r.time, r.used[j], id, 0, perPacket) {
      assert WasYounger(p, r.used[j], r.time);
      var i :| 0 <= i < |p.used| && Older(p.used[i], p.time, r.used[j], r.time);
      RecentLater(c, p.used[i], p.time, r.used[j], r.time, id, b, perPacket);
    }
  }

  lemma TickSeen(c: A.Config, p: A.Pool, rd: RT.Reader, v: View, b: nat, perPacket: nat)
    requires Seen(c, p, rd, v, 0, b, perPacket) && b <= perPacket
    ensures Seen(c, A.Tick(c, p), rd, v, 1, 0, perPacket)
  {
    hide A.Tick, A.Inv, Spaced;
    A.TickCorrect(c, p);
    TickSpaced(c, p, rd.id, b, perPacket);
    TickLive(c, p, rd.id);
    if Live(c, p, rd.id) {
      NotNegative(c, p, rd.id);
    }
  }

  lemma NotNegative(c: A.Config, p: A.Pool, id: nat)
    requires A.Inv(c, p) && Live(c, p, id)
    ensures p.used[A.IndexOf(p.used, id)].time <= p.time
  {
    assert A.InProgress(c, p.time, p.used[A.IndexOf(p.used, id)]);
  }

  /** A packet of chunks in order is understood by the assembler as the view says. */
  lemma {:induction false} PacketSeen(c: A.Config, p: A.Pool, rd: RT.Reader, v: View, cs: seq<Chunk>, b: nat, perPacket: nat)
    requires A.Inv(c, p) && Seen(c, p, rd, v, 1, b, perPacket) && (cs == [] ==> Seen(c, p, rd, v, 0, b, perPacket))
    requires RT.AcceptsAll(c, rd, cs) && Spacious(c, perPacket) && b + |cs| <= perPacket
    ensures forall ch :: ch in cs ==> ch.Fits()
    ensures Seen(c, A.ReceivePacket(c, p, EncodePacket(cs)).pool, RT.ReadAll(rd, cs), SeeAll(c, rd, v, cs), 1, 0, perPacket)
    ensures v.kept + A.ReceivePacket(c, p, EncodePacket(cs)).frames == SeeAll(c, rd, v, cs).kept
    decreases |cs|
  {
    hide A.Inv, A.ProcessChunk, A.Tick, A.ReceivePacket, EncodeChunk, A.HasSlot, A.Sized, Current, Spaced, Spacious;
    RT.AcceptsAllFits(c, rd, cs);
    if cs == [] {
      TickSeen(c, p, rd, v, b, perPacket);
      RT.ReceiveNothing(c, p);
    } else {
      ChunkSeen(c, p, rd, v, cs[0], b, perPacket);
      RT.ReceiveChunk(c, p, cs[0], EncodePacket(cs[1..]));
      var q, next := A.ProcessChunk(c, p, cs[0]).pool, if cs[0].last then b + 1 else b;
      YoungerSeen(c, q, RT.Read(rd, cs[0]), See(c, rd, v, cs[0]), next, perPacket);
      PacketSeen(c, q, RT.Read(rd, cs[0]), See(c, rd, v, cs[0]), cs[1..], next, perPacket);
    }
  }

  lemma YoungerSeen(c: A.Config, p: A.Pool, rd: RT.Reader, v: View, b: nat, perPacket: nat)
    requires Seen(c, p, rd, v, 0, b, perPacket)
    ensures Seen(c, p, rd, v, 1, b, perPacket)
  {
  }

  /** A packet is given up of which everything that is written has arrived. */
  lemma GiveUpSeen(c: A.Config, p: A.Pool, rd: RT.Reader, v: View, age: nat, b: nat, perPacket: nat)
    requires Seen(c, p, rd, v, age, b, perPacket)
    ensures Seen(c, p, RT.Reader(rd.id, [], 0, rd.done), GiveUp(rd, v), age, b, perPacket)
  {
    hide Holds;
    if Live(c, p, rd.id) {
      var f := p.used[A.IndexOf(p.used, rd.id)];
      assert A.InProgress(c, p.time, f) && Recent(c, p.time, f, rd.id, b, perPacket);
      HoldsLeftover(c, p.time, f, rd, v);
    }
  }
}
