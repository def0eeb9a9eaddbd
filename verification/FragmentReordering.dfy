/**
 * The chunks of a frame may arrive in any order, spread over packets and mixed with those of other
 * frames: the assembler delivers the frame once, when the last of them arrives.
 */
module FragmentReordering {
  import A = AssemblerModel
  import opened AssemblerFrames
  import opened Bytes
  import opened Counting
  import D = DisassemblerModel
  import opened FragmentProto
  import opened Lists
  import RT = FragmentRoundTrip

  /** The chunks of a frame, cut from position `from` of the payload on. */
  predicate Tiles(cs: seq<Chunk>, id: nat, payload: seq<byte>, from: nat)
    decreases |cs|
  {
    && cs != [] && cs[0].id == id && cs[0].start == from && from + |cs[0].data| <= |payload|
    && cs[0].data == payload[from..from + |cs[0].data|]
    && (if |cs| == 1 then cs[0].last && from + |cs[0].data| == |payload|
        else !cs[0].last && cs[0].data != [] && Tiles(cs[1..], id, payload, from + |cs[0].data|))
  }

  lemma {:induction false} UnfinishedReads(c: A.Config, rd: RT.Reader, cs: seq<Chunk>)
    requires RT.AcceptsAll(c, rd, cs) && cs != [] && RT.ReadAll(rd, cs).done == rd.done
    ensures RT.ReadAll(rd, cs).acc != []
    decreases |cs|
  {
    RT.ReadAllOnlyAdds(RT.Read(rd, cs[0]), cs[1..]);
    if |cs| > 1 {
      UnfinishedReads(c, RT.Read(rd, cs[0]), cs[1..]);
    }
  }

  /** What a disassembler writes for one frame (FragmentRoundTrip.CutRead) are such chunks. */
  lemma {:induction false} ReadIsTiling(c: A.Config, rd: RT.Reader, cs: seq<Chunk>, payload: seq<byte>, from: nat)
    requires RT.AcceptsAll(c, rd, cs) && from <= |payload| && rd.acc == payload[..from] && cs != []
    requires RT.ReadAll(rd, cs).done == rd.done + [payload] && RT.ReadAll(rd, cs).acc == []
    ensures Tiles(cs, rd.id, payload, from)
    decreases |cs|
  {
    var ch, next := cs[0], RT.Read(rd, cs[0]);
    if ch.last {
      RT.ReadAllOnlyAdds(next, cs[1..]);
      assert next.done[|rd.done|] == payload;
      if |cs| > 1 {
        UnfinishedReads(c, next, cs[1..]);
      }
      assert rd.acc + ch.data == payload;
    } else if |cs| > 1 {
      PrefixOfDone(c, next, cs[1..], payload);
      assert next.acc == payload[..from + |ch.data|];
      ReadIsTiling(c, next, cs[1..], payload, from + |ch.data|);
      assert ch.data == payload[from..from + |ch.data|];
    }
  }

  /** The bytes read so far begin the next frame that is finished. */
  lemma {:induction false} PrefixOfDone(c: A.Config, rd: RT.Reader, cs: seq<Chunk>, payload: seq<byte>)
    requires RT.AcceptsAll(c, rd, cs) && RT.ReadAll(rd, cs).done == rd.done + [payload]
    ensures rd.acc <= payload
    decreases |cs|
  {
    if cs != [] {
      var next := RT.Read(rd, cs[0]);
      if cs[0].last {
        RT.ReadAllOnlyAdds(next, cs[1..]);
        assert next.done[|rd.done|] == payload;
      } else {
        PrefixOfDone(c, next, cs[1..], payload);
      }
    }
  }

  /** The same, chunk by chunk. */
  ghost predicate Tiling(cs: seq<Chunk>, id: nat, payload: seq<byte>, from: nat) {
    && cs != []
    && (forall i {:trigger cs[i]} :: 0 <= i < |cs| ==> Tile(cs, id, payload, from, i))
    && (forall i, j :: 0 <= i < j < |cs| ==> cs[i].start + |cs[i].data| <= cs[j].start)
    && (forall k :: from <= k < |payload| ==> InSome(cs, k))
  }

  predicate Tile(cs: seq<Chunk>, id: nat, payload: seq<byte>, from: nat, i: nat)
    requires i < |cs|
  {
    && cs[i].id == id && from <= cs[i].start && cs[i].start + |cs[i].data| <= |payload|
    && cs[i].data == payload[cs[i].start..cs[i].start + |cs[i].data|]
    && (cs[i].last <==> i == |cs| - 1) && (cs[i].last ==> cs[i].start + |cs[i].data| == |payload|)
    && (!cs[i].last ==> cs[i].data != [])
  }

  predicate In(ch: Chunk, k: int) {
    ch.start <= k < ch.start + |ch.data|
  }

  ghost predicate InSome(cs: seq<Chunk>, k: int) {
    exists i :: 0 <= i < |cs| && In(cs[i], k)
  }

  lemma {:induction false} TilesCover(cs: seq<Chunk>, id: nat, payload: seq<byte>, from: nat, k: nat)
    requires Tiles(cs, id, payload, from) && from <= k < |payload|
    ensures InSome(cs, k)
    decreases |cs|
  {
    var next := from + |cs[0].data|;
    if k < next {
      assert In(cs[0], k);
    } else {
      TilesCover(cs[1..], id, payload, next, k);
      var i :| 0 <= i < |cs[1..]| && In(cs[1..][i], k);
      assert In(cs[i + 1], k);
    }
  }

  lemma {:induction false} TilesInOrder(cs: seq<Chunk>, id: nat, payload: seq<byte>, from: nat, i: nat)
    requires Tiles(cs, id, payload, from) && i < |cs|
    ensures Tile(cs, id, payload, from, i)
    ensures i > 0 ==> from + |cs[0].data| <= cs[i].start
    decreases |cs|
  {
    if i > 0 {
      TilesInOrder(cs[1..], id, payload, from + |cs[0].data|, i - 1);
      assert cs[1..][i - 1] == cs[i];
    }
  }

  lemma {:induction false} TilesApart(cs: seq<Chunk>, id: nat, payload: seq<byte>, from: nat, i: nat, j: nat)
    requires Tiles(cs, id, payload, from) && i < j < |cs|
    ensures cs[i].start + |cs[i].data| <= cs[j].start
    decreases |cs|
  {
    if i > 0 {
      TilesApart(cs[1..], id, payload, from + |cs[0].data|, i - 1, j - 1);
    } else {
      TilesInOrder(cs, id, payload, from, j);
    }
  }

  lemma TilesAreTiling(cs: seq<Chunk>, id: nat, payload: seq<byte>, from: nat)
    requires Tiles(cs, id, payload, from)
    ensures Tiling(cs, id, payload, from)
  {
    hide Tiles, InSome;
    TilesNonempty(cs, id, payload, from);
    forall i | 0 <= i < |cs| ensures Tile(cs, id, payload, from, i) {
      TilesInOrder(cs, id, payload, from, i);
    }
    forall i, j | 0 <= i < j < |cs| ensures cs[i].start + |cs[i].data| <= cs[j].start {
      TilesApart(cs, id, payload, from, i, j);
    }
    forall k | from <= k < |payload| ensures InSome(cs, k) {
      TilesCover(cs, id, payload, from, k);
    }
  }

  lemma TilesNonempty(cs: seq<Chunk>, id: nat, payload: seq<byte>, from: nat)
    requires Tiles(cs, id, payload, from)
    ensures cs != []
  {
  }

  // ---------------------------------------------------------------- a frame partly received

  ghost predicate Chosen(order: seq<nat>, n: nat) {
    NoDup(order) && forall j :: 0 <= j < |order| ==> order[j] < n
  }

  ghost predicate Picked(cs: seq<Chunk>, got: seq<nat>, pieces: seq<A.Piece>) {
    |pieces| == |got| && forall j :: 0 <= j < |got| ==>
      got[j] < |cs| && pieces[j] == A.Piece(cs[got[j]].start, cs[got[j]].data)
  }

  /** What of the frame is in the pool: nothing before the first of its chunks and after the last. */
  ghost predicate Partial(c: A.Config, p: A.Pool, id: nat, payload: seq<byte>, cs: seq<Chunk>, got: seq<nat>, age: nat) {
    var i := A.IndexOf(p.used, id);
    if got == [] || |got| == |cs| then i == |p.used|
    else i < |p.used| && Partly(p.used[i], id, payload, cs, got) && p.time - p.used[i].time <= age
  }

  ghost predicate Partly(f: A.Frame, id: nat, payload: seq<byte>, cs: seq<Chunk>, got: seq<nat>) {
    && f.id == id && Picked(cs, got, f.pieces) && f.lengthSoFar <= |payload|
    && (f.length == -1 || f.length == |payload|)
    && (f.length == -1 <==> forall j :: 0 <= j < |got| ==> got[j] != |cs| - 1)
  }

  lemma LocatePartial(c: A.Config, p: A.Pool, id: nat, payload: seq<byte>, cs: seq<Chunk>, got: seq<nat>)
    requires A.Inv(c, p) && Partial(c, p, id, payload, cs, got, c.numFrames) && |got| < |cs|
    ensures A.HasSlot(p)
    ensures var q := A.Locate(c, p, id); var i := A.IndexOf(q.used, id);
      A.Inv(c, q) && i < |q.used| && q.time == p.time && Partly(q.used[i], id, payload, cs, got)
  {
    A.LocateInv(c, p, id);
    if got == [] {
      A.AllocateInv(c, p, id);
      NothingYet(A.Locate(c, p, id).used[|A.Locate(c, p, id).used| - 1], id, payload, cs);
    }
  }

  lemma NothingYet(f: A.Frame, id: nat, payload: seq<byte>, cs: seq<Chunk>)
    requires f.id == id && f.pieces == [] && f.length == -1 && f.lengthSoFar == 0
    ensures Partly(f, id, payload, cs, [])
  {
  }

  /** All the chunks together cover the payload. */
  lemma AllCover(id: nat, payload: seq<byte>, cs: seq<Chunk>, got: seq<nat>, pieces: seq<A.Piece>)
    requires Tiling(cs, id, payload, 0) && Chosen(got, |cs|) && Picked(cs, got, pieces) && |got| == |cs|
    requires A.Disjoint(pieces) && A.Within(pieces, |payload|)
    ensures A.Total(pieces) == |payload|
  {
    DistinctBelow(got, |cs|);
    A.Pigeonhole(pieces, |payload|);
    A.CoverOfSize(pieces);
    forall k | 0 <= k < |payload| ensures k in A.CoverOf(pieces) {
      assert InSome(cs, k);
      var i :| 0 <= i < |cs| && In(cs[i], k);
      assert i in got;
      var j :| 0 <= j < |got| && got[j] == i;
      assert pieces[j].Covers(k);
      A.CoverOfMembers(pieces, k);
    }
    SubsetSize(Interval(0, |payload|), A.CoverOf(pieces));
  }

  /** A chunk that has not arrived leaves its first position uncovered. */
  lemma Missing(id: nat, payload: seq<byte>, cs: seq<Chunk>, got: seq<nat>, pieces: seq<A.Piece>, m: nat)
    requires Tiling(cs, id, payload, 0) && Picked(cs, got, pieces) && m < |cs| - 1 && m !in got
    ensures cs[m].start < |payload| && !A.Covered(pieces, cs[m].start)
  {
    forall j | 0 <= j < |pieces| ensures !pieces[j].Covers(cs[m].start) {
      assert got[j] in got;
      if got[j] < m {
        assert cs[got[j]].start + |cs[got[j]].data| <= cs[m].start;
      } else {
        assert cs[m].start + |cs[m].data| <= cs[got[j]].start;
      }
    }
  }

  /** While a chunk other than the last is missing, some position is not covered. */
  lemma SomeLess(id: nat, payload: seq<byte>, cs: seq<Chunk>, got: seq<nat>, pieces: seq<A.Piece>)
    requires Tiling(cs, id, payload, 0) && Chosen(got, |cs|) && Picked(cs, got, pieces)
    requires |got| < |cs| && |cs| - 1 in got
    requires A.Disjoint(pieces) && A.Within(pieces, |payload|)
    ensures A.Total(pieces) < |payload|
  {
    hide Tiling, Picked, A.Disjoint, A.Within, A.Covered, A.Total;
    DistinctBelow(got, |cs|);
    var m :| 0 <= m < |cs| && m !in got;
    A.Pigeonhole(pieces, |payload|);
    Missing(id, payload, cs, got, pieces, m);
  }

  /** A chunk that has not arrived yet is acceptable, and completes the frame exactly if it is the last to arrive. */
  lemma AddPartial(c: A.Config, now: nat, f: A.Frame, id: nat, payload: seq<byte>, cs: seq<Chunk>, got: seq<nat>, i: nat)
    requires A.InProgress(c, now, f) && Partly(f, id, payload, cs, got)
    requires Tiling(cs, id, payload, 0) && |payload| <= c.outputMtu && |cs| <= c.numChunks
    requires i < |cs| && Chosen(got + [i], |cs|)
    ensures var s := A.Piece(cs[i].start, cs[i].data);
      && |f.buffer| == c.outputMtu && s.End() <= c.outputMtu && A.Acceptable(f, s, cs[i].last)
      && var g := A.AddPiece(f, now, s, cs[i].last);
      && g.id == id && g.time == now && Partly(g, id, payload, cs, got + [i])
      && A.FrameOk(c, now, g)
      && (if |got| + 1 < |cs| then A.Incomplete(g) && |g.pieces| < c.numChunks
          else !A.Incomplete(g) && g.length == |payload|)
  {
    var s := A.Piece(cs[i].start, cs[i].data);
    ChunkAcceptable(id, payload, cs, got, i, f);
    A.AddPieceOk(c, now, f, s, cs[i].last);
    var g := A.AddPiece(f, now, s, cs[i].last);
    AddedPartly(f, now, id, payload, cs, got, i);
    CompletesLast(c, now, g, id, payload, cs, got + [i]);
    ChosenAtMost(got + [i], |cs|);
  }

  lemma NotYet(got: seq<nat>, i: nat, n: nat, j: nat)
    requires Chosen(got + [i], n) && j < |got|
    ensures got[j] != i
  {
    assert (got + [i])[j] == got[j] && (got + [i])[|got|] == i;
  }

  lemma ChosenAtMost(order: seq<nat>, n: nat)
    requires Chosen(order, n)
    ensures |order| <= n
  {
    DistinctBelow(order, n);
  }

  lemma ChunkAcceptable(id: nat, payload: seq<byte>, cs: seq<Chunk>, got: seq<nat>, i: nat, f: A.Frame)
    requires Tiling(cs, id, payload, 0) && i < |cs| && Chosen(got + [i], |cs|) && Partly(f, id, payload, cs, got)
    ensures A.Acceptable(f, A.Piece(cs[i].start, cs[i].data), cs[i].last)
  {
    forall j | 0 <= j < |f.pieces|
      ensures !A.Overlap(f.pieces[j].start, |f.pieces[j].data|, cs[i].start, |cs[i].data|)
    {
      NotYet(got, i, |cs|, j);
    }
    if cs[i].last {
      forall j | 0 <= j < |got| ensures got[j] != |cs| - 1 {
        NotYet(got, i, |cs|, j);
      }
    }
  }

  lemma AddedPartly(f: A.Frame, now: nat, id: nat, payload: seq<byte>, cs: seq<Chunk>, got: seq<nat>, i: nat)
    requires Tiling(cs, id, payload, 0) && i < |cs| && Partly(f, id, payload, cs, got)
    requires |payload| <= |f.buffer|
    ensures cs[i].start + |cs[i].data| <= |f.buffer|
    ensures Partly(A.AddPiece(f, now, A.Piece(cs[i].start, cs[i].data), cs[i].last), id, payload, cs, got + [i])
  {
    var all := got + [i];
    assert forall j :: 0 <= j < |got| ==> all[j] == got[j];
    assert all[|got|] == i;
  }

  lemma CompletesLast(c: A.Config, now: nat, g: A.Frame, id: nat, payload: seq<byte>, cs: seq<Chunk>, got: seq<nat>)
    requires Tiling(cs, id, payload, 0) && Chosen(got, |cs|) && Partly(g, id, payload, cs, got)
    requires A.FrameOk(c, now, g) && |cs| <= c.numChunks
    ensures if |got| < |cs| then A.Incomplete(g) && |g.pieces| < c.numChunks
            else !A.Incomplete(g) && g.length == |payload|
  {
    hide A.Disjoint, A.Written, A.Total;
    DistinctBelow(got, |cs|);
    assert A.Within(g.pieces, |payload|);
    if |got| == |cs| {
      assert |cs| - 1 in got;
      AllCover(id, payload, cs, got, g.pieces);
    } else if |cs| - 1 in got {
      SomeLess(id, payload, cs, got, g.pieces);
    }
  }

  /** The frame sent is the payload. */
  lemma SentIsPayload(c: A.Config, now: nat, g: A.Frame, id: nat, payload: seq<byte>, cs: seq<Chunk>, got: seq<nat>)
    requires Tiling(cs, id, payload, 0) && Partly(g, id, payload, cs, got)
    requires A.FrameOk(c, now, g) && !A.Incomplete(g) && g.length == |payload|
    ensures |payload| <= |g.buffer| && g.buffer[..g.length] == payload
  {
    A.CompleteFrame(c, now, g);
    var out := g.buffer[..g.length];
    forall k | 0 <= k < |out| ensures out[k] == payload[k] {
      assert A.BroughtBySome(g.pieces, out, k);
      var j :| A.Brought(g.pieces, out, j, k);
      assert cs[got[j]].data[k - cs[got[j]].start] == payload[k];
    }
  }

  /** A chunk of the frame arrives. */
  lemma ChunkPartial(c: A.Config, p: A.Pool, id: nat, payload: seq<byte>, cs: seq<Chunk>, got: seq<nat>, i: nat)
    requires A.Inv(c, p) && Partial(c, p, id, payload, cs, got, c.numFrames)
    requires Tiling(cs, id, payload, 0) && |payload| <= c.outputMtu && |cs| <= c.numChunks
    requires i < |cs| && Chosen(got + [i], |cs|)
    ensures A.HasSlot(p) && A.Sized(c, p)
    ensures var o := A.ProcessChunk(c, p, cs[i]);
      && A.Inv(c, o.pool) && Partial(c, o.pool, id, payload, cs, got + [i], 0)
      && o.sent == if |got| + 1 < |cs| then None else Some(payload)
  {
    hide A.Inv, Tiling, Partly, Chosen, A.FrameOk, A.Acceptable, A.AddPiece, A.Sized, A.FreeAt, Partial, A.Locate;
    A.ProcessChunkCorrect(c, p, cs[i]);
    ChosenAtMost(got + [i], |cs|);
    LocatePartial(c, p, id, payload, cs, got);
    var q := A.Locate(c, p, id);
    var k := A.IndexOf(q.used, id);
    FrameInProgress(c, q, k);
    AddPartial(c, q.time, q.used[k], id, payload, cs, got, i);
    ChunkId(cs, id, payload, i);
    var g := A.AddPiece(q.used[k], q.time, A.Piece(cs[i].start, cs[i].data), cs[i].last);
    AddedInPool(c, q, k, g, payload, cs, got + [i]);
    if |got| + 1 == |cs| {
      SentIsPayload(c, q.time, g, id, payload, cs, got + [i]);
    }
  }

  lemma FrameInProgress(c: A.Config, q: A.Pool, k: nat)
    requires A.Inv(c, q) && k < |q.used|
    ensures A.InProgress(c, q.time, q.used[k])
  {
  }

  /** The frame is still there with one more chunk, or it is gone. */
  lemma AddedInPool(c: A.Config, q: A.Pool, k: nat, g: A.Frame, payload: seq<byte>, cs: seq<Chunk>, got: seq<nat>)
    requires A.Inv(c, q) && k < |q.used| && g.id == q.used[k].id && g.time == q.time
    requires Partly(g, g.id, payload, cs, got) && got != [] && |got| <= |cs|
    ensures var r := q.(used := q.used[k := g]);
      Partial(c, if |got| < |cs| then r else A.FreeAt(r, k), g.id, payload, cs, got, 0)
  {
    hide Partly;
    var r := q.(used := q.used[k := g]);
    if |got| < |cs| {
      IndexOfIs(r.used, k);
    } else {
      var rest := A.FreeAt(r, k).used;
      forall j | 0 <= j < |rest| ensures rest[j].id != g.id {
        assert rest[j] == q.used[if j < k then j else j + 1];
      }
    }
  }

  lemma ChunkId(cs: seq<Chunk>, id: nat, payload: seq<byte>, i: nat)
    requires Tiling(cs, id, payload, 0) && i < |cs|
    ensures cs[i].id == id
  {
  }

  lemma TickPartial(c: A.Config, p: A.Pool, id: nat, payload: seq<byte>, cs: seq<Chunk>, got: seq<nat>, age: nat)
    requires A.Inv(c, p) && Partial(c, p, id, payload, cs, got, age) && age <= c.numFrames
    ensures Partial(c, A.Tick(c, p), id, payload, cs, got, if got == [] then 0 else age + 1)
  {
    hide A.Inv, A.Tick, Partly;
    TickLive(c, p, id);
    if !(got == [] || |got| == |cs|) {
      var i, j := A.IndexOf(p.used, id), A.IndexOf(A.Tick(c, p).used, id);
      OlderPartly(p.used[i], p.time, A.Tick(c, p).used[j], A.Tick(c, p).time, id, payload, cs, got);
    }
  }

  lemma OlderPartly(f: A.Frame, now: nat, g: A.Frame, later: nat, id: nat, payload: seq<byte>, cs: seq<Chunk>, got: seq<nat>)
    requires Older(f, now, g, later) && Partly(f, id, payload, cs, got)
    ensures Partly(g, id, payload, cs, got)
  {
  }

  /** A chunk of another frame arrives. */
  lemma OtherPartial(c: A.Config, p: A.Pool, ids: set<nat>, id: nat, payload: seq<byte>, cs: seq<Chunk>, got: seq<nat>, age: nat, ch: Chunk)
    requires A.Inv(c, p) && Partial(c, p, id, payload, cs, got, age)
    requires IdsIn(p, ids) && |ids| <= c.numFrames && ch.id in ids && ch.id != id
    ensures A.HasSlot(p) && A.Sized(c, p)
    ensures Partial(c, A.ProcessChunk(c, p, ch).pool, id, payload, cs, got, age)
  {
    hide A.ProcessChunk, Partly, SameBut;
    ChunkOthers(c, p, ids, ch);
    SameFrame(p, A.ProcessChunk(c, p, ch).pool, ch.id, id);
  }

  // ---------------------------------------------------------------- arrivals

  datatype Event = Arrives(ch: Chunk) | PacketEnds

  /** The chunks of the frame among those that arrive. */
  function Own(id: nat, events: seq<Event>): seq<Chunk> {
    if events == [] then []
    else if events[0].Arrives? && events[0].ch.id == id then [events[0].ch] + Own(id, events[1..])
    else Own(id, events[1..])
  }

  /** They arrive in this order. */
  function Reordered(cs: seq<Chunk>, order: seq<nat>): (r: seq<Chunk>)
    requires forall j :: 0 <= j < |order| ==> order[j] < |cs|
    ensures |r| == |order| && forall j :: 0 <= j < |r| ==> r[j] == cs[order[j]]
  {
    seq(|order|, j requires 0 <= j < |order| => cs[order[j]])
  }

  /**
   * No more than num_frames packets end between one chunk of the frame and the next; `age` have ended
   * since the last one, if there was one.
   */
  predicate Close(c: A.Config, id: nat, begun: bool, age: nat, events: seq<Event>)
    decreases |events|
  {
    if events == [] || Own(id, events) == [] then true
    else match events[0]
      case Arrives(ch) => if ch.id == id then Close(c, id, true, 0, events[1..]) else Close(c, id, begun, age, events[1..])
      case PacketEnds => (begun ==> age < c.numFrames) && Close(c, id, begun, if begun then age + 1 else 0, events[1..])
  }

  predicate OnlyIds(ids: set<nat>, events: seq<Event>) {
    forall j :: 0 <= j < |events| && events[j].Arrives? ==> events[j].ch.id in ids
  }

  ghost function Next(c: A.Config, p: A.Pool, e: Event): (q: A.Pool)
    requires A.Inv(c, p)
    ensures A.Inv(c, q)
  {
    match e
    case Arrives(ch) => A.ProcessChunkCorrect(c, p, ch); A.ProcessChunk(c, p, ch).pool
    case PacketEnds => A.TickCorrect(c, p); A.Tick(c, p)
  }

  /** What the assembler sends when the chunks of the frame arrive. */
  ghost function Outputs(c: A.Config, p: A.Pool, id: nat, events: seq<Event>): seq<Option<seq<byte>>>
    requires A.Inv(c, p)
    decreases |events|
  {
    if events == [] then []
    else if events[0].Arrives? && events[0].ch.id == id then
      A.ProcessChunkCorrect(c, p, events[0].ch);
      [A.ProcessChunk(c, p, events[0].ch).sent] + Outputs(c, Next(c, p, events[0]), id, events[1..])
    else
      Outputs(c, Next(c, p, events[0]), id, events[1..])
  }

  lemma {:induction false} NoneToCome(c: A.Config, p: A.Pool, id: nat, events: seq<Event>)
    requires A.Inv(c, p) && Own(id, events) == []
    ensures Outputs(c, p, id, events) == []
    decreases |events|
  {
    hide Next, A.Inv;
    if events != [] {
      NoneToCome(c, Next(c, p, events[0]), id, events[1..]);
    }
  }

  /** The payload with the last arrival, and nothing before. */
  predicate Once(outs: seq<Option<seq<byte>>>, payload: seq<byte>, n: nat) {
    |outs| == n && forall j :: 0 <= j < n ==> outs[j] == if j == n - 1 then Some(payload) else None
  }

  lemma EndsFrom(c: A.Config, p: A.Pool, ids: set<nat>, id: nat, payload: seq<byte>, cs: seq<Chunk>, got: seq<nat>, age: nat)
    requires A.Inv(c, p) && Partial(c, p, id, payload, cs, got, age) && IdsIn(p, ids) && age <= c.numFrames
    ensures A.Inv(c, A.Tick(c, p)) && IdsIn(A.Tick(c, p), ids)
    ensures Partial(c, A.Tick(c, p), id, payload, cs, got, if got == [] then 0 else age + 1)
  {
    hide A.Inv, A.Tick, Partly, IdsIn;
    A.TickCorrect(c, p);
    TickPartial(c, p, id, payload, cs, got, age);
    TickIdsIn(c, p, ids);
  }

  /** One chunk of the frame fewer is to come. */
  lemma OwnTaken(cs: seq<Chunk>, got: seq<nat>, order: seq<nat>, id: nat, events: seq<Event>)
    requires Chosen(got + order, |cs|) && order != [] && events != []
    requires events[0].Arrives? && events[0].ch.id == id
    requires (forall j :: 0 <= j < |order| ==> order[j] < |cs|) && Own(id, events) == Reordered(cs, order)
    ensures Chosen(got + [order[0]], |cs|) && Chosen(got + [order[0]] + order[1..], |cs|)
    ensures events[0].ch == cs[order[0]] && (forall j :: 0 <= j < |order[1..]| ==> order[1..][j] < |cs|)
    ensures Own(id, events[1..]) == Reordered(cs, order[1..])
  {
    var all := got + order;
    assert got + [order[0]] + order[1..] == all;
    assert got + [order[0]] == all[..|got| + 1];
    var own := Own(id, events);
    assert own[0] == events[0].ch == cs[order[0]];
    assert own[1..] == Own(id, events[1..]);
    assert Reordered(cs, order)[1..] == Reordered(cs, order[1..]);
  }

  lemma {:induction false} EventsFrom(c: A.Config, p: A.Pool, ids: set<nat>, id: nat, payload: seq<byte>, cs: seq<Chunk>,
                                      got: seq<nat>, age: nat, order: seq<nat>, events: seq<Event>)
    requires A.Inv(c, p) && Partial(c, p, id, payload, cs, got, age) && age <= c.numFrames
    requires IdsIn(p, ids) && |ids| <= c.numFrames && id in ids && OnlyIds(ids, events)
    requires Tiling(cs, id, payload, 0) && |payload| <= c.outputMtu && |cs| <= c.numChunks
    requires Chosen(got + order, |cs|) && |got| + |order| == |cs|
    requires (forall j :: 0 <= j < |order| ==> order[j] < |cs|) && Own(id, events) == Reordered(cs, order)
    requires Close(c, id, got != [], age, events)
    ensures Once(Outputs(c, p, id, events), payload, |order|)
    decreases |events|
  {
    hide A.Inv, Tiling, Partial, A.ProcessChunk, A.Tick, A.HasSlot, A.Sized, IdsIn, SameBut, Chosen;
    if order == [] {
      NoneToCome(c, p, id, events);
    } else {
      var e, rest := events[0], events[1..];
      if e.PacketEnds? {
        EndsFrom(c, p, ids, id, payload, cs, got, age);
        EventsFrom(c, A.Tick(c, p), ids, id, payload, cs, got, if got == [] then 0 else age + 1, order, rest);
      } else if e.ch.id != id {
        ChunkOthers(c, p, ids, e.ch);
        OtherPartial(c, p, ids, id, payload, cs, got, age, e.ch);
        EventsFrom(c, A.ProcessChunk(c, p, e.ch).pool, ids, id, payload, cs, got, age, order, rest);
      } else {
        OwnTaken(cs, got, order, id, events);
        ChunkOthers(c, p, ids, e.ch);
        PartialYounger(c, p, id, payload, cs, got, age);
        ChunkPartial(c, p, id, payload, cs, got, order[0]);
        EventsFrom(c, A.ProcessChunk(c, p, e.ch).pool, ids, id, payload, cs, got + [order[0]], 0, order[1..], rest);
      }
    }
  }

  lemma PartialYounger(c: A.Config, p: A.Pool, id: nat, payload: seq<byte>, cs: seq<Chunk>, got: seq<nat>, age: nat)
    requires Partial(c, p, id, payload, cs, got, age) && age <= c.numFrames
    ensures Partial(c, p, id, payload, cs, got, c.numFrames)
  {
  }

  /**
   * Order independence. Chunks of no more frames than there are frame slots arrive, whatever chunks
   * these are. If among them are those of one frame, each once and in any order, and no more than
   * num_frames packets end from one to the next, then this frame is delivered once, whole, with the
   * last of its chunks.
   */
  lemma AnyOrder(c: A.Config, p: A.Pool, ids: set<nat>, id: nat, payload: seq<byte>, cs: seq<Chunk>, order: seq<nat>, events: seq<Event>)
    requires A.Inv(c, p) && IdsIn(p, ids) && |ids| <= c.numFrames && id in ids && OnlyIds(ids, events)
    requires A.IndexOf(p.used, id) == |p.used|
    requires Tiles(cs, id, payload, 0) && |payload| <= c.outputMtu && |cs| <= c.numChunks
    requires Chosen(order, |cs|) && |order| == |cs| && Own(id, events) == Reordered(cs, order)
    requires Close(c, id, false, 0, events)
    ensures Once(Outputs(c, p, id, events), payload, |cs|)
  {
    hide A.Inv, Outputs, Close, Once, Own;
    TilesAreTiling(cs, id, payload, 0);
    assert [] + order == order;
    EventsFrom(c, p, ids, id, payload, cs, [], 0, order, events);
  }

  /** A frame sent: its payload, what it is cut into, and the order in which the chunks arrive. */
  datatype Sending = Sending(payload: seq<byte>, cs: seq<Chunk>, order: seq<nat>)

  ghost predicate Whole(c: A.Config, id: nat, s: Sending, events: seq<Event>) {
    && Tiles(s.cs, id, s.payload, 0) && |s.payload| <= c.outputMtu && |s.cs| <= c.numChunks
    && Chosen(s.order, |s.cs|) && |s.order| == |s.cs| && Own(id, events) == Reordered(s.cs, s.order)
    && Close(c, id, false, 0, events)
  }

  /** As many frames as there are slots may be interleaved in this way: each of them is delivered once. */
  lemma Interleaved(c: A.Config, p: A.Pool, sent: map<nat, Sending>, events: seq<Event>)
    requires A.Inv(c, p) && p.used == [] && |sent.Keys| <= c.numFrames && OnlyIds(sent.Keys, events)
    requires forall id :: id in sent ==> Whole(c, id, sent[id], events)
    ensures forall id :: id in sent ==> Once(Outputs(c, p, id, events), sent[id].payload, |sent[id].cs|)
  {
    hide A.Inv, Outputs, Close, Once, Own, Tiles;
    forall id | id in sent ensures Once(Outputs(c, p, id, events), sent[id].payload, |sent[id].cs|) {
      assert Whole(c, id, sent[id], events);
      AnyOrder(c, p, sent.Keys, id, sent[id].payload, sent[id].cs, sent[id].order, events);
    }
  }

  // ---------------------------------------------------------------- the chunks of the disassembler

  /** All chunks of a payload: write_chunks goes on in fresh packets until the payload ends. */
  function CutAll(c: D.Config, id: nat, payload: seq<byte>, used: nat, room: nat): seq<Chunk>
    requires c.Valid() && D.Cuttable(c, id, payload, used, room)
    decreases |payload| - used
  {
    CutGoesOn(c, id, payload, used, room);
    var end := D.CutEnd(c, id, payload, used, room);
    D.Cut(c, id, payload, used, room) +
    (if end == |payload| then [] else CutAll(c, id, payload, end, c.outputMtu - HEADER))
  }

  lemma CutGoesOn(c: D.Config, id: nat, payload: seq<byte>, used: nat, room: nat)
    requires c.Valid() && D.Cuttable(c, id, payload, used, room)
    ensures used < |payload| ==> used < D.CutEnd(c, id, payload, used, room)
  {
  }

  lemma {:induction false} CutAllRead(dc: D.Config, ac: A.Config, rd: RT.Reader, id: nat, payload: seq<byte>, used: nat, room: nat)
    requires dc.Valid() && D.Cuttable(dc, id, payload, used, room) && room <= dc.outputMtu - HEADER
    requires RT.At(ac, rd, id, payload, used)
    requires rd.count + RT.ChunkCount(dc, |payload| - used, room) <= ac.numChunks
    ensures var cs := CutAll(dc, id, payload, used, room);
      && cs != [] && RT.AcceptsAll(ac, rd, cs)
      && RT.ReadAll(rd, cs) == RT.Reader((id + 1) % 0x1_0000, [], 0, rd.done + [payload])
    decreases |payload| - used
  {
    hide RT.ChunkCount, D.Cut, D.CutEnd, RT.AcceptsAll, RT.ReadAll;
    RT.CutRead(dc, ac, rd, id, payload, used, room);
    CutGoesOn(dc, id, payload, used, room);
    var cs, end := D.Cut(dc, id, payload, used, room), D.CutEnd(dc, id, payload, used, room);
    if end == |payload| {
      assert cs + [] == cs;
    } else {
      CutAllRead(dc, ac, RT.ReadAll(rd, cs), id, payload, end, dc.outputMtu - HEADER);
      RT.ReadAppend(ac, rd, cs, CutAll(dc, id, payload, end, dc.outputMtu - HEADER));
    }
  }

  /** How many they are. */
  lemma {:induction false} CutCount(c: D.Config, id: nat, payload: seq<byte>, used: nat, room: nat)
    requires c.Valid() && D.Cuttable(c, id, payload, used, room)
    ensures var end := D.CutEnd(c, id, payload, used, room);
      RT.ChunkCount(c, |payload| - used, room) ==
        |D.Cut(c, id, payload, used, room)| + if end == |payload| then 0 else RT.ChunkCount(c, |payload| - end, c.outputMtu - HEADER)
    decreases |payload| - used
  {
    hide D.Cut, D.CutEnd, RT.ChunkCount, D.FirstChunk, RT.RoomAfter;
    CutCountStep(c, id, payload, used, room);
    var ch := D.FirstChunk(c, id, payload, used, room);
    if D.GoesOn(payload, room, ch) {
      CutCount(c, id, payload, used + |ch.data|, room - |ch.data| - HEADER);
    }
  }

  lemma CutCountStep(c: D.Config, id: nat, payload: seq<byte>, used: nat, room: nat)
    requires c.Valid() && D.Cuttable(c, id, payload, used, room)
    ensures var ch := D.FirstChunk(c, id, payload, used, room); var next := used + |ch.data|;
      if D.GoesOn(payload, room, ch) then
        && |D.Cut(c, id, payload, used, room)| == 1 + |D.Cut(c, id, payload, next, room - |ch.data| - HEADER)|
        && D.CutEnd(c, id, payload, used, room) == D.CutEnd(c, id, payload, next, room - |ch.data| - HEADER)
        && RT.ChunkCount(c, |payload| - used, room) == 1 + RT.ChunkCount(c, |payload| - next, room - |ch.data| - HEADER)
      else
        && |D.Cut(c, id, payload, used, room)| == 1 && D.CutEnd(c, id, payload, used, room) == next
        && RT.ChunkCount(c, |payload| - used, room) ==
             1 + if next == |payload| then 0 else RT.ChunkCount(c, |payload| - next, c.outputMtu - HEADER)
  {
    hide RT.ChunkCount;
    CountStep(c, id, payload, used, room);
  }

  lemma CountStep(c: D.Config, id: nat, payload: seq<byte>, used: nat, room: nat)
    requires c.Valid() && D.Cuttable(c, id, payload, used, room)
    ensures var ch := D.FirstChunk(c, id, payload, used, room); var next := used + |ch.data|;
      RT.ChunkCount(c, |payload| - used, room) ==
        1 + if next == |payload| then 0 else RT.ChunkCount(c, |payload| - next, RT.RoomAfter(c, room, |ch.data|))
  {
    hide D.ChunkLen;
  }

  lemma {:induction false} CutAllCount(c: D.Config, id: nat, payload: seq<byte>, used: nat, room: nat)
    requires c.Valid() && D.Cuttable(c, id, payload, used, room)
    ensures |CutAll(c, id, payload, used, room)| == RT.ChunkCount(c, |payload| - used, room)
    decreases |payload| - used
  {
    hide D.Cut, D.CutEnd, RT.ChunkCount;
    CutCount(c, id, payload, used, room);
    CutGoesOn(c, id, payload, used, room);
    var end := D.CutEnd(c, id, payload, used, room);
    if end < |payload| {
      CutAllCount(c, id, payload, end, c.outputMtu - HEADER);
    }
  }

  /**
   * What the disassembler makes of a payload, beginning anywhere in a packet, is delivered by the
   * assembler in whatever order it arrives.
   */
  lemma DisassembledInAnyOrder(dc: D.Config, ac: A.Config, p: A.Pool, ids: set<nat>, id: nat, payload: seq<byte>, room: nat,
                               order: seq<nat>, events: seq<Event>)
    requires RT.Compatible(dc, ac) && A.Inv(ac, p)
    requires IdsIn(p, ids) && |ids| <= ac.numFrames && id in ids && OnlyIds(ids, events) && A.IndexOf(p.used, id) == |p.used|
    requires id < 0x1_0000 && |payload| <= dc.inputMtu && 0 < room <= dc.outputMtu - HEADER
    requires var cs := CutAll(dc, id, payload, 0, room);
      Chosen(order, |cs|) && |order| == |cs| && Own(id, events) == Reordered(cs, order)
    requires Close(ac, id, false, 0, events)
    ensures Once(Outputs(ac, p, id, events), payload, |CutAll(dc, id, payload, 0, room)|)
  {
    hide A.Inv, Outputs, CutAll, RT.ChunkCount, RT.AcceptsAll, RT.ReadAll, Tiling, Tiles, Close, Once, Own;
    var cs, rd := CutAll(dc, id, payload, 0, room), RT.Reader(id, [], 0, []);
    assert payload[..0] == [];
    CutAllRead(dc, ac, rd, id, payload, 0, room);
    assert [] + [payload] == [payload];
    ReadIsTiling(ac, rd, cs, payload, 0);
    CutAllCount(dc, id, payload, 0, room);
    AnyOrder(ac, p, ids, id, payload, cs, order, events);
  }
}
