/**
 * The MAC addresses learned from peers: each peer has a fixed number of entries, in the order they
 * were last seen, and an index says which peer an address belongs to.
 */
module MacIndexModel {
  import opened Lists

  datatype PeerMacs<M> = PeerMacs(free: nat, used: seq<M>)

  datatype Index<P(==), M(==)> = Index(peers: map<P, PeerMacs<M>>, owner: map<M, P>)

  /** The entries of a peer are all there, and the index has exactly those in use. */
  ghost predicate PeerOk<P, M>(max: nat, w: Index<P, M>, p: P)
    requires p in w.peers
  {
    var st := w.peers[p];
    && st.free + |st.used| == max && NoDup(st.used)
    && (forall m :: m in st.used ==> m in w.owner && w.owner[m] == p)
  }

  ghost predicate Inv<P, M>(max: nat, w: Index<P, M>) {
    && max > 0
    && (forall p :: p in w.peers ==> PeerOk(max, w, p))
    && (forall m :: m in w.owner ==> w.owner[m] in w.peers && m in w.peers[w.owner[m]].used)
  }

  /** Some other peer has that MAC; disassociate it. */
  function TakeAway<P, M>(w: Index<P, M>, mac: M): Index<P, M>
    requires mac in w.owner && w.owner[mac] in w.peers
  {
    var p := w.owner[mac];
    Index(w.peers[p := PeerMacs(w.peers[p].free + 1, Without(w.peers[p].used, mac))], w.owner - {mac})
  }

  /** A peer without a free entry gives up the MAC it has not seen for longest. */
  function MakeRoom<P, M>(w: Index<P, M>, p: P): Index<P, M>
    requires p in w.peers && (w.peers[p].free == 0 ==> w.peers[p].used != [])
  {
    var st := w.peers[p];
    if st.free > 0 then w.(peers := w.peers[p := st.(free := st.free - 1)])
    else Index(w.peers[p := st.(used := st.used[1..])], w.owner - {st.used[0]})
  }

  function Append<P, M>(w: Index<P, M>, p: P, mac: M): Index<P, M>
    requires p in w.peers
  {
    Index(w.peers[p := w.peers[p].(used := w.peers[p].used + [mac])], w.owner[mac := p])
  }

  /** add_mac_to_peer */
  function Learn<P, M>(max: nat, w: Index<P, M>, p: P, mac: M): Index<P, M>
    requires Inv(max, w) && p in w.peers
  {
    if mac in w.owner && w.owner[mac] == p then
      w.(peers := w.peers[p := w.peers[p].(used := Without(w.peers[p].used, mac) + [mac])])
    else
      var r := if mac in w.owner then TakeAway(w, mac) else w;
      RoomFacts(max, w, p, mac);
      Append(MakeRoom(r, p), p, mac)
  }

  lemma RoomFacts<P, M>(max: nat, w: Index<P, M>, p: P, mac: M)
    requires Inv(max, w) && p in w.peers
    ensures PeerOk(max, w, p) && (w.peers[p].free == 0 ==> w.peers[p].used != [])
    ensures mac in w.owner ==> w.owner[mac] in w.peers && mac in w.peers[w.owner[mac]].used && PeerOk(max, w, w.owner[mac])
  {
    assert PeerOk(max, w, p);
    if mac in w.owner {
      assert PeerOk(max, w, w.owner[mac]);
    }
  }

  function AddPeer<P, M>(max: nat, w: Index<P, M>, p: P): Index<P, M> {
    w.(peers := w.peers[p := PeerMacs(max, [])])
  }

  /** The MAC part of FrameDeciderPeer_Free */
  function RemovePeer<P, M>(w: Index<P, M>, p: P): Index<P, M>
    requires p in w.peers
  {
    Index(w.peers - {p}, map m | m in w.owner && m !in w.peers[p].used :: w.owner[m])
  }

  // ---------------------------------------------------------------- the invariant is kept

  lemma TakeAwayInv<P, M>(max: nat, w: Index<P, M>, mac: M)
    requires Inv(max, w) && mac in w.owner
    ensures w.owner[mac] in w.peers && Inv(max, TakeAway(w, mac))
  {
    hide NoDup, Without;
    var p := w.owner[mac];
    RoomFacts(max, w, p, mac);
    WithoutMembers(w.peers[p].used, mac);
    WithoutLength(w.peers[p].used, mac);
    var r := TakeAway(w, mac);
    assert NoDup(r.peers[p].used) && PeerOk(max, r, p);
    forall q | q in r.peers ensures PeerOk(max, r, q) {
      assert PeerOk(max, w, q);
    }
  }

  lemma MakeRoomAppendInv<P, M>(max: nat, w: Index<P, M>, p: P, mac: M)
    requires Inv(max, w) && p in w.peers && mac !in w.owner
    requires w.peers[p].free == 0 ==> w.peers[p].used != []
    ensures Inv(max, Append(MakeRoom(w, p), p, mac))
  {
    hide NoDup;
    RoomFacts(max, w, p, mac);
    if w.peers[p].free == 0 {
      HeadGone(w.peers[p].used);
    }
    AppendNoDup(MakeRoom(w, p).peers[p].used, mac);
    var r := Append(MakeRoom(w, p), p, mac);
    assert NoDup(r.peers[p].used) && PeerOk(max, r, p);
    forall q | q in r.peers ensures PeerOk(max, r, q) {
      assert PeerOk(max, w, q);
    }
  }

  lemma SeenAgainInv<P, M>(max: nat, w: Index<P, M>, p: P, mac: M)
    requires Inv(max, w) && p in w.peers && mac in w.owner && w.owner[mac] == p
    ensures Inv(max, Learn(max, w, p, mac))
  {
    hide NoDup, Without;
    RoomFacts(max, w, p, mac);
    WithoutMembers(w.peers[p].used, mac);
    WithoutLength(w.peers[p].used, mac);
    AppendNoDup(Without(w.peers[p].used, mac), mac);
    var r := Learn(max, w, p, mac);
    assert NoDup(r.peers[p].used) && PeerOk(max, r, p);
    forall q | q in r.peers ensures PeerOk(max, r, q) {
      assert PeerOk(max, w, q);
    }
  }

  lemma LearnInv<P, M>(max: nat, w: Index<P, M>, p: P, mac: M)
    requires Inv(max, w) && p in w.peers
    ensures Inv(max, Learn(max, w, p, mac))
  {
    hide NoDup, Without, Inv;
    RoomFacts(max, w, p, mac);
    if mac in w.owner && w.owner[mac] == p {
      SeenAgainInv(max, w, p, mac);
    } else {
      if mac in w.owner { TakeAwayInv(max, w, mac); }
      var r := if mac in w.owner then TakeAway(w, mac) else w;
      MakeRoomAppendInv(max, r, p, mac);
    }
  }

  lemma PeerInv<P, M>(max: nat, w: Index<P, M>, p: P)
    requires Inv(max, w)
    ensures p !in w.peers ==> Inv(max, AddPeer(max, w, p))
    ensures p in w.peers ==> Inv(max, RemovePeer(w, p))
  {
    forall q | q in w.peers ensures PeerOk(max, w, q) {}
    if p in w.peers {
      var r := RemovePeer(w, p);
      forall q | q in r.peers ensures PeerOk(max, r, q) {
        assert PeerOk(max, w, q);
      }
    } else {
      var r := AddPeer(max, w, p);
      forall q | q in r.peers ensures PeerOk(max, r, q) {
        assert q != p ==> PeerOk(max, w, q);
      }
    }
  }

  // ---------------------------------------------------------------- runs

  datatype Event<P, M> = Join(p: P) | Leave(p: P) | Frame(p: P, mac: M)

  predicate Enabled<P(==), M(==)>(w: Index<P, M>, e: Event<P, M>) {
    if e.Join? then e.p !in w.peers else e.p in w.peers
  }

  function Step<P, M>(max: nat, w: Index<P, M>, e: Event<P, M>): Index<P, M>
    requires Inv(max, w) && Enabled(w, e)
  {
    match e
    case Join(p) => AddPeer(max, w, p)
    case Leave(p) => RemovePeer(w, p)
    case Frame(p, mac) => Learn(max, w, p, mac)
  }

  lemma StepInv<P, M>(max: nat, w: Index<P, M>, e: Event<P, M>)
    requires Inv(max, w) && Enabled(w, e)
    ensures Inv(max, Step(max, w, e))
  {
    hide Inv;
    PeerInv(max, w, e.p);
    if e.Frame? {
      LearnInv(max, w, e.p, e.mac);
    }
  }

  ghost predicate AllEnabled<P, M>(max: nat, w: Index<P, M>, es: seq<Event<P, M>>)
    requires Inv(max, w)
    decreases |es|
  {
    es == [] || (Enabled(w, es[0]) && (StepInv(max, w, es[0]); AllEnabled(max, Step(max, w, es[0]), es[1..])))
  }

  ghost function Run<P, M>(max: nat, w: Index<P, M>, es: seq<Event<P, M>>): (r: Index<P, M>)
    requires Inv(max, w) && AllEnabled(max, w, es)
    ensures Inv(max, r)
    decreases |es|
  {
    if es == [] then w
    else
      StepInv(max, w, es[0]);
      Run(max, Step(max, w, es[0]), es[1..])
  }

  /** One more than the place of the last frame with this source address; 0 if there was none. */
  function LastSeen<P(==), M(==)>(h: seq<Event<P, M>>, mac: M): (n: nat)
    ensures n <= |h| && (n > 0 ==> h[n - 1].Frame? && h[n - 1].mac == mac)
    ensures forall i :: n <= i < |h| ==> !(h[i].Frame? && h[i].mac == mac)
  {
    if h == [] then 0
    else if h[|h| - 1].Frame? && h[|h| - 1].mac == mac then |h|
    else LastSeen(h[..|h| - 1], mac)
  }

  /** The MACs are listed in the order they were last seen. */
  ghost predicate InOrder<P, M>(h: seq<Event<P, M>>, used: seq<M>) {
    forall i, j :: 0 <= i < j < |used| ==> LastSeen(h, used[i]) < LastSeen(h, used[j])
  }

  ghost predicate OwnedByLast<P, M>(h: seq<Event<P, M>>, w: Index<P, M>, mac: M)
    requires mac in w.owner
  {
    LastSeen(h, mac) > 0 && h[LastSeen(h, mac) - 1] == Frame(w.owner[mac], mac)
  }

  ghost predicate HistoryOk<P, M>(h: seq<Event<P, M>>, w: Index<P, M>) {
    && (forall m :: m in w.owner ==> OwnedByLast(h, w, m))
    && (forall p :: p in w.peers ==> InOrder(h, w.peers[p].used))
  }

  /**
   * After any history: a MAC belongs to the peer it was last seen from, if to any, and the MACs of
   * each peer are in the order they were last seen.
   */
  lemma {:induction false} MacsFollowHistory<P, M>(max: nat, h: seq<Event<P, M>>, w: Index<P, M>, es: seq<Event<P, M>>)
    requires Inv(max, w) && AllEnabled(max, w, es) && HistoryOk(h, w)
    ensures HistoryOk(h + es, Run(max, w, es))
    decreases |es|
  {
    hide HistoryOk, Step;
    if es == [] {
      assert h + es == h;
    } else {
      StepInv(max, w, es[0]);
      StepHistory(max, h, w, es[0]);
      MacsFollowHistory(max, h + [es[0]], Step(max, w, es[0]), es[1..]);
      assert h + es == h + [es[0]] + es[1..];
    }
  }

  lemma SeenLater<P, M>(h: seq<Event<P, M>>, e: Event<P, M>, mac: M)
    ensures LastSeen(h + [e], mac) == if e.Frame? && e.mac == mac then |h| + 1 else LastSeen(h, mac)
  {
    assert (h + [e])[..|h|] == h;
  }

  lemma {:induction false} WithoutInOrder<P, M>(h: seq<Event<P, M>>, used: seq<M>, mac: M)
    requires InOrder(h, used)
    ensures InOrder(h, Without(used, mac))
  {
    if mac in used {
      var i :| 0 <= i < |used| && used[i] == mac && forall j :: 0 <= j < i ==> used[j] != mac;
      WithoutIsSlices(used, mac, i);
    } else {
      WithoutAbsent(used, mac);
    }
  }

  lemma AppendInOrder<P, M>(h: seq<Event<P, M>>, e: Event<P, M>, used: seq<M>)
    requires InOrder(h, used) && e.Frame? && e.mac !in used
    ensures InOrder(h + [e], used + [e.mac])
  {
    var r := used + [e.mac];
    forall i, j | 0 <= i < j < |r| ensures LastSeen(h + [e], r[i]) < LastSeen(h + [e], r[j]) {
      SeenLater(h, e, r[i]);
      SeenLater(h, e, r[j]);
    }
  }

  lemma StillInOrder<P, M>(h: seq<Event<P, M>>, e: Event<P, M>, used: seq<M>)
    requires InOrder(h, used) && (e.Frame? ==> e.mac !in used)
    ensures InOrder(h + [e], used)
  {
    forall i, j | 0 <= i < j < |used| ensures LastSeen(h + [e], used[i]) < LastSeen(h + [e], used[j]) {
      SeenLater(h, e, used[i]);
      SeenLater(h, e, used[j]);
    }
  }

  lemma StepHistory<P, M>(max: nat, h: seq<Event<P, M>>, w: Index<P, M>, e: Event<P, M>)
    requires Inv(max, w) && Enabled(w, e) && HistoryOk(h, w)
    ensures HistoryOk(h + [e], Step(max, w, e))
  {
    hide InOrder, OwnedByLast, Step, Inv;
    var r := Step(max, w, e);
    forall m | m in r.owner ensures OwnedByLast(h + [e], r, m) {
      StepOwned(max, h, w, e, m);
    }
    forall p | p in r.peers ensures InOrder(h + [e], r.peers[p].used) {
      StepInOrder(max, h, w, e, p);
    }
  }

  lemma StepOwned<P, M>(max: nat, h: seq<Event<P, M>>, w: Index<P, M>, e: Event<P, M>, m: M)
    requires Inv(max, w) && Enabled(w, e) && HistoryOk(h, w) && m in Step(max, w, e).owner
    ensures OwnedByLast(h + [e], Step(max, w, e), m)
  {
    hide InOrder, NoDup, Without, LastSeen;
    SeenLater(h, e, m);
    assert m in w.owner ==> OwnedByLast(h, w, m);
  }

  lemma StepInOrder<P, M>(max: nat, h: seq<Event<P, M>>, w: Index<P, M>, e: Event<P, M>, p: P)
    requires Inv(max, w) && Enabled(w, e) && HistoryOk(h, w) && p in Step(max, w, e).peers
    ensures InOrder(h + [e], Step(max, w, e).peers[p].used)
  {
    hide InOrder, NoDup;
    if e.Frame? {
      RoomFacts(max, w, e.p, e.mac);
      assert PeerOk(max, w, p);
      var used := w.peers[p].used;
      WithoutMembers(used, e.mac);
      WithoutInOrder(h, used, e.mac);
      if p == e.p {
        if e.mac !in w.owner || w.owner[e.mac] != p {
          if w.peers[p].free == 0 {
            TailInOrder(h, used);
            AppendInOrder(h, e, used[1..]);
          } else {
            AppendInOrder(h, e, used);
          }
        } else {
          AppendInOrder(h, e, Without(used, e.mac));
        }
      } else {
        if e.mac in w.owner && w.owner[e.mac] == p {
          StillInOrder(h, e, Without(used, e.mac));
        } else {
          StillInOrder(h, e, used);
        }
      }
    } else if e.Join? && p == e.p {
      NoneInOrder(h + [e]);
    } else {
      StillInOrder(h, e, w.peers[p].used);
    }
  }

  lemma TailInOrder<P, M>(h: seq<Event<P, M>>, used: seq<M>)
    requires InOrder(h, used) && used != []
    ensures InOrder(h, used[1..]) && forall m :: m in used[1..] ==> m in used
  {
  }

  lemma NoneInOrder<P, M>(h: seq<Event<P, M>>)
    ensures InOrder<P, M>(h, [])
  {
  }

  /**
   * Learning a MAC moves it to the peer; the only other MAC that is lost is, of those of this peer,
   * the one it has not seen for longest, and only if all its entries are in use.
   */
  lemma LeastRecentlySeenIsLost<P, M>(max: nat, h: seq<Event<P, M>>, w: Index<P, M>, p: P, mac: M, m: M)
    requires Inv(max, w) && HistoryOk(h, w) && p in w.peers
    ensures var r := Learn(max, w, p, mac);
      && mac in r.owner && r.owner[mac] == p
      && (m in r.owner && m != mac ==> m in w.owner && r.owner[m] == w.owner[m])
      && (m in w.owner && m !in r.owner ==>
            && w.owner[m] == p && w.peers[p].free == 0 && |w.peers[p].used| == max && mac !in w.peers[p].used
            && m in w.peers[p].used && forall o :: o in w.peers[p].used ==> LastSeen(h, m) <= LastSeen(h, o))
  {
    RoomFacts(max, w, p, mac);
    var used := w.peers[p].used;
    assert InOrder(h, used);
    forall o | o in used ensures LastSeen(h, used[0]) <= LastSeen(h, o) {
      var i :| 0 <= i < |used| && used[i] == o;
    }
  }
}
