/** Where unicast frames go, told from the frames and peers there have been and from nothing else. */
module FrameDeciderHistory {
  import opened Counting
  import D = FrameDeciderDecide
  import opened Lists
  import opened MacIndexModel
  import M = MulticastModel

  /**
   * What is known of one MAC: the peer it was last seen from, and the other MACs seen from that peer
   * since then and from no other peer after that.
   */
  datatype Memory<P, M(==)> = Unknown | Known(p: P, newer: set<M>)

  /** A MAC is forgotten when its peer leaves, or when max others have been seen from its peer since. */
  function Recall<P(==), M>(max: nat, k: Memory<P, M>, mac: M, e: Event<P, M>): Memory<P, M> {
    if e.Frame? && e.mac == mac then Known(e.p, {})
    else if k.Unknown? || e.Join? then k
    else if e.Leave? then (if k.p == e.p then Unknown else k)
    else if k.p != e.p then Known(k.p, k.newer - {e.mac})
    else if |k.newer + {e.mac}| == max then Unknown
    else Known(k.p, k.newer + {e.mac})
  }

  function RecallAll<P(==), M>(max: nat, k: Memory<P, M>, mac: M, es: seq<Event<P, M>>): Memory<P, M>
    decreases |es|
  {
    if es == [] then k else RecallAll(max, Recall(max, k, mac, es[0]), mac, es[1..])
  }

  // ---------------------------------------------------------------- the used list behind a MAC

  function Behind<M(==)>(used: seq<M>, mac: M): seq<M> {
    if used == [] then [] else if used[0] == mac then used[1..] else Behind(used[1..], mac)
  }

  lemma {:induction false} BehindIsPart<M>(used: seq<M>, mac: M)
    requires NoDup(used) && mac in used
    ensures NoDup(Behind(used, mac)) && |Behind(used, mac)| < |used|
    ensures forall m :: m in Behind(used, mac) ==> m in used && m != mac
  {
    HeadGone(used);
    if used[0] != mac {
      BehindIsPart(used[1..], mac);
    }
  }

  lemma {:induction false} BehindAppend<M>(used: seq<M>, mac: M, m: M)
    ensures mac in used ==> Behind(used + [m], mac) == Behind(used, mac) + [m]
    ensures mac !in used && m == mac ==> Behind(used + [m], mac) == []
  {
    if used != [] {
      assert (used + [m])[1..] == used[1..] + [m];
      assert used == [used[0]] + used[1..];
      BehindAppend(used[1..], mac, m);
    }
  }

  lemma {:induction false} BehindWithout<M>(used: seq<M>, mac: M, m: M)
    requires NoDup(used) && mac in used && m != mac
    ensures mac in Without(used, m) && Behind(Without(used, m), mac) == Without(Behind(used, mac), m)
  {
    HeadGone(used);
    WithoutMembers(used, m);
    if used[0] == mac {
      assert Without(used, m)[1..] == Without(used[1..], m);
    } else {
      BehindIsPart(used[1..], mac);
      if used[0] == m {
        WithoutAbsent(Behind(used[1..], mac), m);
      } else {
        BehindWithout(used[1..], mac, m);
        assert Without(used, m)[1..] == Without(used[1..], m);
      }
    }
  }

  lemma {:induction false} ElementsAppend<M>(s: seq<M>, m: M)
    ensures Elements(s + [m]) == Elements(s) + {m}
  {
    if s != [] {
      assert (s + [m])[1..] == s[1..] + [m];
      ElementsAppend(s[1..], m);
    } else {
      assert [m][1..] == [];
    }
  }

  lemma {:induction false} ElementsWithout<M>(s: seq<M>, m: M)
    requires NoDup(s)
    ensures Elements(Without(s, m)) == Elements(s) - {m}
  {
    if s != [] {
      HeadGone(s);
      ElementsWithout(s[1..], m);
      ElementMembers(s[1..]);
      assert s[0] != m ==> Without(s, m)[1..] == Without(s[1..], m);
      assert s[0] == m ==> m !in s[1..];
    }
  }

  // ---------------------------------------------------------------- the index remembers exactly that

  ghost predicate Remembers<P, M>(w: Index<P, M>, mac: M, k: Memory<P, M>) {
    if k.Unknown? then mac !in w.owner
    else
      && mac in w.owner && w.owner[mac] == k.p && k.p in w.peers && mac in w.peers[k.p].used
      && k.newer == Elements(Behind(w.peers[k.p].used, mac))
  }

  /** One more MAC is last on the list, and it was not behind mac already, or is taken out there first. */
  lemma NewerGrows<M>(used: seq<M>, mac: M, m: M, r: seq<M>, newer: set<M>, max: nat)
    requires NoDup(used) && mac in used && m != mac && newer == Elements(Behind(used, mac))
    requires r == Without(used, m) + [m] || (m !in used && r == used + [m])
    requires |r| <= max
    ensures mac in r && Elements(Behind(r, mac)) == newer + {m} && |newer + {m}| < max
  {
    hide NoDup, Without, Behind, Elements;
    BehindIsPart(used, mac);
    WithoutMembers(used, m);
    BehindWithout(used, mac, m);
    if m !in used { WithoutAbsent(used, m); }
    var s, behind := Without(used, m), Behind(used, mac);
    assert r == s + [m];
    BehindAppend(s, mac, m);
    AppendNoDup(s, m);
    BehindIsPart(r, mac);
    ElementCount(Behind(r, mac));
    ElementsWithout(behind, m);
    ElementsAppend(Without(behind, m), m);
  }

  lemma StepRemembers<P, M>(max: nat, w: Index<P, M>, mac: M, k: Memory<P, M>, e: Event<P, M>)
    requires Inv(max, w) && Enabled(w, e) && Remembers(w, mac, k)
    ensures Remembers(Step(max, w, e), mac, Recall(max, k, mac, e))
  {
    if e.Frame? {
      if e.mac == mac {
        SeenRemembers(max, w, mac, e.p);
      } else if k.Known? && k.p == e.p {
        OwnFrame(max, w, mac, k, e.mac);
      } else if k.Known? {
        OtherFrame(max, w, mac, k, e.p, e.mac);
      } else {
        RoomFacts(max, w, e.p, e.mac);
      }
    } else if k.Known? {
      assert PeerOk(max, w, k.p);
      if e.Leave? { assert PeerOk(max, w, e.p); }
    }
  }

  /** The MAC itself is seen. */
  lemma SeenRemembers<P, M>(max: nat, w: Index<P, M>, mac: M, p: P)
    requires Inv(max, w) && p in w.peers
    ensures Remembers(Learn(max, w, p, mac), mac, Known(p, {}))
  {
    hide NoDup, Without;
    RoomFacts(max, w, p, mac);
    var used := w.peers[p].used;
    WithoutMembers(used, mac);
    BehindAppend(Without(used, mac), mac, mac);
    BehindAppend(used, mac, mac);
    if used != [] {
      HeadGone(used);
      BehindAppend(used[1..], mac, mac);
    }
  }

  /** Another MAC is seen from the same peer. */
  lemma OwnFrame<P, M>(max: nat, w: Index<P, M>, mac: M, k: Memory<P, M>, m: M)
    requires Inv(max, w) && Remembers(w, mac, k) && k.Known? && m != mac
    ensures Remembers(Learn(max, w, k.p, m), mac, Recall(max, k, mac, Frame(k.p, m)))
  {
    hide NoDup, Without, Behind, Elements, Inv;
    RoomFacts(max, w, k.p, m);
    var used := w.peers[k.p].used;
    LearnInv(max, w, k.p, m);
    RoomFacts(max, Learn(max, w, k.p, m), k.p, m);
    if m in w.owner && w.owner[m] == k.p {
      NewerGrows(used, mac, m, Without(used, m) + [m], k.newer, max);
    } else if w.peers[k.p].free > 0 {
      NewerGrows(used, mac, m, used + [m], k.newer, max);
    } else {
      HeadGone(used);
      BehindOfHead(used, mac);
      if used[0] == mac {
        ElementMembers(used[1..]);
        ElementCount(used[1..]);
        assert |k.newer + {m}| == max;
      } else {
        NewerGrows(used[1..], mac, m, used[1..] + [m], k.newer, max);
      }
    }
  }

  lemma BehindOfHead<M>(used: seq<M>, mac: M)
    requires used != []
    ensures Behind(used, mac) == if used[0] == mac then used[1..] else Behind(used[1..], mac)
  {
  }

  /** A MAC is seen from another peer, and is taken away from this one if it has it. */
  lemma OtherFrame<P, M>(max: nat, w: Index<P, M>, mac: M, k: Memory<P, M>, p: P, m: M)
    requires Inv(max, w) && Remembers(w, mac, k) && k.Known? && m != mac && p in w.peers && p != k.p
    ensures Remembers(Learn(max, w, p, m), mac, Known(k.p, k.newer - {m}))
  {
    hide NoDup, Without, Behind, Elements;
    RoomFacts(max, w, p, m);
    RoomFacts(max, w, k.p, mac);
    var used := w.peers[k.p].used;
    BehindIsPart(used, mac);
    ElementMembers(Behind(used, mac));
    if m in w.owner && w.owner[m] == k.p {
      BehindWithout(used, mac, m);
      ElementsWithout(Behind(used, mac), m);
    } else {
      assert k.newer - {m} == k.newer;
    }
  }

  lemma {:induction false} IndexRemembers<P, M>(max: nat, w: Index<P, M>, mac: M, k: Memory<P, M>, es: seq<Event<P, M>>)
    requires Inv(max, w) && AllEnabled(max, w, es) && Remembers(w, mac, k)
    ensures Remembers(Run(max, w, es), mac, RecallAll(max, k, mac, es))
    decreases |es|
  {
    hide Inv, Remembers, Step, Recall, Enabled;
    if es != [] {
      StepInv(max, w, es[0]);
      StepRemembers(max, w, mac, k, es[0]);
      IndexRemembers(max, Step(max, w, es[0]), mac, Recall(max, k, mac, es[0]), es[1..]);
    }
  }

  // ---------------------------------------------------------------- unicast frames

  /** The peers there are, in the order they were added. */
  function Present<P(==), M>(peers: seq<P>, es: seq<Event<P, M>>): seq<P>
    decreases |es|
  {
    if es == [] then peers
    else Present(if es[0].Join? then peers + [es[0].p] else if es[0].Leave? then Without(peers, es[0].p) else peers, es[1..])
  }

  /**
   * After any history, a frame to an address that is no group goes to the peer the address was last
   * seen from, and to no other, unless that peer has gone or at least max_peer_macs other MACs have
   * been seen last from it since then; in that case, and if it was never seen, it goes to all peers.
   */
  lemma UnicastFollowsHistory<P>(max: nat, es: seq<Event<P, M.Mac>>, chains: map<M.Sig, seq<M.Entry<P>>>, dest: M.Mac)
    requires max > 0 && !M.IsMulticast(dest) && dest != D.BROADCAST
    ensures Inv(max, Index<P, M.Mac>.Index(map[], map[]))
    ensures AllEnabled(max, Index(map[], map[]), es) ==>
      var t := D.Tables(Present([], es), Run(max, Index(map[], map[]), es).owner, chains);
      var k, n := RecallAll(max, Unknown, dest, es), LastSeen(es, dest);
      if k.Known? then D.FrameDestinations(t, dest, false) == [k.p] && n > 0 && es[n - 1] == Frame(k.p, dest)
      else D.FrameDestinations(t, dest, false) == Present([], es)
  {
    var w := Index<P, M.Mac>.Index(map[], map[]);
    if AllEnabled(max, w, es) {
      IndexRemembers(max, w, dest, Unknown, es);
      MacsFollowHistory(max, [], w, es);
      assert [] + es == es;
    }
  }
}
