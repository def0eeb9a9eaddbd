/**
 * The multicast half of FrameDecider. An entry in use is known by its peer and its group, as a peer
 * has at most one entry for a group; of the free entries only the number counts.
 *
 * Every method is proved against the functions of MulticastModel. What is kept here besides is
 * which entries are marked as masters, and the timers: `Valid` says that the masters are those in
 * the tree, and that a timer runs for exactly the entries in use.
 */
module FrameDeciderGroups {
  import opened Bytes
  import opened Lists
  import opened MulticastModel

  class Peer {
    var groupEntriesFree: nat
    var groupEntriesUsed: seq<Group>
    var groupsTree: set<Group>

    constructor ()
      ensures groupEntriesFree == 0 && groupEntriesUsed == [] && groupsTree == {}
    {
      groupEntriesFree, groupEntriesUsed, groupsTree := 0, [], {};
    }
  }

  class Decider {
    const maxPeerGroups: nat
    const membershipInterval: nat
    const lastMemberQueryTime: nat
    var multicastTree: map<Sig, Entry<Peer>>
    var sigLists: map<Sig, seq<Entry<Peer>>>
    // the entries whose is_master is set, and when the timers of entries expire
    var masters: set<Entry<Peer>>
    var timers: map<Entry<Peer>, nat>
    ghost var peers: map<Peer, PeerGroups>

    ghost function W(): Index<Peer>
      reads this
    {
      Index(peers, sigLists, multicastTree)
    }

    ghost predicate Tied()
      reads `peers, peers.Keys
    {
      forall p :: p in peers ==>
        && peers[p] == PeerGroups(p.groupEntriesFree, p.groupEntriesUsed)
        && (forall g :: g in p.groupsTree <==> g in p.groupEntriesUsed)
    }

    /** An entry is marked as master exactly if it is in the tree. */
    static ghost predicate MastersOk(masters: set<Entry<Peer>>, tree: map<Sig, Entry<Peer>>) {
      && (forall e :: e in masters ==> SigOfGroup(e.group) in tree && tree[SigOfGroup(e.group)] == e)
      && (forall s :: s in tree ==> tree[s] in masters && SigOfGroup(tree[s].group) == s)
    }

    /** The entries in use have a timer running. */
    static ghost predicate TimersOk(timers: map<Entry<Peer>, nat>, peers: map<Peer, PeerGroups>) {
      && (forall e :: e in timers ==> e.peer in peers && e.group in peers[e.peer].used)
      && (forall p :: p in peers ==> forall g :: g in peers[p].used ==> Entry<Peer>.Entry(p, g) in timers)
    }

    ghost predicate Valid()
      reads this, peers.Keys
    {
      && Tied() && Inv(maxPeerGroups, W()) && MastersOk(masters, multicastTree) && TimersOk(timers, peers)
    }

    constructor (maxPeerGroups: nat, membershipInterval: nat, lastMemberQueryTime: nat)
      requires maxPeerGroups > 0
      ensures Valid() && W() == Index(map[], map[], map[]) && this.maxPeerGroups == maxPeerGroups
    {
      this.maxPeerGroups, this.membershipInterval, this.lastMemberQueryTime := maxPeerGroups, membershipInterval, lastMemberQueryTime;
      multicastTree, sigLists, masters, timers, peers := map[], map[], {}, map[], map[];
    }

    lemma Fields(p: Peer)
      requires Tied() && p in peers
      ensures peers[p] == PeerGroups(p.groupEntriesFree, p.groupEntriesUsed)
      ensures forall g :: g in p.groupsTree <==> g in p.groupEntriesUsed
    {
    }

    method SetGroups(p: Peer, free: nat, used: seq<Group>, tree: set<Group>)
      requires Tied() && p in peers && forall g :: g in tree <==> g in used
      modifies `peers, p
      ensures Tied() && peers == old(peers)[p := PeerGroups(free, used)]
    {
      p.groupEntriesFree, p.groupEntriesUsed, p.groupsTree := free, used, tree;
      peers := peers[p := PeerGroups(free, used)];
    }

    method AddToMulticast(e: Entry<Peer>)
      requires MastersOk(masters, multicastTree) && e !in masters && multicastTree.Keys == sigLists.Keys
      requires forall s :: s in multicastTree ==> s in sigLists && multicastTree[s] in sigLists[s]
      modifies `multicastTree, `sigLists, `masters
      ensures MastersOk(masters, multicastTree)
      ensures W() == MulticastModel.AddToMulticast(old(W()), e)
    {
      var sig := SigOfGroup(e.group);
      if sig in multicastTree {
        var master := multicastTree[sig];
        assert master in masters;
        sigLists := sigLists[sig := InsertAfter(sigLists[sig], master, e)];
      } else {
        masters := masters + {e};
        multicastTree := multicastTree[sig := e];
        sigLists := sigLists[sig := [e]];
      }
    }

    method RemoveFromMulticast(e: Entry<Peer>)
      requires MastersOk(masters, multicastTree)
      requires var s := SigOfGroup(e.group);
        && s in sigLists && s in multicastTree && e in sigLists[s] && NoDup(sigLists[s])
        && (forall o :: o in sigLists[s] ==> SigOfGroup(o.group) == s) && multicastTree[s] in sigLists[s]
      modifies `multicastTree, `sigLists, `masters
      ensures MastersOk(masters, multicastTree) && e !in masters
      ensures W() == MulticastModel.RemoveFromMulticast(old(W()), e)
    {
      hide Without, NoDup, IndexIn;
      var sig := SigOfGroup(e.group);
      if e in masters {
        multicastTree := multicastTree - {sig};
        masters := masters - {e};
        if |sigLists[sig]| > 1 {
          var newmaster := NextOrPrev(sigLists[sig], e);
          assert newmaster !in masters;
          masters := masters + {newmaster};
          multicastTree := multicastTree[sig := newmaster];
        }
      }
      if |sigLists[sig]| == 1 {
        OnlyOne(sigLists[sig], e);
        OnlyOne(sigLists[sig], old(multicastTree)[sig]);
        sigLists := sigLists - {sig};
      } else {
        sigLists := sigLists[sig := Without(sigLists[sig], e)];
      }
      assert W().chains == MulticastModel.RemoveFromMulticast(old(W()), e).chains;
      assert W().master == MulticastModel.RemoveFromMulticast(old(W()), e).master;
    }

    /**
     * remove_group_entry: the entry of a group that expires becomes free. An entry that is about to
     * be used again goes the same way, so that the entry at hand counts as free.
     */
    method RemoveGroupEntry(p: Peer, g: Group)
      requires Valid() && p in peers && g in p.groupEntriesUsed
      modifies this, peers.Keys
      ensures Valid() && Inv(maxPeerGroups, old(W())) && p in old(peers) && g in old(W()).peers[p].used
      ensures W() == Drop(maxPeerGroups, old(W()), p, g) && timers == old(timers) - {Entry(p, g)}
      ensures peers.Keys == old(peers).Keys
    {
      hide Tied, MastersOk, TimersOk, Inv, Without, ChainOk;
      Fields(p);
      EntryFacts(maxPeerGroups, W(), p, g);
      ChainFacts(maxPeerGroups, W(), SigOfGroup(g));
      ChainParts(W(), SigOfGroup(g));
      UsedNoDup(maxPeerGroups, W(), p);
      WithoutMembers(p.groupEntriesUsed, g);
      DropInv(maxPeerGroups, W(), p, g);
      DroppedTimers(maxPeerGroups, timers, W(), p, g);
      RemoveFromMulticast(Entry(p, g));
      SetGroups(p, p.groupEntriesFree + 1, Without(p.groupEntriesUsed, g), p.groupsTree - {g});
      timers := timers - {Entry(p, g)};
    }

    method AddGroupToPeer(p: Peer, g: Group, now: nat)
      requires Valid() && p in peers
      modifies this, peers.Keys
      ensures Valid() && Inv(maxPeerGroups, old(W())) && p in old(peers)
      ensures W() == AddGroup(maxPeerGroups, old(W()), p, g)
      ensures Entry(p, g) in timers && timers[Entry(p, g)] == now + membershipInterval
    {
      hide Tied, MastersOk, TimersOk, Inv, Without, ChainOk, Drop;
      Fields(p);
      AddGroupInv(maxPeerGroups, W(), p, g);
      if g in p.groupsTree {
        UsedNoDup(maxPeerGroups, W(), p);
        WithoutMembers(p.groupEntriesUsed, g);
        SeenAgainTimers(timers, peers, p, g, now + membershipInterval);
        SetGroups(p, p.groupEntriesFree, Without(p.groupEntriesUsed, g) + [g], p.groupsTree);
        timers := timers[Entry(p, g) := now + membershipInterval];
      } else {
        RoomForGroup(maxPeerGroups, W(), p, g);
        if p.groupEntriesFree == 0 {
          RemoveGroupEntry(p, p.groupEntriesUsed[0]);
        }
        UseFreeEntry(p, g, now);
      }
    }

    method UseFreeEntry(p: Peer, g: Group, now: nat)
      requires Valid() && p in peers && peers[p].free > 0 && g !in peers[p].used
      modifies this, peers.Keys
      ensures Valid() && p in old(peers)
      ensures SigOfGroup(g) in old(W()).master ==>
        SigOfGroup(g) in old(W()).chains && old(W()).master[SigOfGroup(g)] in old(W()).chains[SigOfGroup(g)]
      ensures W() == Take(old(W()), p, g) && timers == old(timers)[Entry(p, g) := now + membershipInterval]
    {
      hide Tied, TimersOk, ChainOk, PeerOk;
      Fields(p);
      TakeInv(maxPeerGroups, W(), p, g);
      MasterFacts(maxPeerGroups, masters, W(), Entry(p, g));
      TakenTimers(timers, peers, p, g, now + membershipInterval);
      SetGroups(p, p.groupEntriesFree - 1, p.groupEntriesUsed + [g], p.groupsTree + {g});
      AddToMulticast(Entry(p, g));
      timers := timers[Entry(p, g) := now + membershipInterval];
    }

    /** lower_group_timers_to_lmqt */
    method LowerGroupTimers(group: Group, now: nat)
      requires Valid()
      modifies `timers
      ensures Valid() && timers.Keys == old(timers).Keys
      ensures forall e :: e in timers ==>
        timers[e] == if e.group == group then Min(old(timers)[e], now + lastMemberQueryTime) else old(timers)[e]
    {
      hide Tied, MastersOk, TimersOk, Inv, NoDup;
      var sig := SigOfGroup(group);
      MastersAreChains(maxPeerGroups, W());
      if sig !in multicastTree {
        NobodyHas(maxPeerGroups, W(), timers, group);
        return;
      }
      ChainFacts(maxPeerGroups, W(), sig);
      GroupIsInChain(maxPeerGroups, W(), timers, group);
      ChainHasTimers(W(), timers, sig);
      var i := 0;
      while i < |sigLists[sig]|
        invariant 0 <= i <= |sigLists[sig]| && timers.Keys == old(timers).Keys
        invariant forall e :: e in timers ==>
          timers[e] == if e.group == group && e in sigLists[sig][..i] then Min(old(timers)[e], now + lastMemberQueryTime)
                       else old(timers)[e]
      {
        var e := sigLists[sig][i];
        if e.group == group && timers[e] > now + lastMemberQueryTime {
          timers := timers[e := now + lastMemberQueryTime];
        }
        i := i + 1;
      }
      assert sigLists[sig][..i] == sigLists[sig];
      TimersSame(old(timers), timers, peers);
    }

    /** The group part of FrameDeciderPeer_Init */
    method PeerInit(p: Peer)
      requires Valid() && p !in peers
      modifies `peers, p
      ensures Valid() && W() == AddPeer(maxPeerGroups, old(W()), p)
    {
      hide MastersOk, Inv, PeerOk;
      PeerInv(maxPeerGroups, W(), p);
      p.groupEntriesFree, p.groupEntriesUsed, p.groupsTree := maxPeerGroups, [], {};
      peers := peers[p := PeerGroups(maxPeerGroups, [])];
    }

    /** The group part of FrameDeciderPeer_Free */
    method PeerFree(p: Peer)
      requires Valid() && p in peers
      modifies this, peers.Keys
      ensures Valid() && Inv(maxPeerGroups, old(W())) && p in old(peers)
      ensures W() == RemovePeer(maxPeerGroups, old(W()), p)
    {
      hide Tied, MastersOk, Inv, Drop;
      Fields(p);
      while p.groupEntriesUsed != []
        invariant Valid() && p in peers && p.groupEntriesUsed == peers[p].used && peers.Keys == old(peers).Keys
        invariant DropAll(maxPeerGroups, W(), p) == DropAll(maxPeerGroups, old(W()), p)
        decreases |p.groupEntriesUsed|
      {
        WithoutLength(peers[p].used, peers[p].used[0]);
        DropShorter(maxPeerGroups, W(), p, peers[p].used[0]);
        RemoveGroupEntry(p, p.groupEntriesUsed[0]);
        Fields(p);
      }
      GoneInv(maxPeerGroups, W(), p);
      GoneTimers(timers, peers, p);
      Forget(p);
    }

    ghost method Forget(p: Peer)
      requires Tied()
      modifies `peers
      ensures Tied() && peers == old(peers) - {p}
    {
      peers := peers - {p};
    }
  }

  lemma ChainParts<P>(w: Index<P>, s: Sig)
    requires s in w.chains && ChainOk(w, s)
    ensures s in w.master && w.master[s] in w.chains[s] && forall o :: o in w.chains[s] ==> SigOfGroup(o.group) == s
  {
  }

  lemma DroppedTimers(max: nat, timers: map<Entry<Peer>, nat>, w: Index<Peer>, p: Peer, g: Group)
    requires Inv(max, w) && p in w.peers && g in w.peers[p].used && Decider.TimersOk(timers, w.peers)
    ensures Decider.TimersOk(timers - {Entry(p, g)}, Drop(max, w, p, g).peers)
  {
    hide Without, Inv, NoDup;
    UsedNoDup(max, w, p);
    WithoutMembers(w.peers[p].used, g);
  }

  lemma SeenAgainTimers(timers: map<Entry<Peer>, nat>, peers: map<Peer, PeerGroups>, p: Peer, g: Group, t: nat)
    requires Decider.TimersOk(timers, peers) && p in peers && g in peers[p].used && NoDup(peers[p].used)
    ensures Decider.TimersOk(timers[Entry(p, g) := t], peers[p := PeerGroups(peers[p].free, Without(peers[p].used, g) + [g])])
  {
    hide Without, NoDup;
    WithoutMembers(peers[p].used, g);
  }

  lemma TakenTimers(timers: map<Entry<Peer>, nat>, peers: map<Peer, PeerGroups>, p: Peer, g: Group, t: nat)
    requires Decider.TimersOk(timers, peers) && p in peers && peers[p].free > 0
    ensures Decider.TimersOk(timers[Entry(p, g) := t], peers[p := PeerGroups(peers[p].free - 1, peers[p].used + [g])])
  {
  }

  lemma GoneTimers(timers: map<Entry<Peer>, nat>, peers: map<Peer, PeerGroups>, p: Peer)
    requires Decider.TimersOk(timers, peers) && p in peers && peers[p].used == []
    ensures Decider.TimersOk(timers, peers - {p})
  {
  }

  lemma TimersSame(was: map<Entry<Peer>, nat>, timers: map<Entry<Peer>, nat>, peers: map<Peer, PeerGroups>)
    requires Decider.TimersOk(was, peers) && timers.Keys == was.Keys
    ensures Decider.TimersOk(timers, peers)
  {
    assert forall e :: e in timers.Keys <==> e in was.Keys;
  }

  /** An entry that is not in use is no master. */
  lemma MasterFacts(max: nat, masters: set<Entry<Peer>>, w: Index<Peer>, e: Entry<Peer>)
    requires Inv(max, w) && Decider.MastersOk(masters, w.master) && e.peer in w.peers && e.group !in w.peers[e.peer].used
    ensures e !in masters && w.master.Keys == w.chains.Keys
    ensures forall s :: s in w.master ==> s in w.chains && w.master[s] in w.chains[s]
  {
    MastersAreChains(max, w);
    forall s | s in w.master ensures s in w.chains && w.master[s] in w.chains[s] {
      assert ChainOk(w, s);
    }
    if e in masters {
      NotInChain(max, w, e.peer, e.group, SigOfGroup(e.group));
    }
  }

  lemma NobodyHas(max: nat, w: Index<Peer>, timers: map<Entry<Peer>, nat>, group: Group)
    requires Inv(max, w) && Decider.TimersOk(timers, w.peers) && SigOfGroup(group) !in w.master
    ensures forall e :: e in timers ==> e.group != group
  {
    forall e | e in timers ensures e.group != group {
      EntryFacts(max, w, e.peer, e.group);
    }
  }

  lemma GroupIsInChain(max: nat, w: Index<Peer>, timers: map<Entry<Peer>, nat>, group: Group)
    requires Inv(max, w) && Decider.TimersOk(timers, w.peers) && SigOfGroup(group) in w.chains
    ensures forall e :: e in timers && e.group == group ==> e in w.chains[SigOfGroup(group)]
  {
    forall e | e in timers && e.group == group ensures e in w.chains[SigOfGroup(group)] {
      EntryFacts(max, w, e.peer, e.group);
    }
  }

  lemma ChainHasTimers(w: Index<Peer>, timers: map<Entry<Peer>, nat>, s: Sig)
    requires s in w.chains && ChainOk(w, s) && Decider.TimersOk(timers, w.peers)
    ensures forall e :: e in w.chains[s] ==> e in timers
  {
  }

  lemma DropShorter(max: nat, w: Index<Peer>, p: Peer, g: Group)
    requires Inv(max, w) && p in w.peers && g in w.peers[p].used
    ensures var r := Drop(max, w, p, g);
      Inv(max, r) && p in r.peers && |r.peers[p].used| < |w.peers[p].used| && r.peers.Keys == w.peers.Keys
  {
    DropInv(max, w, p, g);
    WithoutLength(w.peers[p].used, g);
  }

  lemma OnlyOne<T>(s: seq<T>, x: T)
    requires |s| == 1 && x in s
    ensures s == [x]
  {
  }
}
