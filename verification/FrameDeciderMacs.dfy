/**
 * The MAC half of FrameDecider: each peer has an array of entries, a list of the free and a list of
 * the used ones, and one tree finds the entry of an address.
 *
 * Every method is proved against the functions of MacIndexModel, which know nothing of entries:
 * `View` is what they see of the entries of a peer, and `Valid` says that the tree finds the entry
 * of each address that has an owner.
 */
module FrameDeciderMacs {
  import opened Lists
  import M = MacIndexModel
  import opened MulticastModel

  /** The entries of a peer; lists are lists of places in the array. */
  datatype Slots = Slots(macs: seq<Mac>, free: seq<nat>, used: seq<nat>)

  /** The lists hold every entry once. */
  ghost predicate Partition(max: nat, s: Slots) {
    && |s.macs| == max && |s.free| + |s.used| == max && NoDup(s.free + s.used)
    && (forall i :: 0 <= i < |s.free| ==> s.free[i] < max) && (forall i :: 0 <= i < |s.used| ==> s.used[i] < max)
  }

  function MacsAt(macs: seq<Mac>, used: seq<nat>): (r: seq<Mac>)
    requires forall i :: 0 <= i < |used| ==> used[i] < |macs|
    ensures |r| == |used| && forall i :: 0 <= i < |r| ==> r[i] == macs[used[i]]
  {
    seq(|used|, i requires 0 <= i < |used| => macs[used[i]])
  }

  function View(s: Slots): M.PeerMacs<Mac>
    requires forall i :: 0 <= i < |s.used| ==> s.used[i] < |s.macs|
  {
    M.PeerMacs(|s.free|, MacsAt(s.macs, s.used))
  }

  /** The entry of a MAC goes to the end of the used list. */
  function SeenAgain(s: Slots, slot: nat): Slots {
    s.(used := Without(s.used, slot) + [slot])
  }

  function Release(s: Slots, slot: nat): Slots {
    s.(used := Without(s.used, slot), free := s.free + [slot])
  }

  /** The first free entry, or the first used one if there is none, gets the MAC. */
  function Acquire(s: Slots, mac: Mac): Slots
    requires s.free == [] ==> s.used != []
    requires (if s.free != [] then s.free[0] else s.used[0]) < |s.macs|
  {
    var slot := if s.free != [] then s.free[0] else s.used[0];
    if s.free != [] then Slots(s.macs[slot := mac], s.free[1..], s.used + [slot])
    else Slots(s.macs[slot := mac], s.free, s.used[1..] + [slot])
  }

  lemma PartitionFacts(max: nat, s: Slots)
    requires Partition(max, s)
    ensures NoDup(s.free) && NoDup(s.used) && forall x :: x in s.free ==> x !in s.used
  {
    var all := s.free + s.used;
    forall i, j | 0 <= i < j < |s.used| ensures s.used[i] != s.used[j] {
      assert all[|s.free| + i] == s.used[i] && all[|s.free| + j] == s.used[j];
    }
    forall i, j | 0 <= i < |s.free| && 0 <= j < |s.used| ensures s.free[i] != s.used[j] {
      assert all[i] == s.free[i] && all[|s.free| + j] == s.used[j];
    }
    forall i, j | 0 <= i < j < |s.free| ensures s.free[i] != s.free[j] {
      assert all[i] == s.free[i] && all[j] == s.free[j];
    }
  }

  lemma IsPartition(max: nat, s: Slots)
    requires |s.macs| == max && |s.free| + |s.used| == max && NoDup(s.free) && NoDup(s.used)
    requires forall x :: x in s.free ==> x !in s.used && x < max
    requires forall x :: x in s.used ==> x < max
    ensures Partition(max, s)
  {
    var all := s.free + s.used;
    assert forall i :: 0 <= i < |s.free| ==> s.free[i] in s.free;
    assert forall i :: 0 <= i < |s.used| ==> s.used[i] in s.used;
    forall i, j | 0 <= i < j < |all| ensures all[i] != all[j] {
      if i < |s.free| {
        assert all[i] in s.free;
        if j >= |s.free| { assert all[j] in s.used; }
      }
    }
  }

  /** Removing an entry from the used list removes its MAC from the MACs used. */
  lemma WithoutSlot(macs: seq<Mac>, used: seq<nat>, slot: nat)
    requires forall i :: 0 <= i < |used| ==> used[i] < |macs|
    requires slot in used && slot < |macs| && NoDup(used) && NoDup(MacsAt(macs, used))
    ensures var r := Without<nat>(used, slot);
      && (forall x :: x in r <==> x in used && x != slot)
      && |r| == |used| - 1 && NoDup(r) && (forall i :: 0 <= i < |r| ==> r[i] < |macs|)
      && MacsAt(macs, r) == Without(MacsAt(macs, used), macs[slot])
  {
    hide Without;
    var i :| 0 <= i < |used| && used[i] == slot;
    WithoutMembers<nat>(used, slot);
    WithoutLength<nat>(used, slot);
    WithoutIsSlices<nat>(used, slot, i);
    WithoutIsSlices(MacsAt(macs, used), macs[slot], i);
    MacsOfSlices(macs, used, i);
  }

  lemma MacsOfSlices(macs: seq<Mac>, used: seq<nat>, i: nat)
    requires i < |used| && forall j :: 0 <= j < |used| ==> used[j] < |macs|
    ensures var r := used[..i] + used[i + 1..];
      && (forall j :: 0 <= j < |r| ==> r[j] < |macs|)
      && MacsAt(macs, r) == MacsAt(macs, used)[..i] + MacsAt(macs, used)[i + 1..]
  {
  }

  lemma SeenAgainView(max: nat, s: Slots, slot: nat)
    requires Partition(max, s) && slot in s.used && NoDup(View(s).used)
    ensures Partition(max, SeenAgain(s, slot))
    ensures View(SeenAgain(s, slot)) == View(s).(used := Without(View(s).used, s.macs[slot]) + [s.macs[slot]])
  {
    hide NoDup, Without, Partition;
    PartitionBounds(max, s);
    PartitionFacts(max, s);
    WithoutSlot(s.macs, s.used, slot);
    AppendNoDup(Without(s.used, slot), slot);
    IsPartition(max, SeenAgain(s, slot));
    PartitionBounds(max, SeenAgain(s, slot));
  }

  lemma PartitionBounds(max: nat, s: Slots)
    requires Partition(max, s)
    ensures |s.macs| == max && |s.free| + |s.used| == max
    ensures (forall i :: 0 <= i < |s.free| ==> s.free[i] < max) && (forall i :: 0 <= i < |s.used| ==> s.used[i] < max)
  {
  }

  lemma ReleaseView(max: nat, s: Slots, slot: nat)
    requires Partition(max, s) && slot in s.used && NoDup(View(s).used)
    ensures Partition(max, Release(s, slot))
    ensures View(Release(s, slot)) == M.PeerMacs(|s.free| + 1, Without(View(s).used, s.macs[slot]))
  {
    hide NoDup, Without, Partition;
    PartitionBounds(max, s);
    PartitionFacts(max, s);
    WithoutSlot(s.macs, s.used, slot);
    assert slot !in s.free;
    AppendNoDup(s.free, slot);
    IsPartition(max, Release(s, slot));
    PartitionBounds(max, Release(s, slot));
  }

  lemma AcquireView(max: nat, s: Slots, mac: Mac)
    requires Partition(max, s) && max > 0
    ensures s.free == [] ==> s.used != []
    ensures Partition(max, Acquire(s, mac))
    ensures View(Acquire(s, mac)) ==
      if s.free != [] then M.PeerMacs(|s.free| - 1, View(s).used + [mac]) else M.PeerMacs(0, View(s).used[1..] + [mac])
  {
    hide NoDup, Partition;
    PartitionBounds(max, s);
    PartitionFacts(max, s);
    var r := Acquire(s, mac);
    var slot := if s.free != [] then s.free[0] else s.used[0];
    if s.free != [] {
      HeadGone(s.free);
      assert slot in s.free;
      AppendNoDup(s.used, slot);
    } else {
      HeadGone(s.used);
      AppendNoDup(s.used[1..], slot);
    }
    IsPartition(max, r);
    PartitionBounds(max, r);
    forall i | 0 <= i < |r.used| - 1 ensures r.used[i] != slot {
      assert s.free != [] ==> r.used[i] in s.used;
      assert s.free == [] ==> r.used[i] in s.used[1..];
    }
  }

  // ---------------------------------------------------------------- the objects

  class Peer {
    var macs: seq<Mac>
    var free: seq<nat>
    var used: seq<nat>

    constructor ()
      ensures macs == [] && free == [] && used == []
    {
      macs, free, used := [], [], [];
    }
  }

  /** An entry in the tree: a place in the array of a peer. */
  datatype Place = Place(peer: Peer, slot: nat)

  class Decider {
    const maxPeerMacs: nat
    var macsTree: map<Mac, Place>
    // the state as a value, and the entries of all peers
    ghost var index: M.Index<Peer, Mac>
    ghost var slots: map<Peer, Slots>

    ghost predicate PeersTied()
      reads `slots, slots.Keys
    {
      forall p :: p in slots ==> slots[p] == Slots(p.macs, p.free, p.used)
    }

    /** The tree finds the entry of each MAC. */
    static ghost predicate TreeOk(max: nat, tree: map<Mac, Place>, slots: map<Peer, Slots>, index: M.Index<Peer, Mac>) {
      && tree.Keys == index.owner.Keys
      && forall m :: m in tree ==> PlaceOk(tree[m], m, slots, index)
    }

    static ghost predicate PlaceOk(at: Place, m: Mac, slots: map<Peer, Slots>, index: M.Index<Peer, Mac>) {
      && m in index.owner && index.owner[m] == at.peer && at.peer in slots
      && at.slot in slots[at.peer].used && at.slot < |slots[at.peer].macs| && slots[at.peer].macs[at.slot] == m
    }

    static ghost predicate SlotsOk(max: nat, slots: map<Peer, Slots>, index: M.Index<Peer, Mac>) {
      && slots.Keys == index.peers.Keys
      && forall p :: p in slots ==> Partition(max, slots[p]) && index.peers[p] == View(slots[p])
    }

    ghost predicate Valid()
      reads this, slots.Keys
    {
      && PeersTied() && SlotsOk(maxPeerMacs, slots, index) && TreeOk(maxPeerMacs, macsTree, slots, index)
      && M.Inv(maxPeerMacs, index)
    }

    constructor (maxPeerMacs: nat)
      requires maxPeerMacs > 0
      ensures Valid() && this.maxPeerMacs == maxPeerMacs && index == M.Index(map[], map[])
    {
      this.maxPeerMacs := maxPeerMacs;
      macsTree := map[];
      index := M.Index(map[], map[]);
      slots := map[];
    }

    lemma Fields(p: Peer)
      requires PeersTied() && p in slots
      ensures slots[p] == Slots(p.macs, p.free, p.used)
    {
    }

    method SetSlots(p: Peer, macs: seq<Mac>, free: seq<nat>, used: seq<nat>)
      requires PeersTied() && p in slots
      modifies `slots, p
      ensures PeersTied() && slots == old(slots)[p := Slots(macs, free, used)]
    {
      p.macs, p.free, p.used := macs, free, used;
      slots := slots[p := Slots(macs, free, used)];
    }

    method AddMacToPeer(o: Peer, mac: Mac)
      requires Valid() && o in slots
      modifies this, slots.Keys
      ensures Valid() && M.Inv(maxPeerMacs, old(index)) && o in old(index).peers
      ensures index == M.Learn(maxPeerMacs, old(index), o, mac)
    {
      hide PeersTied, SlotsOk, TreeOk, M.Inv;
      PeerFacts(maxPeerMacs, slots, index, o);
      TreeFacts(maxPeerMacs, macsTree, slots, index, mac);
      M.LearnInv(maxPeerMacs, index, o, mac);
      if mac in macsTree {
        var entry := macsTree[mac];
        if entry.peer == o {
          SeeAgain(o, entry.slot, mac);
          return;
        }
        Disassociate(entry, mac);
      }
      AcquireEntry(o, mac);
    }

    /** This is our MAC; only move it to the end of the used list. */
    method SeeAgain(o: Peer, slot: nat, mac: Mac)
      requires Valid() && mac in macsTree && macsTree[mac] == Place(o, slot)
      modifies this, slots.Keys
      ensures Valid() && M.Inv(maxPeerMacs, old(index)) && o in old(index).peers
      ensures index == M.Learn(maxPeerMacs, old(index), o, mac)
    {
      hide PeersTied, SlotsOk, TreeOk, M.Inv, Without, Partition;
      TreeFacts(maxPeerMacs, macsTree, slots, index, mac);
      PeerFacts(maxPeerMacs, slots, index, o);
      Fields(o);
      M.LearnInv(maxPeerMacs, index, o, mac);
      SeenAgainView(maxPeerMacs, slots[o], slot);
      ghost var was := slots;
      SetSlots(o, o.macs, o.free, Without(o.used, slot) + [slot]);
      ghost var r := M.Learn(maxPeerMacs, index, o, mac);
      SlotsChanged(maxPeerMacs, was, index, o, slots[o], r);
      SeenAgainTree(maxPeerMacs, macsTree, was, index, o, slot, r);
      index := r;
    }

    /** Some other peer has that MAC; disassociate it. */
    method Disassociate(entry: Place, mac: Mac)
      requires Valid() && mac in macsTree && macsTree[mac] == entry
      modifies `macsTree, `index, `slots, slots.Keys
      ensures Valid() && mac in old(index).owner && old(index).owner[mac] in old(index).peers
      ensures index == M.TakeAway(old(index), mac) && slots.Keys == old(slots).Keys && mac !in macsTree
    {
      hide PeersTied, SlotsOk, TreeOk, M.Inv, Without, Partition;
      TreeFacts(maxPeerMacs, macsTree, slots, index, mac);
      var q, slot := entry.peer, entry.slot;
      PeerFacts(maxPeerMacs, slots, index, q);
      Fields(q);
      M.TakeAwayInv(maxPeerMacs, index, mac);
      ReleaseView(maxPeerMacs, slots[q], slot);
      ghost var was := slots;
      macsTree := macsTree - {mac};
      SetSlots(q, q.macs, q.free + [slot], Without(q.used, slot));
      ghost var r := M.TakeAway(index, mac);
      SlotsChanged(maxPeerMacs, was, index, q, slots[q], r);
      PartitionFacts(maxPeerMacs, was[q]);
      ReleaseTree(maxPeerMacs, old(macsTree), was, index, mac, r);
      index := r;
    }

    /** The first free entry gets the MAC, or if there is none the entry used longest ago. */
    method AcquireEntry(o: Peer, mac: Mac)
      requires Valid() && o in slots && mac !in macsTree
      modifies `macsTree, `index, `slots, slots.Keys
      ensures Valid() && o in old(index).peers && (old(index).peers[o].free == 0 ==> old(index).peers[o].used != [])
      ensures index == M.Append(M.MakeRoom(old(index), o), o, mac)
    {
      hide PeersTied, SlotsOk, TreeOk, M.Inv, Partition;
      PeerFacts(maxPeerMacs, slots, index, o);
      TreeFacts(maxPeerMacs, macsTree, slots, index, mac);
      Fields(o);
      PartitionBounds(maxPeerMacs, slots[o]);
      M.RoomFacts(maxPeerMacs, index, o, mac);
      M.MakeRoomAppendInv(maxPeerMacs, index, o, mac);
      AcquireView(maxPeerMacs, slots[o], mac);
      ghost var was := slots;
      var slot, tree := 0, macsTree;
      if o.free != [] {
        slot := o.free[0];
        SetSlots(o, o.macs[slot := mac], o.free[1..], o.used + [slot]);
      } else {
        slot := o.used[0];
        tree := tree - {o.macs[slot]};
        SetSlots(o, o.macs[slot := mac], o.free, o.used[1..] + [slot]);
      }
      ghost var r := M.Append(M.MakeRoom(index, o), o, mac);
      SlotsChanged(maxPeerMacs, was, index, o, slots[o], r);
      PartitionFacts(maxPeerMacs, was[o]);
      AcquireTree(maxPeerMacs, macsTree, was, index, o, mac, r);
      macsTree := tree[mac := Place(o, slot)];
      index := r;
    }

    /** The MAC part of FrameDeciderPeer_Init */
    method PeerInit(o: Peer)
      requires Valid() && o !in slots
      modifies `index, `slots, o
      ensures Valid() && index == M.AddPeer(maxPeerMacs, old(index), o)
    {
      hide SlotsOk, TreeOk, M.Inv;
      var free, i := [], 0;
      while i < maxPeerMacs
        invariant 0 <= i <= maxPeerMacs && |free| == i && forall k :: 0 <= k < i ==> free[k] == k
      {
        free := free + [i];
        i := i + 1;
      }
      o.macs, o.free, o.used := seq(maxPeerMacs, i => Mac(0, 0, 0, 0, 0, 0)), free, [];
      M.PeerInv(maxPeerMacs, index, o);
      SlotKeys(maxPeerMacs, slots, index);
      ghost var st := Slots(o.macs, o.free, o.used);
      IsPartition(maxPeerMacs, st);
      PeerAdded(maxPeerMacs, macsTree, slots, index, o, st);
      slots := slots[o := st];
      index := M.AddPeer(maxPeerMacs, index, o);
    }

    /** The MAC part of FrameDeciderPeer_Free */
    method PeerFree(o: Peer)
      requires Valid() && o in slots
      modifies `macsTree, `index, `slots
      ensures Valid() && o in old(index).peers && index == M.RemovePeer(old(index), o)
    {
      hide SlotsOk, TreeOk, M.Inv, Partition;
      PeerFacts(maxPeerMacs, slots, index, o);
      Fields(o);
      PartitionBounds(maxPeerMacs, slots[o]);
      M.PeerInv(maxPeerMacs, index, o);
      var i, tree := 0, macsTree;
      while i < |o.used|
        invariant 0 <= i <= |o.used|
        invariant tree == map m | m in macsTree && m !in View(slots[o]).used[..i] :: macsTree[m]
      {
        tree := tree - {o.macs[o.used[i]]};
        i := i + 1;
      }
      PeerRemoved(maxPeerMacs, macsTree, slots, index, o);
      assert View(slots[o]).used[..i] == View(slots[o]).used;
      macsTree := tree;
      slots := slots - {o};
      index := M.RemovePeer(index, o);
    }
  }

  lemma ReleaseTree(max: nat, tree: map<Mac, Place>, slots: map<Peer, Slots>, index: M.Index<Peer, Mac>, mac: Mac, r: M.Index<Peer, Mac>)
    requires Decider.TreeOk(max, tree, slots, index) && mac in tree && tree[mac].peer in slots && NoDup(slots[tree[mac].peer].used)
    requires r.owner == index.owner - {mac} && tree[mac].slot < |slots[tree[mac].peer].macs| && slots[tree[mac].peer].macs[tree[mac].slot] == mac
    ensures var q := tree[mac].peer;
      Decider.TreeOk(max, tree - {mac}, slots[q := Release(slots[q], tree[mac].slot)], r)
  {
    hide Without, NoDup;
    WithoutMembers<nat>(slots[tree[mac].peer].used, tree[mac].slot);
  }

  lemma AcquireTree(max: nat, tree: map<Mac, Place>, slots: map<Peer, Slots>, index: M.Index<Peer, Mac>, p: Peer, mac: Mac,
                    r: M.Index<Peer, Mac>)
    requires Decider.TreeOk(max, tree, slots, index) && mac !in tree && p in slots && p in index.peers
    requires Partition(max, slots[p]) && NoDup(slots[p].used) && (forall x :: x in slots[p].free ==> x !in slots[p].used)
    requires slots[p].free == [] ==> slots[p].used != []
    requires index.peers[p] == View(slots[p]) && r == M.Append(M.MakeRoom(index, p), p, mac)
    requires forall i :: 0 <= i < |slots[p].free| ==> slots[p].free[i] < |slots[p].macs|
    ensures var st := slots[p]; var slot := if st.free != [] then st.free[0] else st.used[0];
      var left := if st.free != [] then tree else tree - {st.macs[slot]};
      Decider.TreeOk(max, left[mac := Place(p, slot)], slots[p := Acquire(st, mac)], r)
  {
    hide NoDup, Partition, Decider.PlaceOk;
    PartitionBounds(max, slots[p]);
    var st := slots[p];
    var slot := if st.free != [] then st.free[0] else st.used[0];
    var left := if st.free != [] then tree else tree - {st.macs[slot]};
    assert st.free == [] ==> View(st).used[0] == st.macs[slot];
    assert forall m :: m in tree <==> m in index.owner by { assert tree.Keys == index.owner.Keys; }
    assert left[mac := Place(p, slot)].Keys == r.owner.Keys;
    forall m | m in left && m != mac ensures Decider.PlaceOk(left[m], m, slots[p := Acquire(st, mac)], r) {
      AcquireKeeps(tree[m], m, slots, index, p, mac, r);
    }
    AcquirePlace(slots, p, slot, mac, r);
  }

  lemma AcquirePlace(slots: map<Peer, Slots>, p: Peer, slot: nat, mac: Mac, r: M.Index<Peer, Mac>)
    requires p in slots && (slots[p].free == [] ==> slots[p].used != [])
    requires slot == (if slots[p].free != [] then slots[p].free[0] else slots[p].used[0]) && slot < |slots[p].macs|
    requires mac in r.owner && r.owner[mac] == p
    ensures Decider.PlaceOk(Place(p, slot), mac, slots[p := Acquire(slots[p], mac)], r)
  {
    var u := Acquire(slots[p], mac).used;
    assert u[|u| - 1] == slot;
  }

  lemma AcquireKeeps(at: Place, m: Mac, slots: map<Peer, Slots>, index: M.Index<Peer, Mac>, p: Peer, mac: Mac, r: M.Index<Peer, Mac>)
    requires Decider.PlaceOk(at, m, slots, index) && p in slots && m != mac
    requires slots[p].free == [] ==> slots[p].used != []
    requires var slot := if slots[p].free != [] then slots[p].free[0] else slots[p].used[0];
      slot < |slots[p].macs| && (slots[p].free == [] ==> m != slots[p].macs[slot])
    requires forall x :: x in slots[p].free ==> x !in slots[p].used
    requires m in r.owner && r.owner[m] == index.owner[m]
    ensures Decider.PlaceOk(at, m, slots[p := Acquire(slots[p], mac)], r)
  {
    var st := slots[p];
    if at.peer == p {
      if st.free != [] {
        assert st.free[0] in st.free;
      } else {
        assert st.used == [st.used[0]] + st.used[1..];
      }
    }
  }

  lemma PeerAdded(max: nat, tree: map<Mac, Place>, slots: map<Peer, Slots>, index: M.Index<Peer, Mac>, p: Peer, st: Slots)
    requires Decider.SlotsOk(max, slots, index) && Decider.TreeOk(max, tree, slots, index) && p !in slots
    requires Partition(max, st) && View(st) == M.PeerMacs(max, [])
    ensures Decider.SlotsOk(max, slots[p := st], M.AddPeer(max, index, p))
    ensures Decider.TreeOk(max, tree, slots[p := st], M.AddPeer(max, index, p))
  {
    hide Partition, View;
    assert slots[p := st].Keys == M.AddPeer(max, index, p).peers.Keys;
  }

  lemma PlaceSurvives(at: Place, m: Mac, slots: map<Peer, Slots>, index: M.Index<Peer, Mac>, p: Peer, r: M.Index<Peer, Mac>)
    requires Decider.PlaceOk(at, m, slots, index) && p in slots
    requires forall i :: 0 <= i < |slots[p].used| ==> slots[p].used[i] < |slots[p].macs|
    requires m !in View(slots[p]).used && m in r.owner && r.owner[m] == index.owner[m]
    ensures Decider.PlaceOk(at, m, slots - {p}, r)
  {
    forall i | 0 <= i < |slots[p].used| ensures slots[p].macs[slots[p].used[i]] != m {
      assert View(slots[p]).used[i] != m;
    }
  }

  lemma PeerRemoved(max: nat, tree: map<Mac, Place>, slots: map<Peer, Slots>, index: M.Index<Peer, Mac>, p: Peer)
    requires Decider.SlotsOk(max, slots, index) && Decider.TreeOk(max, tree, slots, index) && p in slots
    requires p in index.peers && Partition(max, slots[p]) && index.peers[p] == View(slots[p])
    ensures var left := map m | m in tree && m !in View(slots[p]).used :: tree[m];
      && Decider.SlotsOk(max, slots - {p}, M.RemovePeer(index, p))
      && Decider.TreeOk(max, left, slots - {p}, M.RemovePeer(index, p))
  {
    hide NoDup, Partition, View, Decider.PlaceOk;
    PartitionBounds(max, slots[p]);
    var left := map m | m in tree && m !in View(slots[p]).used :: tree[m];
    var r := M.RemovePeer(index, p);
    assert (slots - {p}).Keys == r.peers.Keys;
    assert forall m :: m in tree <==> m in index.owner by { assert tree.Keys == index.owner.Keys; }
    assert left.Keys == r.owner.Keys;
    forall m | m in left ensures Decider.PlaceOk(left[m], m, slots - {p}, r) {
      PlaceSurvives(tree[m], m, slots, index, p, r);
    }
  }

  lemma PeerFacts(max: nat, slots: map<Peer, Slots>, index: M.Index<Peer, Mac>, p: Peer)
    requires Decider.SlotsOk(max, slots, index) && M.Inv(max, index) && p in slots
    ensures p in index.peers && Partition(max, slots[p]) && index.peers[p] == View(slots[p]) && NoDup(View(slots[p]).used)
  {
    assert p in slots.Keys;
    assert M.PeerOk(max, index, p);
  }

  lemma SlotKeys(max: nat, slots: map<Peer, Slots>, index: M.Index<Peer, Mac>)
    requires Decider.SlotsOk(max, slots, index)
    ensures forall p :: p in slots <==> p in index.peers
  {
    assert forall p :: p in slots.Keys <==> p in index.peers.Keys;
  }

  lemma TreeFacts(max: nat, tree: map<Mac, Place>, slots: map<Peer, Slots>, index: M.Index<Peer, Mac>, m: Mac)
    requires Decider.TreeOk(max, tree, slots, index)
    ensures m in tree <==> m in index.owner
    ensures m in tree ==> Decider.PlaceOk(tree[m], m, slots, index)
  {
    assert m in tree.Keys <==> m in index.owner.Keys;
  }

  lemma SlotsChanged(max: nat, slots: map<Peer, Slots>, index: M.Index<Peer, Mac>, p: Peer, st: Slots, r: M.Index<Peer, Mac>)
    requires Decider.SlotsOk(max, slots, index) && p in slots && p in index.peers
    requires Partition(max, st) && r.peers == index.peers[p := View(st)]
    ensures Decider.SlotsOk(max, slots[p := st], r)
  {
    hide Partition, View;
    assert slots[p := st].Keys == r.peers.Keys;
  }

  lemma SeenAgainTree(max: nat, tree: map<Mac, Place>, slots: map<Peer, Slots>, index: M.Index<Peer, Mac>, p: Peer, slot: nat,
                      r: M.Index<Peer, Mac>)
    requires Decider.TreeOk(max, tree, slots, index) && p in slots && r.owner == index.owner && slot in slots[p].used
    requires NoDup(slots[p].used)
    ensures Decider.TreeOk(max, tree, slots[p := SeenAgain(slots[p], slot)], r)
  {
    hide Without, NoDup;
    WithoutMembers<nat>(slots[p].used, slot);
  }
}
