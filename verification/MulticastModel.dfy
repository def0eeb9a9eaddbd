/**
 * The groups peers have joined, and the index of them by the last 23 bits of the group address:
 * for each signature a list of the entries that have it, found through one of them, the master.
 */
module MulticastModel {
  import opened Bytes
  import opened Counting
  import opened Lists

  type Group = uint32

  /** The last 23 bits of a group address. */
  type Sig = x: int | 0 <= x < 0x80_0000

  /** A MAC address, most significant byte first. */
  datatype Mac = Mac(b0: byte, b1: byte, b2: byte, b3: byte, b4: byte, b5: byte)

  /** compute_sig_for_group */
  function SigOfGroup(g: Group): Sig {
    g % 0x80_0000
  }

  /** compute_sig_for_mac: the last four bytes, without all but 23 bits */
  function SigOfMac(m: Mac): Sig {
    (m.b2 * 0x100_0000 + m.b3 * 0x1_0000 + m.b4 * 0x100 + m.b5) % 0x80_0000
  }

  predicate IsMulticast(m: Mac) {
    m.b0 == 0x01 && m.b1 == 0x00 && m.b2 == 0x5E
  }

  /** The address frames to a group are sent to, by section 6.4 of RFC 1112. */
  function MacOfGroup(g: Group): Mac {
    Mac(0x01, 0x00, 0x5E, g % 0x80_0000 / 0x1_0000, g / 0x100 % 0x100, g % 0x100)
  }

  lemma GroupFramesHaveItsSig(g: Group)
    ensures IsMulticast(MacOfGroup(g)) && SigOfMac(MacOfGroup(g)) == SigOfGroup(g)
  {
    var q, low := g / 0x80_0000, g % 0x80_0000;
    var m := MacOfGroup(g);
    AddMultiple(low, 0x100, 0x8000 * q);
    AddMultiple(low / 0x100, 0x100, 0x80 * q);
    assert m.b4 == low / 0x100 % 0x100 && m.b5 == low % 0x100;
    LowBytes(low);
    AddMultiple(low, 0x80_0000, 0xBC);
  }

  lemma AddMultiple(x: nat, n: nat, q: nat)
    requires n > 0
    ensures (n * q + x) % n == x % n && (n * q + x) / n == q + x / n
  {
    var y := n * q + x;
    assert y == n * (q + x / n) + x % n by { assert n * (q + x / n) == n * q + n * (x / n); }
    QuotientUnique(y, n, q + x / n, x % n);
    assert y == n * (y / n) + y % n;
  }

  lemma LowBytes(low: nat)
    requires low < 0x80_0000
    ensures low / 0x1_0000 * 0x1_0000 + low / 0x100 % 0x100 * 0x100 + low % 0x100 == low
  {
    assert low / 0x1_0000 == low / 0x100 / 0x100;
  }

  datatype Entry<P> = Entry(peer: P, group: Group)

  datatype PeerGroups = PeerGroups(free: nat, used: seq<Group>)

  /** chains are the lists of entries with the same signature, master the tree. */
  datatype Index<P(==)> = Index(peers: map<P, PeerGroups>, chains: map<Sig, seq<Entry<P>>>, master: map<Sig, Entry<P>>)

  ghost predicate PeerOk<P>(max: nat, w: Index<P>, p: P)
    requires p in w.peers
  {
    var st := w.peers[p];
    && st.free + |st.used| == max && NoDup(st.used)
    && (forall g :: g in st.used ==> SigOfGroup(g) in w.chains && Entry(p, g) in w.chains[SigOfGroup(g)])
  }

  ghost predicate ChainOk<P>(w: Index<P>, s: Sig)
    requires s in w.chains
  {
    var chain := w.chains[s];
    && NoDup(chain) && s in w.master && w.master[s] in chain
    && (forall e :: e in chain ==> SigOfGroup(e.group) == s && e.peer in w.peers && e.group in w.peers[e.peer].used)
  }

  /**
   * For each signature of an entry in use there is a chain of exactly the entries with it, and one
   * of them is the master.
   */
  ghost predicate Inv<P>(max: nat, w: Index<P>) {
    && max > 0
    && (forall p :: p in w.peers ==> PeerOk(max, w, p))
    && (forall s :: s in w.chains ==> ChainOk(w, s))
    && w.master.Keys == w.chains.Keys
  }

  // ---------------------------------------------------------------- the index

  function InsertAfter<T(==)>(chain: seq<T>, at: T, x: T): seq<T>
    requires at in chain
  {
    var i := IndexIn(chain, at);
    chain[..i + 1] + [x] + chain[i + 1..]
  }

  /** add_to_multicast */
  function AddToMulticast<P>(w: Index<P>, e: Entry<P>): Index<P>
    requires SigOfGroup(e.group) in w.master ==>
      SigOfGroup(e.group) in w.chains && w.master[SigOfGroup(e.group)] in w.chains[SigOfGroup(e.group)]
  {
    var s := SigOfGroup(e.group);
    if s in w.master then w.(chains := w.chains[s := InsertAfter(w.chains[s], w.master[s], e)])
    else w.(chains := w.chains[s := [e]], master := w.master[s := e])
  }

  /** The next entry of the chain, or the previous one if there is none. */
  function NextOrPrev<T(==)>(chain: seq<T>, x: T): (r: T)
    requires |chain| > 1 && x in chain
    ensures r in chain && (NoDup(chain) ==> r != x)
  {
    var i := IndexIn(chain, x);
    if i + 1 < |chain| then chain[i + 1] else chain[i - 1]
  }

  /** remove_from_multicast */
  function RemoveFromMulticast<P>(w: Index<P>, e: Entry<P>): Index<P>
    requires var s := SigOfGroup(e.group); s in w.chains && s in w.master && e in w.chains[s]
  {
    var s := SigOfGroup(e.group);
    var chain := w.chains[s];
    if w.master[s] == e && |chain| == 1 then w.(chains := w.chains - {s}, master := w.master - {s})
    else
      w.(chains := w.chains[s := Without(chain, e)],
         master := w.master[s := if w.master[s] == e then NextOrPrev(chain, e) else w.master[s]])
  }

  // ---------------------------------------------------------------- joining and leaving groups

  function SetUsed<P>(w: Index<P>, p: P, free: nat, used: seq<Group>): Index<P> {
    w.(peers := w.peers[p := PeerGroups(free, used)])
  }

  /** A used entry is given up: the entry of a group that expires, or the oldest one. */
  function Drop<P>(max: nat, w: Index<P>, p: P, g: Group): Index<P>
    requires Inv(max, w) && p in w.peers && g in w.peers[p].used
  {
    EntryFacts(max, w, p, g);
    SetUsed(RemoveFromMulticast(w, Entry(p, g)), p, w.peers[p].free + 1, Without(w.peers[p].used, g))
  }

  /** An entry is taken from the free ones. */
  function Take<P>(w: Index<P>, p: P, g: Group): Index<P>
    requires p in w.peers && w.peers[p].free > 0
    requires SigOfGroup(g) in w.master ==>
      SigOfGroup(g) in w.chains && w.master[SigOfGroup(g)] in w.chains[SigOfGroup(g)]
  {
    AddToMulticast(SetUsed(w, p, w.peers[p].free - 1, w.peers[p].used + [g]), Entry(p, g))
  }

  /** add_group_to_peer */
  function AddGroup<P>(max: nat, w: Index<P>, p: P, g: Group): Index<P>
    requires Inv(max, w) && p in w.peers
  {
    var st := w.peers[p];
    assert PeerOk(max, w, p);
    if g in st.used then SetUsed(w, p, st.free, Without(st.used, g) + [g])
    else
      var r := if st.free > 0 then w else Drop(max, w, p, st.used[0]);
      RoomForGroup(max, w, p, g);
      Take(r, p, g)
  }

  lemma EntryFacts<P>(max: nat, w: Index<P>, p: P, g: Group)
    requires Inv(max, w) && p in w.peers && g in w.peers[p].used
    ensures var s := SigOfGroup(g);
      s in w.chains && s in w.master && Entry(p, g) in w.chains[s] && PeerOk(max, w, p) && ChainOk(w, s)
  {
    assert PeerOk(max, w, p);
    assert ChainOk(w, SigOfGroup(g));
  }

  lemma RoomForGroup<P>(max: nat, w: Index<P>, p: P, g: Group)
    requires Inv(max, w) && p in w.peers && g !in w.peers[p].used
    ensures w.peers[p].free == 0 ==> w.peers[p].used != []
    ensures var r := if w.peers[p].free > 0 then w else Drop(max, w, p, w.peers[p].used[0]);
      Inv(max, r) && p in r.peers && r.peers[p].free > 0 && g !in r.peers[p].used
      && (SigOfGroup(g) in r.master ==> SigOfGroup(g) in r.chains && r.master[SigOfGroup(g)] in r.chains[SigOfGroup(g)])
  {
    assert PeerOk(max, w, p);
    if w.peers[p].free == 0 {
      DropInv(max, w, p, w.peers[p].used[0]);
      WithoutMembers(w.peers[p].used, w.peers[p].used[0]);
    }
    var r := if w.peers[p].free > 0 then w else Drop(max, w, p, w.peers[p].used[0]);
    assert SigOfGroup(g) in r.master ==> ChainOk(r, SigOfGroup(g));
  }

  lemma UsedNoDup<P>(max: nat, w: Index<P>, p: P)
    requires Inv(max, w) && p in w.peers
    ensures NoDup(w.peers[p].used)
  {
    assert PeerOk(max, w, p);
  }

  lemma DropChain<P>(max: nat, w: Index<P>, p: P, g: Group)
    requires Inv(max, w) && p in w.peers && g in w.peers[p].used
    ensures var r, s := Drop(max, w, p, g), SigOfGroup(g); s in r.chains ==> ChainOk(r, s)
  {
    hide NoDup, Without, IndexIn, PeerOk, Inv;
    var e, s := Entry(p, g), SigOfGroup(g);
    EntryFacts(max, w, p, g);
    UsedNoDup(max, w, p);
    WithoutMembers(w.peers[p].used, g);
    WithoutMembers(w.chains[s], e);
    var r := Drop(max, w, p, g);
    if s in r.chains {
      assert NoDup(r.chains[s]);
      if w.master[s] == e {
        assert NextOrPrev(w.chains[s], e) in r.chains[s];
      }
    }
  }

  lemma DropPeer<P>(max: nat, w: Index<P>, p: P, g: Group, q: P)
    requires Inv(max, w) && p in w.peers && g in w.peers[p].used && q in Drop(max, w, p, g).peers
    ensures PeerOk(max, Drop(max, w, p, g), q)
  {
    hide NoDup, Without, NextOrPrev, ChainOk;
    var e, s := Entry(p, g), SigOfGroup(g);
    EntryFacts(max, w, p, g);
    WithoutMembers(w.peers[p].used, g);
    WithoutLength(w.peers[p].used, g);
    ChainFacts(max, w, s);
    WithoutMembers(w.chains[s], e);
    WithoutLength(w.chains[s], e);
    assert PeerOk(max, w, q);
    var r := Drop(max, w, p, g);
    assert NoDup(r.peers[q].used);
    forall o | o in r.peers[q].used ensures SigOfGroup(o) in r.chains && Entry(q, o) in r.chains[SigOfGroup(o)] {
      assert Entry(q, o) != e;
      assert Entry(q, o) in w.chains[SigOfGroup(o)];
      if SigOfGroup(o) == s {
        assert Entry(q, o) in Without(w.chains[s], e);
      }
    }
  }

  lemma ChainFacts<P>(max: nat, w: Index<P>, s: Sig)
    requires Inv(max, w) && s in w.chains
    ensures ChainOk(w, s) && NoDup(w.chains[s])
  {
    assert ChainOk(w, s);
  }

  lemma DropOtherChain<P>(max: nat, w: Index<P>, p: P, g: Group, t: Sig)
    requires Inv(max, w) && p in w.peers && g in w.peers[p].used && t in w.chains && t != SigOfGroup(g)
    ensures t in Drop(max, w, p, g).chains && ChainOk(Drop(max, w, p, g), t)
  {
    hide NoDup, Without, NextOrPrev, PeerOk, Inv;
    EntryFacts(max, w, p, g);
    UsedNoDup(max, w, p);
    WithoutMembers(w.peers[p].used, g);
    ChainFacts(max, w, t);
  }

  lemma DropInv<P>(max: nat, w: Index<P>, p: P, g: Group)
    requires Inv(max, w) && p in w.peers && g in w.peers[p].used
    ensures Inv(max, Drop(max, w, p, g))
  {
    hide NoDup, Without, NextOrPrev, PeerOk, ChainOk;
    EntryFacts(max, w, p, g);
    DropChain(max, w, p, g);
    var r := Drop(max, w, p, g);
    forall q | q in r.peers ensures PeerOk(max, r, q) {
      DropPeer(max, w, p, g, q);
    }
    forall t | t in r.chains ensures ChainOk(r, t) {
      if t != SigOfGroup(g) { DropOtherChain(max, w, p, g, t); }
    }
  }

  lemma InsertAfterMembers<T>(chain: seq<T>, at: T, x: T)
    requires at in chain
    ensures forall y :: y in InsertAfter(chain, at, x) <==> y in chain || y == x
    ensures NoDup(chain) && x !in chain ==> NoDup(InsertAfter(chain, at, x))
  {
    var i := IndexIn(chain, at);
    var r := InsertAfter(chain, at, x);
    assert chain == chain[..i + 1] + chain[i + 1..];
  }

  /** An entry that is not in use is in no chain. */
  lemma NotInChain<P>(max: nat, w: Index<P>, p: P, g: Group, t: Sig)
    requires Inv(max, w) && p in w.peers && g !in w.peers[p].used && t in w.chains
    ensures Entry(p, g) !in w.chains[t]
  {
    assert ChainOk(w, t);
  }

  lemma TakeChain<P>(max: nat, w: Index<P>, p: P, g: Group, t: Sig)
    requires Inv(max, w) && p in w.peers && g !in w.peers[p].used && w.peers[p].free > 0
    requires SigOfGroup(g) in w.chains ==> ChainOk(w, SigOfGroup(g))
    requires t in Take(w, p, g).chains
    ensures ChainOk(Take(w, p, g), t)
  {
    hide NoDup, InsertAfter, PeerOk, Inv;
    MastersAreChains(max, w);
    if t in w.chains {
      ChainFacts(max, w, t);
      NotInChain(max, w, p, g, t);
      InsertAfterMembers(w.chains[t], w.master[t], Entry(p, g));
    }
    OneNoDup(Entry(p, g));
    var r := Take(w, p, g);
    assert NoDup(r.chains[t]);
  }

  lemma OneNoDup<T>(x: T)
    ensures NoDup([x])
  {
  }

  lemma MastersAreChains<P>(max: nat, w: Index<P>)
    requires Inv(max, w)
    ensures forall t :: t in w.master <==> t in w.chains
  {
    assert forall t :: t in w.master.Keys <==> t in w.chains.Keys;
  }

  lemma GroupsOk<P>(max: nat, w: Index<P>, p: P)
    requires Inv(max, w) && p in w.peers
    ensures PeerOk(max, w, p)
  {
  }

  lemma ChainHasMaster<P>(w: Index<P>, s: Sig)
    requires s in w.chains && ChainOk(w, s)
    ensures s in w.master && w.master[s] in w.chains[s]
  {
  }

  lemma TakePeer<P>(max: nat, w: Index<P>, p: P, g: Group, q: P)
    requires Inv(max, w) && p in w.peers && g !in w.peers[p].used && w.peers[p].free > 0
    requires SigOfGroup(g) in w.chains ==> ChainOk(w, SigOfGroup(g))
    requires q in Take(w, p, g).peers
    ensures PeerOk(max, Take(w, p, g), q)
  {
    hide NoDup, InsertAfter, Inv, ChainOk;
    MastersAreChains(max, w);
    var s := SigOfGroup(g);
    if s in w.chains {
      ChainHasMaster(w, s);
      InsertAfterMembers(w.chains[s], w.master[s], Entry(p, g));
    }
    GroupsOk(max, w, q);
    AppendUsed(w.peers[q].used, g);
    var r := Take(w, p, g);
    assert NoDup(r.peers[q].used);
  }

  lemma AppendUsed<T>(s: seq<T>, x: T)
    ensures NoDup(s) && x !in s ==> NoDup(s + [x])
  {
  }

  lemma TakeInv<P>(max: nat, w: Index<P>, p: P, g: Group)
    requires Inv(max, w) && p in w.peers && g !in w.peers[p].used && w.peers[p].free > 0
    ensures SigOfGroup(g) in w.chains ==> ChainOk(w, SigOfGroup(g))
    ensures Inv(max, Take(w, p, g))
  {
    hide NoDup, InsertAfter, PeerOk, ChainOk;
    if SigOfGroup(g) in w.chains {
      ChainFacts(max, w, SigOfGroup(g));
    }
    var r := Take(w, p, g);
    forall q | q in r.peers ensures PeerOk(max, r, q) {
      TakePeer(max, w, p, g, q);
    }
    forall t | t in r.chains ensures ChainOk(r, t) {
      TakeChain(max, w, p, g, t);
    }
  }

  lemma SeenAgainInv<P>(max: nat, w: Index<P>, p: P, g: Group)
    requires Inv(max, w) && p in w.peers && g in w.peers[p].used
    ensures Inv(max, SetUsed(w, p, w.peers[p].free, Without(w.peers[p].used, g) + [g]))
  {
    hide NoDup, Without;
    var used := w.peers[p].used;
    UsedNoDup(max, w, p);
    WithoutMembers(used, g);
    WithoutLength(used, g);
    AppendUsed(Without(used, g), g);
    var r := SetUsed(w, p, w.peers[p].free, Without(used, g) + [g]);
    forall q | q in r.peers ensures PeerOk(max, r, q) {
      assert PeerOk(max, w, q);
      assert NoDup(r.peers[q].used);
    }
    forall t | t in r.chains ensures ChainOk(r, t) {
      assert ChainOk(w, t);
    }
  }

  lemma AddGroupInv<P>(max: nat, w: Index<P>, p: P, g: Group)
    requires Inv(max, w) && p in w.peers
    ensures Inv(max, AddGroup(max, w, p, g))
  {
    hide NoDup, Without, Inv, PeerOk, ChainOk, Drop;
    if g in w.peers[p].used {
      SeenAgainInv(max, w, p, g);
    } else {
      RoomForGroup(max, w, p, g);
      var r := if w.peers[p].free > 0 then w else Drop(max, w, p, w.peers[p].used[0]);
      TakeInv(max, r, p, g);
    }
  }

  // ---------------------------------------------------------------- peers

  function AddPeer<P>(max: nat, w: Index<P>, p: P): Index<P> {
    SetUsed(w, p, max, [])
  }

  /** The loop of FrameDeciderPeer_Free over the used group entries. */
  ghost function DropAll<P>(max: nat, w: Index<P>, p: P): (r: Index<P>)
    requires Inv(max, w) && p in w.peers
    ensures Inv(max, r) && p in r.peers && r.peers[p].used == [] && r.peers.Keys == w.peers.Keys
    decreases |w.peers[p].used|
  {
    if w.peers[p].used == [] then w
    else
      DropInv(max, w, p, w.peers[p].used[0]);
      WithoutLength(w.peers[p].used, w.peers[p].used[0]);
      DropAll(max, Drop(max, w, p, w.peers[p].used[0]), p)
  }

  ghost function RemovePeer<P>(max: nat, w: Index<P>, p: P): Index<P>
    requires Inv(max, w) && p in w.peers
  {
    var r := DropAll(max, w, p);
    r.(peers := r.peers - {p})
  }

  lemma PeerInv<P>(max: nat, w: Index<P>, p: P)
    requires Inv(max, w)
    ensures p !in w.peers ==> Inv(max, AddPeer(max, w, p))
    ensures p in w.peers ==> Inv(max, RemovePeer(max, w, p))
  {
    if p in w.peers {
      GoneInv(max, DropAll(max, w, p), p);
    } else {
      var r := AddPeer(max, w, p);
      forall q | q in r.peers ensures PeerOk(max, r, q) {
        assert q != p ==> PeerOk(max, w, q);
      }
      forall t | t in r.chains ensures ChainOk(r, t) {
        assert ChainOk(w, t);
      }
    }
  }

  lemma GoneInv<P>(max: nat, w: Index<P>, p: P)
    requires Inv(max, w) && p in w.peers && w.peers[p].used == []
    ensures Inv(max, w.(peers := w.peers - {p}))
  {
    var r := w.(peers := w.peers - {p});
    forall q | q in r.peers ensures PeerOk(max, r, q) {
      assert PeerOk(max, w, q);
    }
    forall t | t in r.chains ensures ChainOk(r, t) {
      assert ChainOk(w, t);
    }
  }

  // ---------------------------------------------------------------- runs

  datatype Event<P> = Join(p: P) | Leave(p: P) | Report(p: P, g: Group) | Expire(p: P, g: Group)

  predicate Enabled<P(==)>(w: Index<P>, e: Event<P>) {
    match e
    case Join(p) => p !in w.peers
    case Leave(p) => p in w.peers
    case Report(p, g) => p in w.peers
    case Expire(p, g) => p in w.peers && g in w.peers[p].used
  }

  ghost function Step<P>(max: nat, w: Index<P>, e: Event<P>): (r: Index<P>)
    requires Inv(max, w) && Enabled(w, e)
    ensures Inv(max, r)
  {
    PeerInv(max, w, e.p);
    match e
    case Join(p) => AddPeer(max, w, p)
    case Leave(p) => RemovePeer(max, w, p)
    case Report(p, g) => AddGroupInv(max, w, p, g); AddGroup(max, w, p, g)
    case Expire(p, g) => DropInv(max, w, p, g); Drop(max, w, p, g)
  }

  ghost predicate AllEnabled<P>(max: nat, w: Index<P>, es: seq<Event<P>>)
    requires Inv(max, w)
    decreases |es|
  {
    es == [] || (Enabled(w, es[0]) && AllEnabled(max, Step(max, w, es[0]), es[1..]))
  }

  ghost function Run<P>(max: nat, w: Index<P>, es: seq<Event<P>>): (r: Index<P>)
    requires Inv(max, w) && AllEnabled(max, w, es)
    ensures Inv(max, r)
    decreases |es|
  {
    if es == [] then w else Run(max, Step(max, w, es[0]), es[1..])
  }

  // ---------------------------------------------------------------- where multicast frames go

  /** What FrameDecider_NextDestination returns one by one for a multicast frame. */
  function Destinations<P>(w: Index<P>, s: Sig): seq<P>
  {
    if s in w.chains then PeersOf(w.chains[s]) else []
  }

  function PeersOf<P>(chain: seq<Entry<P>>): (r: seq<P>)
    ensures |r| == |chain| && forall i :: 0 <= i < |r| ==> r[i] == chain[i].peer
  {
    seq(|chain|, i requires 0 <= i < |chain| => chain[i].peer)
  }

  /** The groups of a peer with this signature. */
  ghost function GroupsWith<P>(w: Index<P>, p: P, s: Sig): set<Group>
    requires p in w.peers
  {
    set g | g in w.peers[p].used && SigOfGroup(g) == s
  }

  function Times<P(==)>(ps: seq<P>, p: P): nat {
    if ps == [] then 0 else (if ps[0] == p then 1 else 0) + Times(ps[1..], p)
  }

  /**
   * In every run: a frame to a signature is sent to exactly the peers that have joined a group with
   * it, to each as often as it has such groups.
   */
  lemma MulticastIsExact<P>(max: nat, w: Index<P>, es: seq<Event<P>>, s: Sig, p: P)
    requires Inv(max, w) && AllEnabled(max, w, es) && p in Run(max, w, es).peers
    ensures var r := Run(max, w, es); Times(Destinations(r, s), p) == |GroupsWith(r, p, s)|
  {
    var r := Run(max, w, es);
    if s in r.chains {
      ChainFacts(max, r, s);
      ChainCounts(r.chains[s], p);
      assert GroupsWith(r, p, s) == GroupsOf(r.chains[s], p) by {
        forall g | g in GroupsWith(r, p, s) ensures g in GroupsOf(r.chains[s], p) {
          EntryFacts(max, r, p, g);
        }
      }
    } else {
      forall g | g in GroupsWith(r, p, s) ensures false {
        EntryFacts(max, r, p, g);
      }
    }
  }

  lemma ReportTakes<P>(max: nat, w: Index<P>, p: P, g: Group)
    requires Inv(max, w) && p in w.peers && g !in w.peers[p].used && w.peers[p].free > 0
    ensures p in Step(max, w, Report(p, g)).peers
    ensures Step(max, w, Report(p, g)).peers[p] == PeerGroups(w.peers[p].free - 1, w.peers[p].used + [g])
  {
    TakeInv(max, w, p, g);
  }

  /**
   * So a peer that has joined two groups which differ only above the last 23 bits gets every frame
   * to either of them twice.
   */
  lemma SameFrameTwice<P>(p: P, g: Group)
    requires g < 0x80_0000
    ensures var es := [Join(p), Report(p, g), Report(p, g + 0x80_0000)]; var w := Index(map[], map[], map[]);
      && Inv(2, w) && AllEnabled(2, w, es)
      && SigOfMac(MacOfGroup(g)) == SigOfMac(MacOfGroup(g + 0x80_0000))
      && Times(Destinations(Run(2, w, es), SigOfMac(MacOfGroup(g))), p) == 2
  {
    hide Inv, Step, MacOfGroup, SigOfMac, Destinations, Times;
    var w, h := Index<P>.Index(map[], map[], map[]), g + 0x80_0000;
    NobodyYet<P>();
    GroupFramesHaveItsSig(g);
    GroupFramesHaveItsSig(h);
    var es := [Join(p), Report(p, g), Report(p, h)];
    var w1 := Step(2, w, Join(p));
    JoinTakes(w, p);
    ReportTakes(2, w1, p, g);
    var w2 := Step(2, w1, Report(p, g));
    ReportTakes(2, w2, p, h);
    var w3 := Step(2, w2, Report(p, h));
    assert es[1..] == [Report(p, g), Report(p, h)] && es[1..][1..] == [Report(p, h)] && es[1..][1..][1..] == [];
    assert AllEnabled(2, w3, []) && Run(2, w3, []) == w3;
    assert AllEnabled(2, w2, es[1..][1..]) && Run(2, w2, es[1..][1..]) == w3;
    assert AllEnabled(2, w1, es[1..]) && Run(2, w1, es[1..]) == w3;
    assert AllEnabled(2, w, es) && Run(2, w, es) == w3;
    MulticastIsExact(2, w, es, SigOfGroup(g), p);
    assert GroupsWith(w3, p, SigOfGroup(g)) == {g, h};
  }

  lemma NobodyYet<P>()
    ensures Inv<P>(2, Index(map[], map[], map[]))
  {
  }

  lemma JoinTakes<P>(w: Index<P>, p: P)
    requires Inv(2, w) && p !in w.peers
    ensures p in Step(2, w, Join(p)).peers && Step(2, w, Join(p)).peers[p] == PeerGroups(2, [])
  {
  }

  lemma DestinationsExist<P>(max: nat, w: Index<P>, s: Sig, p: P)
    requires Inv(max, w) && p in Destinations(w, s)
    ensures p in w.peers && exists g :: g in w.peers[p].used && SigOfGroup(g) == s
  {
    assert ChainOk(w, s);
    var i :| 0 <= i < |w.chains[s]| && w.chains[s][i].peer == p;
    assert w.chains[s][i] in w.chains[s];
  }

  ghost function GroupsOf<P>(chain: seq<Entry<P>>, p: P): set<Group> {
    set e | e in chain && e.peer == p :: e.group
  }

  lemma {:induction false} ChainCounts<P>(chain: seq<Entry<P>>, p: P)
    requires NoDup(chain)
    ensures Times(PeersOf(chain), p) == |GroupsOf(chain, p)|
  {
    if chain != [] {
      var rest := chain[1..];
      HeadGone(chain);
      ChainCounts(rest, p);
      assert PeersOf(chain)[1..] == PeersOf(rest);
      if chain[0].peer == p {
        assert chain[0].group !in GroupsOf(rest, p);
        assert GroupsOf(chain, p) == GroupsOf(rest, p) + {chain[0].group};
      } else {
        assert GroupsOf(chain, p) == GroupsOf(rest, p);
      }
    }
  }
}
