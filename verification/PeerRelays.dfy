/**
 * How the client reaches its peers: over a link of its own, through another peer that relays, or
 * not yet, waiting for a relay. State is the state of all peers as a value; the class Client
 * changes the objects.
 */
module PeerRelays {
  import opened Lists

  class Peer {
    var haveLink: bool
    var isRelay: bool
    var relayingPeer: Peer?
    var waitingRelay: bool
    var relayUsers: seq<Peer>
    // the peer whose sink local_dpflow is attached to
    var localSink: Peer?

    constructor ()
      ensures !haveLink && !isRelay && relayingPeer == null && !waitingRelay && relayUsers == [] && localSink == null
    {
      haveLink, isRelay, relayingPeer, waitingRelay, relayUsers, localSink := false, false, null, false, [], null;
    }
  }

  datatype PeerState = PeerState(link: bool, relay: bool, via: Peer?, waiting: bool, users: seq<Peer>, sink: Peer?)

  datatype State = State(peers: map<Peer, PeerState>, relays: seq<Peer>, waiting: seq<Peer>)

  const NEW_PEER := PeerState(false, false, null, false, [], null)

  // ---------------------------------------------------------------- the invariant

  /**
   * A peer has a link, is relayed or waits, never two of these; only a peer with a link is a
   * relay; lists and flags say the same; local_dpflow is attached to the peer's own sink or to
   * that of its relay.
   */
  ghost predicate PeerOk(s: State, p: Peer)
    requires p in s.peers
  {
    var st := s.peers[p];
    && (st.link ==> st.via == null && !st.waiting) && (st.via != null ==> !st.waiting)
    && (st.relay ==> st.link)
    && (st.via != null ==> st.via in s.peers && s.peers[st.via].relay && p in s.peers[st.via].users)
    && st.sink == (if st.link then p else st.via)
    && UsersOk(s, p)
    && (st.relay <==> p in s.relays) && (st.waiting <==> p in s.waiting)
  }

  /** The users list of a relay is the set of peers that go through it. */
  ghost predicate UsersOk(s: State, p: Peer)
    requires p in s.peers
  {
    var users := s.peers[p].users;
    && NoDup(users) && (!s.peers[p].relay ==> users == [])
    && (forall u :: u in users ==> u in s.peers && s.peers[u].via == p)
  }

  ghost predicate Inv(s: State) {
    && NoDup(s.relays) && NoDup(s.waiting)
    && (forall p :: p in s.relays ==> p in s.peers)
    && (forall p :: p in s.waiting ==> p in s.peers)
    && (forall p :: p in s.peers ==> PeerOk(s, p))
  }

  /** No peer waits while there is a relay. */
  predicate Quiet(s: State) {
    s.waiting == [] || s.relays == []
  }

  // ---------------------------------------------------------------- the functions of client.c

  function InitLink(s: State, p: Peer): State
    requires p in s.peers
  {
    s.(peers := s.peers[p := s.peers[p].(link := true, sink := p)])
  }

  function FreeLink(s: State, p: Peer): State
    requires p in s.peers
  {
    s.(peers := s.peers[p := s.peers[p].(link := false, sink := null)])
  }

  /** The relay goes last, so that this is right for any p. */
  function FreeRelaying(s: State, p: Peer): State
    requires p in s.peers && s.peers[p].via in s.peers
  {
    var relay := s.peers[p].via;
    var peers := s.peers[p := s.peers[p].(via := null, sink := null)];
    s.(peers := peers[relay := peers[relay].(users := Without(peers[relay].users, p))])
  }

  function InstallRelaying(s: State, p: Peer, relay: Peer): State
    requires p in s.peers && relay in s.peers
  {
    var peers := s.peers[p := s.peers[p].(via := relay, sink := relay)];
    s.(peers := peers[relay := peers[relay].(users := peers[relay].users + [p])])
  }

  function RegisterNeedRelay(s: State, p: Peer): State
    requires p in s.peers
  {
    s.(peers := s.peers[p := s.peers[p].(waiting := true)], waiting := s.waiting + [p])
  }

  function UnregisterNeedRelay(s: State, p: Peer): State
    requires p in s.peers
  {
    s.(peers := s.peers[p := s.peers[p].(waiting := false)], waiting := Without(s.waiting, p))
  }

  /** assign_relays */
  ghost function Assign(s: State): State
    requires Inv(s)
    decreases |s.waiting|
  {
    if s.waiting == [] || s.relays == [] then s
    else
      AssignOneInv(s);
      Assign(AssignOne(s))
  }

  function AssignOne(s: State): State
    requires s.waiting != [] && s.waiting[0] in s.peers && s.relays != [] && s.relays[0] in s.peers
  {
    InstallRelaying(UnregisterNeedRelay(s, s.waiting[0]), s.waiting[0], s.relays[0])
  }

  function SetRelay(s: State, p: Peer, relay: bool): State
    requires p in s.peers
  {
    s.(peers := s.peers[p := s.peers[p].(relay := relay, users := [])],
       relays := if relay then s.relays + [p] else Without(s.relays, p))
  }

  /** The loop of peer_disable_relay_provider: the users of the relay wait for another one. */
  ghost function DisconnectUsers(s: State, relay: Peer): State
    requires Inv(s) && relay in s.peers && s.peers[relay].relay
    decreases |s.peers[relay].users|
  {
    if s.peers[relay].users == [] then s
    else
      DisconnectInv(s, relay);
      DisconnectUsers(Disconnect(s, relay), relay)
  }

  function Disconnect(s: State, relay: Peer): State
    requires relay in s.peers && s.peers[relay].users != []
    requires s.peers[relay].users[0] in s.peers && s.peers[s.peers[relay].users[0]].via == relay
  {
    var user := s.peers[relay].users[0];
    RegisterNeedRelay(FreeRelaying(s, user), user)
  }

  // ---------------------------------------------------------------- each keeps the invariant

  lemma InitLinkInv(s: State, p: Peer)
    requires Inv(s) && p in s.peers && !s.peers[p].link && s.peers[p].via == null && !s.peers[p].waiting
    ensures Inv(InitLink(s, p))
  {
    hide NoDup;
    var r := InitLink(s, p);
    forall q | q in r.peers ensures PeerOk(r, q) {
      assert PeerOk(s, q);
    }
  }

  lemma FreeLinkInv(s: State, p: Peer)
    requires Inv(s) && p in s.peers && s.peers[p].link && !s.peers[p].relay
    ensures Inv(FreeLink(s, p))
    // nobody else is attached to the sink that goes away
    ensures forall q :: q in s.peers && q != p ==> s.peers[q].sink != p
  {
    hide NoDup;
    var r := FreeLink(s, p);
    forall q | q in r.peers ensures PeerOk(r, q) && (q != p ==> s.peers[q].sink != p) {
      assert PeerOk(s, q);
    }
  }

  lemma FreeRelayingInv(s: State, p: Peer)
    requires Inv(s) && p in s.peers && s.peers[p].via != null
    ensures s.peers[p].via in s.peers && Inv(FreeRelaying(s, p))
  {
    hide NoDup, Without;
    assert PeerOk(s, p);
    var relay := s.peers[p].via;
    assert PeerOk(s, relay);
    WithoutMembers(s.peers[relay].users, p);
    var r := FreeRelaying(s, p);
    assert NoDup(r.peers[relay].users) && UsersOk(r, relay);
    forall q | q in r.peers ensures PeerOk(r, q) {
      assert PeerOk(s, q);
    }
  }

  lemma InstallRelayingInv(s: State, p: Peer, relay: Peer)
    requires Inv(s) && p in s.peers && !s.peers[p].link && s.peers[p].via == null && !s.peers[p].waiting
    requires relay in s.peers && s.peers[relay].relay
    ensures Inv(InstallRelaying(s, p, relay))
  {
    hide NoDup;
    assert PeerOk(s, p) && PeerOk(s, relay);
    AppendNoDup(s.peers[relay].users, p);
    var r := InstallRelaying(s, p, relay);
    forall q | q in r.peers ensures PeerOk(r, q) {
      assert PeerOk(s, q);
    }
  }

  lemma RegisterInv(s: State, p: Peer)
    requires Inv(s) && p in s.peers && !s.peers[p].link && s.peers[p].via == null && !s.peers[p].waiting
    ensures Inv(RegisterNeedRelay(s, p))
  {
    hide NoDup;
    assert PeerOk(s, p);
    AppendNoDup(s.waiting, p);
    var r := RegisterNeedRelay(s, p);
    forall q | q in r.peers ensures PeerOk(r, q) {
      assert PeerOk(s, q);
    }
  }

  lemma UnregisterInv(s: State, p: Peer)
    requires Inv(s) && p in s.peers && s.peers[p].waiting
    ensures Inv(UnregisterNeedRelay(s, p))
  {
    hide NoDup, Without;
    assert PeerOk(s, p);
    WithoutMembers(s.waiting, p);
    var r := UnregisterNeedRelay(s, p);
    forall q | q in r.peers ensures PeerOk(r, q) {
      assert PeerOk(s, q);
    }
    assert NoDup(r.waiting) && NoDup(r.relays);
  }

  lemma SetRelayInv(s: State, p: Peer, relay: bool)
    requires Inv(s) && p in s.peers && s.peers[p].link && s.peers[p].relay != relay && s.peers[p].users == []
    ensures Inv(SetRelay(s, p, relay))
  {
    hide NoDup, Without;
    assert PeerOk(s, p);
    WithoutMembers(s.relays, p);
    if relay { AppendNoDup(s.relays, p); }
    assert NoDup<Peer>([]) by { EmptyNoDup<Peer>(); }
    var r := SetRelay(s, p, relay);
    forall q | q in r.peers ensures PeerOk(r, q) {
      assert PeerOk(s, q);
    }
    assert NoDup(r.waiting) && NoDup(r.relays);
  }

  lemma EmptyNoDup<T>()
    ensures NoDup<T>([])
  {
  }

  lemma DisconnectInv(s: State, relay: Peer)
    requires Inv(s) && relay in s.peers && s.peers[relay].relay && s.peers[relay].users != []
    ensures var user := s.peers[relay].users[0];
      && user in s.peers && s.peers[user].via == relay && user != relay && relay !in s.peers[relay].users
      && Inv(Disconnect(s, relay))
      && Disconnect(s, relay).peers.Keys == s.peers.Keys
      && Disconnect(s, relay).peers[relay] == s.peers[relay].(users := s.peers[relay].users[1..])
  {
    var user := s.peers[relay].users[0];
    assert PeerOk(s, relay) && user in s.peers[relay].users;
    assert PeerOk(s, user);
    FreeRelayingInv(s, user);
    RegisterInv(FreeRelaying(s, user), user);
  }

  // ---------------------------------------------------------------- the two loops

  /** What assign_relays does: whoever waits goes through the first relay, in the order of waiting. */
  ghost predicate Assigned(s: State, r: State)
    requires s.relays != [] ==> s.relays[0] in s.peers
  {
    if s.relays == [] then r == s
    else
      && r.peers.Keys == s.peers.Keys && r.relays == s.relays && r.waiting == []
      && forall p :: p in s.peers ==>
           r.peers[p] == (if p in s.waiting then s.peers[p].(waiting := false, via := s.relays[0], sink := s.relays[0])
                          else if p == s.relays[0] then s.peers[p].(users := s.peers[p].users + s.waiting)
                          else s.peers[p])
  }

  lemma AssignOneInv(s: State)
    requires Inv(s) && s.waiting != [] && s.relays != []
    ensures var p, relay := s.waiting[0], s.relays[0];
      && p in s.peers && relay in s.peers && p != relay && s.peers[p].waiting && s.peers[relay].relay
      && UnregisterNeedRelay(s, p).waiting == s.waiting[1..] && p !in s.waiting[1..] && relay !in s.waiting
      && Inv(UnregisterNeedRelay(s, p)) && Inv(AssignOne(s))
      && AssignOne(s).waiting == s.waiting[1..] && AssignOne(s).relays == s.relays
  {
    var p, relay := s.waiting[0], s.relays[0];
    assert p in s.waiting && relay in s.relays;
    assert PeerOk(s, p) && PeerOk(s, relay);
    UnregisterInv(s, p);
    InstallRelayingInv(UnregisterNeedRelay(s, p), p, relay);
  }

  lemma {:induction false} AssignInv(s: State)
    requires Inv(s)
    ensures Inv(Assign(s)) && Quiet(Assign(s))
    ensures s.relays != [] ==> s.relays[0] in s.peers
    ensures Assigned(s, Assign(s))
    decreases |s.waiting|
  {
    hide Inv, Assigned, AssignOne;
    FirstRelay(s);
    if s.waiting != [] && s.relays != [] {
      AssignOneInv(s);
      AssignInv(AssignOne(s));
      AssignedLater(s, Assign(AssignOne(s)));
    } else {
      NoneAssigned(s);
    }
  }

  lemma FirstRelay(s: State)
    requires Inv(s)
    ensures s.relays != [] ==> s.relays[0] in s.peers
  {
    assert s.relays != [] ==> s.relays[0] in s.relays;
  }

  lemma NoneAssigned(s: State)
    requires (s.relays != [] ==> s.relays[0] in s.peers) && (s.waiting == [] || s.relays == [])
    ensures Assigned(s, s)
  {
    if s.relays != [] {
      assert s.peers[s.relays[0]].users + s.waiting == s.peers[s.relays[0]].users;
    }
  }

  lemma AssignedLater(s: State, t: State)
    requires s.waiting != [] && s.relays != [] && s.waiting[0] in s.peers && s.relays[0] in s.peers
    requires s.waiting[0] != s.relays[0] && s.relays[0] !in s.waiting && s.waiting[0] !in s.waiting[1..]
    requires AssignOne(s).waiting == s.waiting[1..]
    requires Assigned(AssignOne(s), t)
    ensures Assigned(s, t)
  {
    hide Without;
    var r, p, relay := AssignOne(s), s.waiting[0], s.relays[0];
    assert s.waiting == [p] + r.waiting;
    assert s.peers[relay].users + s.waiting == (s.peers[relay].users + [p]) + r.waiting;
    assert t.peers.Keys == s.peers.Keys;
  }

  /** What the loop of peer_disable_relay_provider does. */
  ghost predicate Disconnected(s: State, r: State, relay: Peer)
    requires relay in s.peers
  {
    && r.peers.Keys == s.peers.Keys && r.relays == s.relays && r.waiting == s.waiting + s.peers[relay].users
    && forall p :: p in s.peers ==>
         r.peers[p] == (if p in s.peers[relay].users then s.peers[p].(waiting := true, via := null, sink := null)
                        else if p == relay then s.peers[p].(users := [])
                        else s.peers[p])
  }

  lemma {:induction false} DisconnectAllInv(s: State, relay: Peer)
    requires Inv(s) && relay in s.peers && s.peers[relay].relay
    ensures Inv(DisconnectUsers(s, relay)) && Disconnected(s, DisconnectUsers(s, relay), relay)
    decreases |s.peers[relay].users|
  {
    if s.peers[relay].users != [] {
      DisconnectInv(s, relay);
      var r := Disconnect(s, relay);
      DisconnectAllInv(r, relay);
      DisconnectedLater(s, r, DisconnectUsers(r, relay), relay);
    }
  }

  lemma DisconnectedLater(s: State, r: State, t: State, relay: Peer)
    requires relay in s.peers && s.peers[relay].users != [] && s.peers[relay].users[0] in s.peers
    requires s.peers[s.peers[relay].users[0]].via == relay && relay !in s.peers[relay].users
    requires r == Disconnect(s, relay) && relay in r.peers && NoDup(s.peers[relay].users)
    requires r.peers[relay] == s.peers[relay].(users := s.peers[relay].users[1..])
    requires Disconnected(r, t, relay)
    ensures Disconnected(s, t, relay)
  {
    hide NoDup, Without;
    var users := s.peers[relay].users;
    var rest := users[1..];
    HeadGone(users);
    assert s.waiting + users == (s.waiting + [users[0]]) + rest;
    assert t.peers.Keys == s.peers.Keys;
    forall p | p in s.peers
      ensures t.peers[p] == (if p in users then s.peers[p].(waiting := true, via := null, sink := null)
                             else if p == relay then s.peers[p].(users := [])
                             else s.peers[p])
    {
      assert p in users <==> p == users[0] || p in rest;
    }
  }

  // ---------------------------------------------------------------- what happens to a peer

  /** peer_enable_relay_provider */
  ghost function EnableRelay(s: State, p: Peer): (r: State)
    requires Inv(s) && p in s.peers && s.peers[p].link && !s.peers[p].relay
    ensures Inv(r) && Quiet(r) && r.peers.Keys == s.peers.Keys
  {
    hide Assigned;
    assert PeerOk(s, p);
    SetRelayInv(s, p, true);
    AssignInv(SetRelay(s, p, true));
    AssignKeys(SetRelay(s, p, true));
    Assign(SetRelay(s, p, true))
  }

  lemma AssignKeys(s: State)
    requires Inv(s)
    ensures Assign(s).peers.Keys == s.peers.Keys && Assign(s).relays == s.relays
  {
    AssignInv(s);
  }

  /** peer_disable_relay_provider */
  ghost function DisableRelay(s: State, p: Peer): (r: State)
    requires Inv(s) && p in s.peers && s.peers[p].relay
    ensures Inv(r) && Quiet(r) && r.peers.Keys == s.peers.Keys
    ensures r.peers[p] == s.peers[p].(relay := false, users := [])
  {
    DisabledInv(s, p);
    Assign(SetRelay(DisconnectUsers(s, p), p, false))
  }

  lemma DisabledInv(s: State, p: Peer)
    requires Inv(s) && p in s.peers && s.peers[p].relay
    ensures p in DisconnectUsers(s, p).peers
    ensures var t := SetRelay(DisconnectUsers(s, p), p, false);
      && Inv(t) && Inv(Assign(t)) && Quiet(Assign(t)) && Assign(t).peers.Keys == s.peers.Keys
      && Assign(t).peers[p] == s.peers[p].(relay := false, users := [])
  {
    hide NoDup, Without;
    assert PeerOk(s, p);
    DisconnectAllInv(s, p);
    var d := DisconnectUsers(s, p);
    assert p !in s.peers[p].users;
    SetRelayInv(d, p, false);
    var t := SetRelay(d, p, false);
    AssignInv(t);
    AssignKeys(t);
    assert PeerOk(t, p) && p !in t.waiting;
    assert t.relays != [] ==> t.relays[0] in t.relays;
  }

  lemma AfterDisconnect(s: State, p: Peer, u: Peer)
    requires Inv(s) && Quiet(s) && p in s.peers && s.peers[p].relay && u in s.peers && u != p
    ensures p in DisconnectUsers(s, p).peers
    ensures var t := SetRelay(DisconnectUsers(s, p), p, false);
      && t.waiting == s.peers[p].users && t.relays == Without(s.relays, p) && u in t.peers
      && t.peers[u] == (if u in s.peers[p].users then s.peers[u].(waiting := true, via := null, sink := null) else s.peers[u])
  {
    hide NoDup, Without;
    assert PeerOk(s, p);
    DisconnectAllInv(s, p);
    assert s.waiting == [];
    assert s.waiting + s.peers[p].users == s.peers[p].users;
  }

  /**
   * When a relay goes down its users do not stay with it: they all go through the first of the
   * other relays, or wait if there is none. For all others but that relay nothing changes.
   */
  lemma UsersMove(s: State, p: Peer, u: Peer)
    requires Inv(s) && Quiet(s) && p in s.peers && s.peers[p].relay && u in s.peers && u != p
    ensures u in DisableRelay(s, p).peers
    ensures var others, was, now := Without(s.relays, p), s.peers[u], DisableRelay(s, p).peers[u];
      now == if u in s.peers[p].users then
               if others == [] then was.(via := null, sink := null, waiting := true)
               else was.(via := others[0], sink := others[0], waiting := false)
             else if others != [] && u == others[0] then was.(users := was.users + s.peers[p].users)
             else was
  {
    hide NoDup, Without, Inv, SetRelay, PeerOk;
    DisabledInv(s, p);
    AfterDisconnect(s, p, u);
    AssignInv(SetRelay(DisconnectUsers(s, p), p, false));
  }

  /** peer_cleanup_connections */
  ghost function Cleanup(s: State, p: Peer): (r: State)
    requires Inv(s) && p in s.peers
    ensures Inv(r) && (Quiet(s) ==> Quiet(r)) && r.peers.Keys == s.peers.Keys
    ensures r.peers[p] == NEW_PEER
  {
    CleanupFacts(s, p);
    var st := s.peers[p];
    if st.link then FreeLink(if st.relay then DisableRelay(s, p) else s, p)
    else if st.via != null then FreeRelaying(s, p)
    else if st.waiting then UnregisterNeedRelay(s, p)
    else s
  }

  lemma CleanupFacts(s: State, p: Peer)
    requires Inv(s) && p in s.peers
    ensures s.peers[p].link ==> Inv(FreeLink(if s.peers[p].relay then DisableRelay(s, p) else s, p))
    ensures s.peers[p].link && !s.peers[p].relay ==> s.peers[p].users == []
    ensures s.peers[p].via != null ==> s.peers[p].via in s.peers && s.peers[p].via != p && Inv(FreeRelaying(s, p))
    ensures s.peers[p].waiting ==> Inv(UnregisterNeedRelay(s, p)) && UnregisterNeedRelay(s, p).waiting == Without(s.waiting, p)
    ensures Quiet(s) && s.peers[p].waiting ==> Quiet(UnregisterNeedRelay(s, p))
    ensures PeerOk(s, p)
  {
    hide NoDup, DisableRelay;
    assert PeerOk(s, p);
    if s.peers[p].link {
      FreeLinkInv(if s.peers[p].relay then DisableRelay(s, p) else s, p);
    } else if s.peers[p].via != null {
      FreeRelayingInv(s, p);
    } else if s.peers[p].waiting {
      UnregisterInv(s, p);
    }
  }

  /** peer_need_relay, which its callers do not call for a relay */
  ghost function NeedRelay(s: State, p: Peer): (r: State)
    requires Inv(s) && p in s.peers && !s.peers[p].relay
    ensures Inv(r) && (Quiet(s) ==> Quiet(r)) && r.peers.Keys == s.peers.Keys
  {
    if s.peers[p].waiting then s
    else
      hide NoDup, FreeLink, FreeRelaying, Assigned;
      CleanupFacts(s, p);
      var t := if s.peers[p].link then FreeLink(s, p) else if s.peers[p].via != null then FreeRelaying(s, p) else s;
      FreedIsNew(s, p);
      RegisterInv(t, p);
      AssignInv(RegisterNeedRelay(t, p));
      AssignKeys(RegisterNeedRelay(t, p));
      Assign(RegisterNeedRelay(t, p))
  }

  /** Whoever waits when relays are assigned goes through the first of them, or waits on if there is none. */
  lemma ServedIfRelays(s: State, p: Peer)
    requires Inv(s) && p in s.peers && p in s.waiting && s.peers[p].waiting
    ensures p in Assign(s).peers
    ensures if s.relays == [] then Assign(s).peers[p].waiting
            else !Assign(s).peers[p].waiting && Assign(s).peers[p].via == s.relays[0] && Assign(s).peers[p].sink == s.relays[0]
  {
    AssignInv(s);
  }

  /** The peer goes through the first relay, or waits, and then there is no relay. */
  lemma NeededIsServed(s: State, p: Peer)
    requires Inv(s) && Quiet(s) && p in s.peers && !s.peers[p].relay
    ensures var r := NeedRelay(s, p);
      if s.relays == [] then r.peers[p].waiting
      else !r.peers[p].waiting && r.peers[p].via == s.relays[0] && r.peers[p].sink == s.relays[0]
  {
    hide NoDup, FreeLink, FreeRelaying, Assigned, Inv;
    CleanupFacts(s, p);
    if !s.peers[p].waiting {
      var t := if s.peers[p].link then FreeLink(s, p) else if s.peers[p].via != null then FreeRelaying(s, p) else s;
      FreedIsNew(s, p);
      RegisterInv(t, p);
      ServedIfRelays(RegisterNeedRelay(t, p), p);
    } else {
      WaitsListed(s, p);
    }
  }

  lemma WaitsListed(s: State, p: Peer)
    requires Inv(s) && p in s.peers && s.peers[p].waiting
    ensures p in s.waiting
  {
  }

  lemma FreedIsNew(s: State, p: Peer)
    requires Inv(s) && p in s.peers && !s.peers[p].relay && !s.peers[p].waiting
    requires s.peers[p].via != null ==> s.peers[p].via in s.peers
    ensures var t := if s.peers[p].link then FreeLink(s, p) else if s.peers[p].via != null then FreeRelaying(s, p) else s;
      Inv(t) && t.peers.Keys == s.peers.Keys && t.peers[p] == NEW_PEER && t.relays == s.relays
  {
    CleanupFacts(s, p);
  }

  // ---------------------------------------------------------------- runs

  /**
   * A peer is added, removed or reset; it gets a fresh link, if the link can be made; it needs a
   * relay; its link goes up or down. server is whether the peer may serve as a relay.
   */
  datatype Event = Add(p: Peer) | Remove(p: Peer) | Reset(p: Peer) | FreshLink(p: Peer, ok: bool) | Need(p: Peer)
                 | Up(p: Peer, server: bool) | Down(p: Peer)

  predicate Enabled(s: State, e: Event) {
    if e.Add? then e.p !in s.peers
    else e.p in s.peers && (e.Up? || e.Down? ==> s.peers[e.p].link)
  }

  ghost function Step(s: State, e: Event): State
    requires Inv(s) && Enabled(s, e)
  {
    match e
    case Add(p) => s.(peers := s.peers[p := NEW_PEER])
    case Remove(p) => var r := Cleanup(s, p); r.(peers := r.peers - {p})
    case Reset(p) => Cleanup(s, p)
    case FreshLink(p, ok) => if ok then InitLink(Cleanup(s, p), p) else Cleanup(s, p)
    case Need(p) => if s.peers[p].relay then s else NeedRelay(s, p)
    case Up(p, server) => if server && !s.peers[p].relay then EnableRelay(s, p) else s
    case Down(p) => if s.peers[p].relay then DisableRelay(s, p) else s
  }

  lemma AddInv(s: State, p: Peer)
    requires Inv(s) && p !in s.peers
    ensures Inv(s.(peers := s.peers[p := NEW_PEER]))
  {
    hide NoDup;
    EmptyNoDup<Peer>();
    var r := s.(peers := s.peers[p := NEW_PEER]);
    forall q | q in r.peers ensures PeerOk(r, q) {
      assert q != p ==> PeerOk(s, q);
    }
  }

  lemma RemoveInv(s: State, p: Peer)
    requires Inv(s) && p in s.peers && s.peers[p] == NEW_PEER
    ensures Inv(s.(peers := s.peers - {p}))
  {
    hide NoDup;
    assert PeerOk(s, p);
    var r := s.(peers := s.peers - {p});
    forall q | q in r.peers ensures PeerOk(r, q) {
      assert PeerOk(s, q);
    }
  }

  lemma StepInv(s: State, e: Event)
    requires Inv(s) && Quiet(s) && Enabled(s, e)
    ensures Inv(Step(s, e)) && Quiet(Step(s, e))
  {
    hide Inv;
    match e
    case Add(p) => AddInv(s, p);
    case Remove(p) => RemoveInv(Cleanup(s, p), p);
    case Reset(p) =>
    case FreshLink(p, ok) => InitLinkInv(Cleanup(s, p), p);
    case Need(p) =>
    case Up(p, server) =>
    case Down(p) =>
  }

  ghost predicate AllEnabled(s: State, es: seq<Event>)
    requires Inv(s) && Quiet(s)
    decreases |es|
  {
    es == [] || (Enabled(s, es[0]) && (StepInv(s, es[0]); AllEnabled(Step(s, es[0]), es[1..])))
  }

  ghost function Run(s: State, es: seq<Event>): State
    requires Inv(s) && Quiet(s) && AllEnabled(s, es)
    decreases |es|
  {
    if es == [] then s
    else
      StepInv(s, es[0]);
      Run(Step(s, es[0]), es[1..])
  }

  /**
   * In every run: no peer waits while there is a relay, and every peer is attached to exactly one
   * sink that exists, its own or that of a relay with a link of its own, unless it waits or has
   * only just been added or reset.
   */
  lemma {:induction false} RelaysStayConsistent(s: State, es: seq<Event>, p: Peer)
    requires Inv(s) && Quiet(s) && AllEnabled(s, es) && p in Run(s, es).peers
    ensures var r := Run(s, es); var st := r.peers[p];
      && Inv(r) && Quiet(r)
      && (st.link ==> st.sink == p)
      && (st.via != null ==> !st.link && st.via != p && st.sink == st.via && st.via in r.peers && r.peers[st.via].link && r.peers[st.via].via == null)
      && (st.waiting ==> st.sink == null && r.relays == [])
    decreases |es|
  {
    if es == [] {
      assert PeerOk(s, p);
      if s.peers[p].via != null {
        assert PeerOk(s, s.peers[p].via);
      }
    } else {
      StepInv(s, es[0]);
      RelaysStayConsistent(Step(s, es[0]), es[1..], p);
    }
  }

  lemma StartInv()
    ensures Inv(State(map[], [], [])) && Quiet(State(map[], [], []))
  {
  }

  // ---------------------------------------------------------------- the objects

  /** The part of the invariant about one peer, and its relay. */
  lemma About(s: State, p: Peer)
    requires Inv(s) && p in s.peers
    ensures PeerOk(s, p) && (s.peers[p].via != null ==> PeerOk(s, s.peers[p].via))
  {
    assert PeerOk(s, p);
    if s.peers[p].via != null {
      assert PeerOk(s, s.peers[p].via);
    }
  }

  class Client {
    var relays: seq<Peer>
    var waitingRelayPeers: seq<Peer>
    ghost var peers: map<Peer, PeerState>

    ghost function S(): State
      reads this
    {
      State(peers, relays, waitingRelayPeers)
    }

    static ghost function Of(p: Peer): PeerState
      reads p
    {
      PeerState(p.haveLink, p.isRelay, p.relayingPeer, p.waitingRelay, p.relayUsers, p.localSink)
    }

    ghost predicate Tied()
      reads `peers, peers.Keys
    {
      forall p :: p in peers ==> peers[p] == Of(p)
    }

    ghost predicate Valid()
      reads this, peers.Keys
    {
      Tied() && Inv(S())
    }

    constructor ()
      ensures Valid() && S() == State(map[], [], [])
    {
      relays, waitingRelayPeers, peers := [], [], map[];
      new;
      StartInv();
    }

    lemma Fields(p: Peer)
      requires Tied() && p in peers
      ensures peers[p] == Of(p)
    {
    }

    method Set(p: Peer, link: bool, relay: bool, via: Peer?, waiting: bool, users: seq<Peer>, sink: Peer?)
      requires Tied() && p in peers
      modifies `peers, p
      ensures Tied() && peers == old(peers)[p := PeerState(link, relay, via, waiting, users, sink)]
    {
      p.haveLink, p.isRelay, p.relayingPeer, p.waitingRelay, p.relayUsers, p.localSink := link, relay, via, waiting, users, sink;
      peers := peers[p := PeerState(link, relay, via, waiting, users, sink)];
    }

    /** peer_init_link, when the link can be made */
    method PeerInitLink(p: Peer)
      requires Valid() && p in peers && !p.haveLink && p.relayingPeer == null && !p.waitingRelay && !p.isRelay
      modifies `peers, p
      ensures Valid() && p in old(peers) && S() == InitLink(old(S()), p)
    {
      hide Inv, UsersOk, Tied;
      Fields(p);
      About(S(), p);
      InitLinkInv(S(), p);
      assert p.localSink == null;
      Set(p, true, p.isRelay, p.relayingPeer, p.waitingRelay, p.relayUsers, p);
    }

    method PeerFreeLink(p: Peer)
      requires Valid() && p in peers && p.haveLink && !p.isRelay && p.relayingPeer == null && !p.waitingRelay
      modifies `peers, p
      ensures Valid() && p in old(peers) && S() == FreeLink(old(S()), p)
    {
      hide Inv, UsersOk, Tied;
      Fields(p);
      About(S(), p);
      FreeLinkInv(S(), p);
      assert p.localSink == p;
      Set(p, false, p.isRelay, p.relayingPeer, p.waitingRelay, p.relayUsers, null);
    }

    method PeerFreeRelaying(p: Peer)
      requires Valid() && p in peers && p.relayingPeer != null && !p.haveLink && !p.waitingRelay
      modifies `peers, p, p.relayingPeer
      ensures Valid() && p in old(peers) && old(p.relayingPeer in peers && peers[p].via == p.relayingPeer)
      ensures S() == FreeRelaying(old(S()), p)
    {
      hide Inv, UsersOk, Tied, Without;
      Fields(p);
      About(S(), p);
      FreeRelayingInv(S(), p);
      var relay := p.relayingPeer;
      Fields(relay);
      assert relay.isRelay && relay.haveLink && relay != p;
      Set(p, p.haveLink, p.isRelay, null, p.waitingRelay, p.relayUsers, null);
      Set(relay, relay.haveLink, relay.isRelay, relay.relayingPeer, relay.waitingRelay, Without(relay.relayUsers, p), relay.localSink);
    }

    method PeerInstallRelaying(p: Peer, relay: Peer)
      requires Valid() && p in peers && relay in peers
      requires p.relayingPeer == null && !p.haveLink && !p.waitingRelay && relay.isRelay
      modifies `peers, p, relay
      ensures Valid() && p in old(peers) && relay in old(peers) && S() == InstallRelaying(old(S()), p, relay)
    {
      hide Inv, UsersOk, Tied;
      Fields(p);
      Fields(relay);
      About(S(), p);
      About(S(), relay);
      InstallRelayingInv(S(), p, relay);
      assert !p.isRelay && relay.haveLink && p.localSink == null;
      Set(p, p.haveLink, p.isRelay, relay, p.waitingRelay, p.relayUsers, relay);
      Set(relay, relay.haveLink, relay.isRelay, relay.relayingPeer, relay.waitingRelay, relay.relayUsers + [p], relay.localSink);
    }

    method PeerRegisterNeedRelay(p: Peer)
      requires Valid() && p in peers && !p.waitingRelay && !p.haveLink && p.relayingPeer == null && !p.isRelay
      modifies `peers, `waitingRelayPeers, p
      ensures Valid() && p in old(peers) && S() == RegisterNeedRelay(old(S()), p)
    {
      hide Inv, UsersOk, Tied;
      Fields(p);
      RegisterInv(S(), p);
      waitingRelayPeers := waitingRelayPeers + [p];
      Set(p, p.haveLink, p.isRelay, p.relayingPeer, true, p.relayUsers, p.localSink);
    }

    method PeerUnregisterNeedRelay(p: Peer)
      requires Valid() && p in peers && p.waitingRelay
      modifies `peers, `waitingRelayPeers, p
      ensures Valid() && p in old(peers) && S() == UnregisterNeedRelay(old(S()), p)
    {
      hide Inv, UsersOk, Tied, Without;
      Fields(p);
      About(S(), p);
      UnregisterInv(S(), p);
      assert !p.haveLink && p.relayingPeer == null && !p.isRelay;
      waitingRelayPeers := Without(waitingRelayPeers, p);
      Set(p, p.haveLink, p.isRelay, p.relayingPeer, false, p.relayUsers, p.localSink);
    }

    /** assign_relays */
    method AssignRelays()
      requires Valid()
      modifies `peers, `waitingRelayPeers, peers.Keys
      ensures Valid() && S() == Assign(old(S())) && peers.Keys == old(peers).Keys
    {
      hide Inv, UsersOk, Tied, Without;
      while waitingRelayPeers != []
        invariant Valid() && relays == old(relays) && peers.Keys == old(peers).Keys
        invariant Assign(S()) == Assign(old(S()))
        decreases |waitingRelayPeers|
      {
        var p := waitingRelayPeers[0];
        if relays == [] {
          return;
        }
        var relay := relays[0];
        AssignOneInv(S());
        About(S(), p);
        Fields(p);
        PeerUnregisterNeedRelay(p);
        Fields(p);
        Fields(relay);
        PeerInstallRelaying(p, relay);
      }
    }

    method PeerEnableRelayProvider(p: Peer)
      requires Valid() && p in peers && p.haveLink && !p.isRelay
      modifies `peers, `relays, `waitingRelayPeers, peers.Keys
      ensures Valid() && p in old(peers) && old(peers[p] == Of(p)) && S() == EnableRelay(old(S()), p)
    {
      hide Inv, UsersOk, Tied, Without, Assign;
      Fields(p);
      About(S(), p);
      UsersOfOthers(S(), p);
      assert p.relayingPeer == null && !p.waitingRelay;
      SetRelayInv(S(), p, true);
      relays := relays + [p];
      Set(p, p.haveLink, true, p.relayingPeer, p.waitingRelay, [], p.localSink);
      AssignRelays();
    }

    method PeerDisableRelayProvider(p: Peer)
      requires Valid() && p in peers && p.isRelay
      modifies `peers, `relays, `waitingRelayPeers, peers.Keys
      ensures Valid() && p in old(peers) && old(peers[p] == Of(p)) && S() == DisableRelay(old(S()), p)
    {
      hide Inv, UsersOk, Tied, Without, Assign;
      Fields(p);
      while p.relayUsers != []
        invariant Valid() && relays == old(relays) && peers.Keys == old(peers).Keys
        invariant p in peers && peers[p] == Of(p) && p.isRelay
        invariant DisconnectUsers(S(), p) == DisconnectUsers(old(S()), p)
        decreases |p.relayUsers|
      {
        var relayUser := p.relayUsers[0];
        DisconnectInv(S(), p);
        About(S(), relayUser);
        Fields(relayUser);
        assert relayUser.relayingPeer == p;
        PeerFreeRelaying(relayUser);
        Fields(relayUser);
        PeerRegisterNeedRelay(relayUser);
        Fields(p);
      }
      DisabledInv(S(), p);
      relays := Without(relays, p);
      Set(p, p.haveLink, false, p.relayingPeer, p.waitingRelay, [], p.localSink);
      AssignRelays();
    }

    method PeerCleanupConnections(p: Peer)
      requires Valid() && p in peers
      modifies `peers, `relays, `waitingRelayPeers, peers.Keys
      ensures Valid() && p in old(peers) && S() == Cleanup(old(S()), p) && peers[p] == Of(p)
    {
      hide Inv, UsersOk, Tied, Without, Assign, DisableRelay;
      Fields(p);
      About(S(), p);
      FreedKeepsKeys(S(), p);
      if p.haveLink {
        if p.isRelay {
          PeerDisableRelayProvider(p);
          Fields(p);
          About(S(), p);
        }
        PeerFreeLink(p);
      } else if p.relayingPeer != null {
        PeerFreeRelaying(p);
      } else if p.waitingRelay {
        PeerUnregisterNeedRelay(p);
      }
      Fields(p);
      assert !p.haveLink && p.relayingPeer == null && !p.waitingRelay && !p.isRelay;
    }

    method PeerNeedRelay(p: Peer)
      requires Valid() && p in peers && !p.isRelay
      modifies `peers, `waitingRelayPeers, peers.Keys
      ensures Valid() && p in old(peers) && old(peers[p] == Of(p)) && S() == NeedRelay(old(S()), p)
    {
      hide Inv, UsersOk, Tied, Without, Assign;
      Fields(p);
      About(S(), p);
      FreedKeepsKeys(S(), p);
      if p.waitingRelay {
        return;
      }
      FreedIsNew(S(), p);
      if p.haveLink {
        PeerFreeLink(p);
      } else if p.relayingPeer != null {
        PeerFreeRelaying(p);
      }
      Fields(p);
      PeerRegisterNeedRelay(p);
      AssignRelays();
    }

    /** peer_add, as far as it is about relays */
    method PeerAdd(p: Peer)
      requires Valid() && Quiet(S()) && p !in peers
      modifies `peers, p
      ensures Valid() && S() == Step(old(S()), Add(p))
    {
      hide Inv;
      AddInv(S(), p);
      p.haveLink, p.isRelay, p.relayingPeer, p.waitingRelay, p.relayUsers, p.localSink := false, false, null, false, [], null;
      peers := peers[p := NEW_PEER];
    }

    method PeerRemove(p: Peer)
      requires Valid() && Quiet(S()) && p in peers
      modifies `peers, `relays, `waitingRelayPeers, peers.Keys
      ensures Valid() && p in old(peers) && S() == Step(old(S()), Remove(p))
    {
      hide Inv, Cleanup;
      StepInv(S(), Remove(p));
      PeerCleanupConnections(p);
      peers := peers - {p};
    }

    /** How peer_bind_one_address and peer_connect begin; linkMade is whether peer_init_link succeeds. */
    method FreshLinkFor(p: Peer, linkMade: bool)
      requires Valid() && Quiet(S()) && p in peers
      modifies `peers, `relays, `waitingRelayPeers, peers.Keys
      ensures Valid() && p in old(peers) && S() == Step(old(S()), FreshLink(p, linkMade))
    {
      hide Inv, Cleanup, Tied;
      StepInv(S(), FreshLink(p, linkMade));
      PeerCleanupConnections(p);
      if linkMade {
        PeerInitLink(p);
      }
    }

    method PeerDataprotoHandler(p: Peer, up: bool, relayServer: bool)
      requires Valid() && Quiet(S()) && p in peers && p.haveLink
      modifies `peers, `relays, `waitingRelayPeers, peers.Keys
      ensures Valid() && p in old(peers) && Enabled(old(S()), if up then Up(p, relayServer) else Down(p))
      ensures S() == Step(old(S()), if up then Up(p, relayServer) else Down(p))
    {
      hide Inv, Tied, EnableRelay, DisableRelay;
      Fields(p);
      if up {
        if relayServer && !p.isRelay {
          PeerEnableRelayProvider(p);
        }
      } else {
        if p.isRelay {
          PeerDisableRelayProvider(p);
        }
      }
    }
  }

  lemma FreedKeepsKeys(s: State, p: Peer)
    requires Inv(s) && p in s.peers
    ensures s.peers[p].via != null ==> s.peers[p].via in s.peers && FreeRelaying(s, p).peers.Keys == s.peers.Keys
    ensures UnregisterNeedRelay(s, p).peers.Keys == s.peers.Keys && FreeLink(s, p).peers.Keys == s.peers.Keys
  {
    assert PeerOk(s, p);
  }

  lemma UsersOfOthers(s: State, p: Peer)
    requires Inv(s) && p in s.peers && !s.peers[p].relay
    ensures s.peers[p].users == []
  {
    assert PeerOk(s, p);
  }
}
