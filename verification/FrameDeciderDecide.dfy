/**
 * Which peers a frame of the local device goes to: one decision for each frame, and the
 * destinations one by one. Peers, the MAC tree and the lists of group entries are those of the
 * other two halves; here they stay as they are.
 */
module FrameDeciderDecide {
  import opened Lists
  import opened MulticastModel

  const BROADCAST := Mac(0xFF, 0xFF, 0xFF, 0xFF, 0xFF, 0xFF)

  /** The peers in the order they were added, who owns which MAC, and the entries of each signature. */
  datatype Tables<P> = Tables(peers: seq<P>, owner: map<Mac, P>, chains: map<Sig, seq<Entry<P>>>)

  /**
   * Broadcast and IGMP frames go to all peers, multicast frames to those that have joined a group
   * with the signature, and other frames to the peer that owns the address, or to all if none does.
   */
  function FrameDestinations<P>(t: Tables<P>, dest: Mac, isIgmp: bool): seq<P> {
    if isIgmp || dest == BROADCAST then t.peers
    else if IsMulticast(dest) then (if SigOfMac(dest) in t.chains then PeersOf(t.chains[SigOfMac(dest)]) else [])
    else if dest in t.owner then [t.owner[dest]]
    else t.peers
  }

  /** DECIDE_STATE_NONE, DECIDE_STATE_UNICAST, DECIDE_STATE_FLOOD, DECIDE_STATE_MULTICAST */
  datatype DecideState = None | Unicast | Flood | Multicast

  class Decider<P(==)> {
    const tables: Tables<P>
    var decideState: DecideState
    // what follows decide_flood_current on the list of peers, decide_unicast_peer, and what is left of the iterator
    var floodPeers: seq<P>
    var unicastPeer: seq<P>
    var multicastEntries: seq<Entry<P>>

    constructor (tables: Tables<P>)
      ensures this.tables == tables && Pending() == [] && decideState == None && Valid()
    {
      this.tables := tables;
      decideState, floodPeers, unicastPeer, multicastEntries := None, [], [], [];
    }

    ghost predicate Valid()
      reads this
    {
      decideState == Unicast ==> |unicastPeer| == 1
    }

    /** The destinations still to be returned. */
    function Pending(): seq<P>
      reads this
    {
      match decideState
      case None => []
      case Unicast => unicastPeer
      case Flood => floodPeers
      case Multicast => PeersOf(multicastEntries)
    }

    /** The decision of FrameDecider_AnalyzeAndDecide, after the frame before has been drained */
    method AnalyzeAndDecide(dest: Mac, isIgmp: bool)
      requires Valid() && decideState != Multicast
      modifies this
      ensures Valid() && Pending() == FrameDestinations(tables, dest, isIgmp)
    {
      decideState := None;
      floodPeers := [];
      if isIgmp || dest == BROADCAST {
        decideState := Flood;
        floodPeers := tables.peers;
        return;
      }
      if IsMulticast(dest) {
        var sig := SigOfMac(dest);
        if sig in tables.chains {
          decideState := Multicast;
          multicastEntries := tables.chains[sig];
        }
        return;
      }
      if dest in tables.owner {
        decideState := Unicast;
        unicastPeer := [tables.owner[dest]];
        return;
      }
      decideState := Flood;
      floodPeers := tables.peers;
    }

    /** FrameDecider_NextDestination; the result is empty when there is no further destination. */
    method NextDestination() returns (next: seq<P>)
      requires Valid()
      modifies this
      ensures Valid()
      ensures if old(Pending()) == [] then next == [] && Pending() == [] && decideState == None
              else next == [old(Pending())[0]] && Pending() == old(Pending())[1..]
    {
      match decideState
      case None =>
        next := [];
      case Unicast =>
        decideState := None;
        next := unicastPeer;
      case Flood =>
        if floodPeers == [] {
          decideState := None;
          return [];
        }
        next := [floodPeers[0]];
        floodPeers := floodPeers[1..];
      case Multicast =>
        if multicastEntries == [] {
          decideState := None;
          return [];
        }
        next := [multicastEntries[0].peer];
        assert PeersOf(multicastEntries)[1..] == PeersOf(multicastEntries[1..]);
        multicastEntries := multicastEntries[1..];
    }

    /**
     * device_dpsource_handler: the frame is routed to each destination in turn, and each time it is
     * said whether there is another one. The decider is drained, so that the next frame can be decided.
     */
    method RouteFrame(dest: Mac, isIgmp: bool) returns (routed: seq<(P, bool)>)
      requires Valid() && decideState != Multicast
      modifies this
      ensures Valid() && decideState == None
      ensures var ds := FrameDestinations(tables, dest, isIgmp);
        && |routed| == |ds|
        && forall i :: 0 <= i < |ds| ==> routed[i] == (ds[i], i + 1 < |ds|)
    {
      hide FrameDestinations, Pending, Valid;
      ghost var ds := FrameDestinations(tables, dest, isIgmp);
      routed := [];
      AnalyzeAndDecide(dest, isIgmp);
      var peer := NextDestination();
      while peer != []
        invariant Valid() && |routed| <= |ds| && forall i :: 0 <= i < |routed| ==> routed[i] == (ds[i], i + 1 < |ds|)
        invariant peer == (if |routed| < |ds| then [ds[|routed|]] else [])
        invariant Pending() == (if |routed| < |ds| then ds[|routed| + 1..] else [])
        invariant peer == [] ==> decideState == None
        decreases |ds| - |routed|
      {
        var next := NextDestination();
        routed := routed + [(peer[0], next != [])];
        peer := next;
      }
    }
  }

  /** A frame to a group goes exactly to the peers that have a group with its last 23 bits. */
  lemma GroupFramesReachMembers<P>(max: nat, w: Index<P>, t: Tables<P>, g: Group, p: P)
    requires Inv(max, w) && t.chains == w.chains && p in w.peers
    ensures Times(FrameDestinations(t, MacOfGroup(g), false), p) == |GroupsWith(w, p, SigOfGroup(g))|
    ensures p in FrameDestinations(t, MacOfGroup(g), false) <==> exists o :: o in w.peers[p].used && SigOfGroup(o) == SigOfGroup(g)
  {
    GroupFramesHaveItsSig(g);
    assert MacOfGroup(g) != BROADCAST;
    MulticastIsExact(max, w, [], SigOfGroup(g), p);
    var ds := FrameDestinations(t, MacOfGroup(g), false);
    TimesPositive(ds, p);
    assert forall o :: o in GroupsWith(w, p, SigOfGroup(g)) <==> o in w.peers[p].used && SigOfGroup(o) == SigOfGroup(g);
    if p !in ds {
      assert GroupsWith(w, p, SigOfGroup(g)) == {};
    }
  }

  lemma {:induction false} TimesPositive<P>(ps: seq<P>, p: P)
    ensures Times(ps, p) > 0 <==> p in ps
  {
    if ps != [] {
      TimesPositive(ps[1..], p);
      assert ps == [ps[0]] + ps[1..];
    }
  }
}
