/**
 * The DHCP client as a state machine over time. A timer is a deadline in milliseconds; a run is
 * punctual, that is, time does not pass a deadline before the timer has been handled.
 */
module DHCPClientModel {
  import opened Bytes

  const RESET_TIMEOUT := 4000
  const REQUEST_TIMEOUT := 3000
  const RENEW_REQUEST_TIMEOUT := 20000
  const MAX_REQUESTS := 4
  const XID_REUSE_MAX := 8

  function RenewTimeout(lease: nat): nat {
    500 * lease
  }

  function LeaseTimeout(lease: nat): nat {
    1000 * lease - RenewTimeout(lease)
  }

  datatype Phase = Resetting | SentDiscover | SentRequest | Finished | Renewing

  datatype Timers = Timers(reset: Option<nat>, request: Option<nat>, renew: Option<nat>, renewRequest: Option<nat>, lease: Option<nat>)

  const NO_TIMERS := Timers(None, None, None, None, None)

  datatype Kind = Offer | Ack | Nak

  /** What is left of a received message after the checks of its header and its options. */
  datatype Reply = Reply(kind: Kind, server: uint32, yiaddr: uint32, lease: Option<uint32>, mask: Option<uint32>,
                         router: Option<uint32>, dns: seq<uint32>)

  datatype Acked = Acked(lease: uint32, mask: uint32, router: Option<uint32>, dns: seq<uint32>)

  /** Discover is sent with nothing, a request with an address and in some cases with a server. */
  datatype Message = Message(discover: bool, xid: nat, address: Option<nat>, server: Option<nat>)

  datatype Offered = Offered(yiaddr: nat, server: nat)

  /**
   * What has happened: the messages sent, the events reported, true for up, and when the last offer
   * and acknowledgement were taken.
   */
  datatype Log = Log(sent: seq<Message>, reports: seq<bool>, offeredAt: nat, ackedAt: nat)

  datatype Client = Client(phase: Phase, requestCount: nat, xid: nat, xidUses: nat, offered: Offered, acked: Acked,
                           timers: Timers, sending: bool, now: nat, log: Log)

  /** send_message, which drops the message while another is being sent */
  function Send(s: Client, m: Message): Client {
    if s.sending then s else s.(sending := true, log := s.log.(sent := s.log.sent + [m]))
  }

  /** start_process; random is the transaction id that is generated if a new one is wanted. */
  function StartProcess(s: Client, forceNewXid: bool, random: nat): Client {
    var newXid := forceNewXid || s.xidUses == XID_REUSE_MAX;
    var r := s.(xid := if newXid then random else s.xid, xidUses := if newXid then 1 else s.xidUses + 1);
    Send(r, Message(true, r.xid, None, None))
      .(timers := r.timers.(reset := Some(s.now + RESET_TIMEOUT)), phase := SentDiscover)
  }

  function Start(now: nat, random: nat): Client {
    StartProcess(Client(Resetting, 0, 0, 0, Offered(0, 0), Acked(0, 0, None, []), NO_TIMERS, false, now, Log([], [], 0, 0)), true, random)
  }

  predicate Up(s: Client) {
    s.phase.Finished? || s.phase.Renewing?
  }

  function Report(s: Client, up: bool): Log {
    s.log.(reports := s.log.reports + [up])
  }

  function ReceiveNak(s: Client, reply: Reply): Client {
    if s.phase.SentDiscover? || reply.server != s.offered.server then s
    else
      s.(timers := NO_TIMERS.(reset := Some(s.now + RESET_TIMEOUT)), phase := Resetting,
         log := if Up(s) then Report(s, false) else s.log)
  }

  function TakeOffer(s: Client, reply: Reply): Client {
    var r := Send(s, Message(false, s.xid, Some(reply.yiaddr), Some(reply.server)));
    r.(offered := Offered(reply.yiaddr, reply.server), timers := NO_TIMERS.(request := Some(s.now + REQUEST_TIMEOUT)),
       phase := SentRequest, requestCount := 1, log := r.log.(offeredAt := s.now))
  }

  /** An acknowledgement: the first one brings all parameters, the others only a new lease. */
  function TakeAck(s: Client, reply: Reply): Client
    requires reply.lease.Some? && reply.mask.Some?
  {
    s.(acked := if s.phase.SentRequest? then Acked(reply.lease.value, reply.mask.value, reply.router, reply.dns)
                else s.acked.(lease := reply.lease.value),
       timers := NO_TIMERS.(renew := Some(s.now + RenewTimeout(reply.lease.value))), phase := Finished,
       log := (if s.phase.SentRequest? then Report(s, true) else s.log).(ackedAt := s.now))
  }

  /** recv_handler_done, once the message is read */
  function Receive(s: Client, reply: Reply): Client {
    if s.phase.Resetting? then s
    else if reply.kind.Nak? then ReceiveNak(s, reply)
    else if reply.yiaddr == 0 || reply.lease.None? || reply.mask.None? then s
    else if s.phase.SentDiscover? && reply.kind.Offer? then TakeOffer(s, reply)
    else if reply.kind.Ack? && Offered(reply.yiaddr, reply.server) == s.offered && (s.phase.SentRequest? || s.phase.Renewing?) then
      TakeAck(s, reply)
    else s
  }

  datatype Timer = ResetTimer | RequestTimer | RenewTimer | RenewRequestTimer | LeaseTimer

  function Deadline(t: Timers, which: Timer): Option<nat> {
    match which
    case ResetTimer => t.reset
    case RequestTimer => t.request
    case RenewTimer => t.renew
    case RenewRequestTimer => t.renewRequest
    case LeaseTimer => t.lease
  }

  /** The handlers of the timers; the timer that fires is not running then. */
  function Fire(s: Client, which: Timer, random: nat): Client {
    var t := s.timers;
    match which
    case ResetTimer => StartProcess(s.(timers := t.(reset := None)), s.phase.Resetting?, random)
    case RequestTimer =>
      var r := s.(timers := t.(request := None));
      if s.requestCount == MAX_REQUESTS then StartProcess(r, false, random)
      else
        Send(r, Message(false, s.xid, Some(s.offered.yiaddr), Some(s.offered.server)))
          .(timers := t.(request := Some(s.now + REQUEST_TIMEOUT)), requestCount := s.requestCount + 1)
    case RenewTimer =>
      Send(s, Message(false, s.xid, Some(s.offered.yiaddr), None))
        .(timers := t.(renew := None, renewRequest := Some(s.now + RENEW_REQUEST_TIMEOUT),
                       lease := Some(s.now + LeaseTimeout(s.acked.lease))), phase := Renewing)
    case RenewRequestTimer =>
      Send(s, Message(false, s.xid, Some(s.offered.yiaddr), None))
        .(timers := t.(renewRequest := Some(s.now + RENEW_REQUEST_TIMEOUT)))
    case LeaseTimer =>
      var r := StartProcess(s.(timers := t.(lease := None, renewRequest := None)), true, random);
      r.(log := Report(r, false))
  }

  /** Something happens at a time. A message that is not understood is received as no reply. */
  datatype Event = Received(now: nat, reply: Option<Reply>) | Fired(now: nat, which: Timer, random: nat) | SendDone(now: nat)

  ghost predicate Enabled(s: Client, e: Event) {
    && s.now <= e.now
    && (forall w :: Deadline(s.timers, w).Some? ==> e.now <= Deadline(s.timers, w).value)
    && (e.Fired? ==> Deadline(s.timers, e.which) == Some(e.now))
    && (e.SendDone? ==> s.sending)
  }

  function Step(s: Client, e: Event): Client {
    var r := s.(now := e.now);
    match e
    case Received(_, reply) => if reply.None? then r else Receive(r, reply.value)
    case Fired(_, which, random) => Fire(r, which, random)
    case SendDone(_) => r.(sending := false)
  }

  // ---------------------------------------------------------------- the invariant

  /** Each phase has its own timers running and no others. */
  predicate OnlyTimers(phase: Phase, t: Timers) {
    match phase
    case Resetting => t.reset.Some? && t == NO_TIMERS.(reset := t.reset)
    case SentDiscover => t.reset.Some? && t == NO_TIMERS.(reset := t.reset)
    case SentRequest => t.request.Some? && t == NO_TIMERS.(request := t.request)
    case Finished => t.renew.Some? && t == NO_TIMERS.(renew := t.renew)
    case Renewing => t.renewRequest.Some? && t.lease.Some? && t == NO_TIMERS.(renewRequest := t.renewRequest, lease := t.lease)
  }

  /** Their deadlines are not past, and those of requests and of the lease count from what they are for. */
  predicate TimersOk(s: Client) {
    && OnlyTimers(s.phase, s.timers)
    && match s.phase
       case Resetting => s.now <= s.timers.reset.value
       case SentDiscover => s.now <= s.timers.reset.value
       case SentRequest => s.now <= s.timers.request.value == s.log.offeredAt + REQUEST_TIMEOUT * s.requestCount
       case Finished => s.now <= s.timers.renew.value == s.log.ackedAt + RenewTimeout(s.acked.lease)
       case Renewing => s.now <= s.timers.renewRequest.value && s.now <= s.timers.lease.value == s.log.ackedAt + 1000 * s.acked.lease
  }

  /** The reports are up, down, up, ... */
  predicate Alternate(reports: seq<bool>) {
    forall i :: 0 <= i < |reports| ==> reports[i] == (i % 2 == 0)
  }

  predicate Inv(s: Client) {
    && TimersOk(s)
    && (s.phase.SentRequest? ==> 1 <= s.requestCount <= MAX_REQUESTS)
    && 1 <= s.xidUses <= XID_REUSE_MAX
    && Alternate(s.log.reports) && (Up(s) <==> |s.log.reports| % 2 == 1)
  }

  lemma StartInv(now: nat, random: nat)
    ensures Inv(Start(now, random))
  {
  }

  /** The deadlines that time has not passed, one by one. */
  lemma Deadlines(s: Client, e: Event)
    requires Enabled(s, e)
    ensures s.timers.reset.Some? ==> e.now <= s.timers.reset.value
    ensures s.timers.request.Some? ==> e.now <= s.timers.request.value
    ensures s.timers.renew.Some? ==> e.now <= s.timers.renew.value
    ensures s.timers.renewRequest.Some? ==> e.now <= s.timers.renewRequest.value
    ensures s.timers.lease.Some? ==> e.now <= s.timers.lease.value
  {
    assert Deadline(s.timers, ResetTimer) == s.timers.reset && Deadline(s.timers, RequestTimer) == s.timers.request;
    assert Deadline(s.timers, RenewTimer) == s.timers.renew && Deadline(s.timers, LeaseTimer) == s.timers.lease;
    assert Deadline(s.timers, RenewRequestTimer) == s.timers.renewRequest;
  }

  lemma AlternateMore(reports: seq<bool>)
    requires Alternate(reports)
    ensures Alternate(reports + [|reports| % 2 == 0])
  {
  }

  lemma ReceiveInv(s: Client, reply: Reply)
    requires Inv(s)
    ensures Inv(Receive(s, reply))
  {
    hide Alternate;
    AlternateMore(s.log.reports);
  }

  /** Once its time has come, a timer is running in one phase only, or in two for the reset timer. */
  lemma FireInv(s: Client, which: Timer, random: nat)
    requires Inv(s) && Deadline(s.timers, which) == Some(s.now)
    ensures Inv(Fire(s, which, random))
    ensures match which
      case ResetTimer => s.phase.Resetting? || s.phase.SentDiscover?
      case RequestTimer => s.phase.SentRequest? && 1 <= s.requestCount <= MAX_REQUESTS
      case RenewTimer => s.phase.Finished?
      case _ => s.phase.Renewing?
  {
    hide Alternate;
    AlternateMore(s.log.reports);
  }

  /** What the handler of a timer may rely on. */
  lemma Firing(s: Client, now: nat, which: Timer, random: nat)
    requires Inv(s) && Enabled(s, Fired(now, which, random))
    ensures OnlyTimers(s.phase, s.timers)
    ensures match which
      case ResetTimer => s.phase.Resetting? || s.phase.SentDiscover?
      case RequestTimer => s.phase.SentRequest? && 1 <= s.requestCount <= MAX_REQUESTS
      case RenewTimer => s.phase.Finished?
      case _ => s.phase.Renewing?
  {
  }

  lemma StepInv(s: Client, e: Event)
    requires Inv(s) && Enabled(s, e)
    ensures Inv(Step(s, e))
  {
    hide Alternate, Receive, Fire;
    Deadlines(s, e);
    var r := s.(now := e.now);
    match e
    case Received(_, reply) => if reply.Some? { ReceiveInv(r, reply.value); }
    case Fired(_, which, random) => FireInv(r, which, random);
    case SendDone(_) =>
  }

  ghost predicate AllEnabled(s: Client, es: seq<Event>)
    decreases |es|
  {
    es == [] || (Enabled(s, es[0]) && AllEnabled(Step(s, es[0]), es[1..]))
  }

  function Run(s: Client, es: seq<Event>): Client
    decreases |es|
  {
    if es == [] then s else Run(Step(s, es[0]), es[1..])
  }

  /**
   * In every punctual run: up and down are reported in turn, the last report says whether the client
   * is up, and it is up only until the lease it was last given is over, counted from the
   * acknowledgement.
   */
  lemma {:induction false} LeaseIsKept(s: Client, es: seq<Event>)
    requires Inv(s) && AllEnabled(s, es)
    ensures var r := Run(s, es);
      && Inv(r)
      && (r.log.reports != [] ==> (r.log.reports[|r.log.reports| - 1] <==> Up(r))) && (r.log.reports == [] ==> !Up(r))
      && (Up(r) ==> r.now <= r.log.ackedAt + 1000 * r.acked.lease)
      && (r.phase.SentRequest? ==> r.now <= r.log.offeredAt + REQUEST_TIMEOUT * MAX_REQUESTS)
    decreases |es|
  {
    if es != [] {
      StepInv(s, es[0]);
      LeaseIsKept(Step(s, es[0]), es[1..]);
    }
  }

  /** The request goes out at time 0 and is acknowledged after d milliseconds; nothing else is sent. */
  function LateAck(d: nat, offer: Reply, lease: uint32): seq<Event> {
    [SendDone(0)] + ([Received(0, Some(offer))] + ([Received(d, Some(offer.(kind := Ack)))] +
    ([Fired(d + RenewTimeout(lease), RenewTimer, 0)] + ([Received(d + 1000 * lease, None)] + []))))
  }

  lemma OneMore(s: Client, e: Event, r: Client, es: seq<Event>)
    requires Enabled(s, e) && Step(s, e) == r
    ensures AllEnabled(r, es) ==> AllEnabled(s, [e] + es) && Run(s, [e] + es) == Run(r, es)
  {
    assert ([e] + es)[1..] == es;
  }

  /**
   * Section 4.4.5 of RFC 2131 counts the lease from the request instead. So the client can be up
   * after the lease is over for the server, by as long as the acknowledgement took.
   */
  lemma LeaseOutlastsRequest(random: nat, d: nat, offer: Reply, lease: uint32)
    requires d <= REQUEST_TIMEOUT && offer.kind.Offer? && offer.yiaddr != 0 && offer.mask.Some?
    requires offer.lease == Some(lease) && lease <= 40
    ensures var es, s := LateAck(d, offer, lease), Start(0, random); var r := Run(s, es);
      && AllEnabled(s, es) && Up(r) && r.now == d + 1000 * lease
      && r.log.sent == [Message(true, random, None, None), Message(false, random, Some(offer.yiaddr), Some(offer.server))]
      && r.log.offeredAt == 0
  {
    hide AllEnabled, Run, Enabled, Step, Start;
    var s0 := Start(0, random);
    var s3 := LateAckTaken(random, d, offer, lease);
    var s4, s5 := LateAckRenewed(random, d, offer, lease, s3);
    var e1, e2, e3 := SendDone(0), Received(0, Some(offer)), Received(d, Some(offer.(kind := Ack)));
    var e4, e5 := Fired(d + RenewTimeout(lease), RenewTimer, 0), Received(d + 1000 * lease, None);
    var s1, s2 := Step(s0, e1), Step(Step(s0, e1), e2);
    NoMore(s5);
    OneMore(s4, e5, s5, []);
    OneMore(s3, e4, s4, [e5] + []);
    OneMore(s2, e3, s3, [e4] + ([e5] + []));
    OneMore(s1, e2, s2, [e3] + ([e4] + ([e5] + [])));
    OneMore(s0, e1, s1, [e2] + ([e3] + ([e4] + ([e5] + []))));
  }

  lemma LateAckTaken(random: nat, d: nat, offer: Reply, lease: uint32) returns (r: Client)
    requires d <= REQUEST_TIMEOUT && offer.kind.Offer? && offer.yiaddr != 0 && offer.mask.Some? && offer.lease == Some(lease)
    ensures var e1, e2, e3 := SendDone(0), Received(0, Some(offer)), Received(d, Some(offer.(kind := Ack)));
      var s0 := Start(0, random); var s1 := Step(s0, e1); var s2 := Step(s1, e2);
      Enabled(s0, e1) && Enabled(s1, e2) && Enabled(s2, e3) && r == Step(s2, e3)
    ensures r.phase.Finished? && r.now == d && r.sending && r.timers == NO_TIMERS.(renew := Some(d + RenewTimeout(lease)))
    ensures r.acked.lease == lease && r.log.offeredAt == 0
    ensures r.log.sent == [Message(true, random, None, None), Message(false, random, Some(offer.yiaddr), Some(offer.server))]
  {
    r := Step(Step(Step(Start(0, random), SendDone(0)), Received(0, Some(offer))), Received(d, Some(offer.(kind := Ack))));
  }

  lemma LateAckRenewed(random: nat, d: nat, offer: Reply, lease: uint32, s: Client) returns (t: Client, r: Client)
    requires s.phase.Finished? && s.now == d && s.sending && s.timers == NO_TIMERS.(renew := Some(d + RenewTimeout(lease)))
    requires s.acked.lease == lease && lease <= 40
    ensures var e4, e5 := Fired(d + RenewTimeout(lease), RenewTimer, 0), Received(d + 1000 * lease, None);
      Enabled(s, e4) && t == Step(s, e4) && Enabled(t, e5) && r == Step(t, e5)
    ensures Up(r) && r.now == d + 1000 * lease && r.log == s.log
  {
    t := Step(s, Fired(d + RenewTimeout(lease), RenewTimer, 0));
    r := Step(t, Received(d + 1000 * lease, None));
  }

  lemma NoMore(s: Client)
    ensures AllEnabled(s, []) && Run(s, []) == s
  {
  }

  /** What the user may ask for while the client is up, except for the time of the lease. */
  predicate SameConfiguration(s: Client, r: Client) {
    r.offered == s.offered && r.acked == s.acked.(lease := r.acked.lease)
  }

  lemma {:induction false} ReportsGrow(s: Client, es: seq<Event>)
    ensures |s.log.reports| <= |Run(s, es).log.reports|
    decreases |es|
  {
    if es != [] {
      ReportsGrow(Step(s, es[0]), es[1..]);
    }
  }

  /** As long as nothing is reported, the client stays up with the same address and parameters. */
  lemma {:induction false} ConstantWhileUp(s: Client, es: seq<Event>)
    requires Inv(s) && Up(s) && AllEnabled(s, es) && |Run(s, es).log.reports| == |s.log.reports|
    ensures Up(Run(s, es)) && SameConfiguration(s, Run(s, es))
    decreases |es|
  {
    if es != [] {
      var r := Step(s, es[0]);
      StepInv(s, es[0]);
      ReportsGrow(r, es[1..]);
      UpStep(s, es[0]);
      ConstantWhileUp(r, es[1..]);
    }
  }

  lemma UpStep(s: Client, e: Event)
    requires Inv(s) && Up(s) && Enabled(s, e)
    ensures var r := Step(s, e);
      if Up(r) then r.log.reports == s.log.reports && SameConfiguration(s, r) else r.log.reports == s.log.reports + [false]
  {
    assert Deadline(s.timers, ResetTimer) == s.timers.reset && Deadline(s.timers, RequestTimer) == s.timers.request;
  }
}
