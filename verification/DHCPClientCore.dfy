/** The DHCP client: the fields of BDHCPClientCore and the handlers that change them. */
module DHCPClientCore {
  import opened Bytes
  import opened DHCPClientModel
  import opened DHCPMessages

  class ClientCore {
    const clientMacAddr: seq<byte>
    var state: Phase
    var requestCount: nat
    var xid: nat
    var xidReuseCounter: nat
    var offered: Offered
    var acked: Acked
    var sending: bool
    // the deadlines of the timers that are running
    var timers: Timers
    ghost var now: nat
    ghost var log: Log

    ghost function View(): Client
      reads this
    {
      Client(state, requestCount, xid, xidReuseCounter, offered, acked, timers, sending, now, log)
    }

    constructor (clientMacAddr: seq<byte>, time: nat, random: nat)
      ensures Inv(View()) && View() == Start(time, random) && this.clientMacAddr == clientMacAddr
    {
      this.clientMacAddr := clientMacAddr;
      state, requestCount, xid, xidReuseCounter := Resetting, 0, 0, 0;
      offered, acked, sending, timers := Offered(0, 0), Acked(0, 0, None, []), false, NO_TIMERS;
      now, log := time, Log([], [], 0, 0);
      new;
      StartProcess(true, random, time);
      StartInv(time, random);
    }

    method SendMessage(discover: bool, address: Option<nat>, server: Option<nat>)
      modifies `sending, `log
      ensures View() == Send(old(View()), Message(discover, xid, address, server))
    {
      if sending {
        return;
      }
      log := log.(sent := log.sent + [Message(discover, xid, address, server)]);
      sending := true;
    }

    method StartProcess(forceNewXid: bool, random: nat, time: nat)
      requires time == now
      modifies this
      ensures View() == DHCPClientModel.StartProcess(old(View()), forceNewXid, random)
    {
      if forceNewXid || xidReuseCounter == XID_REUSE_MAX {
        xid := random;
        xidReuseCounter := 0;
      }
      xidReuseCounter := xidReuseCounter + 1;
      SendMessage(true, None, None);
      timers := timers.(reset := Some(time + RESET_TIMEOUT));
      state := SentDiscover;
    }

    method SendHandlerDone(time: nat)
      requires Inv(View()) && Enabled(View(), SendDone(time))
      modifies this
      ensures Inv(View()) && View() == Step(old(View()), SendDone(time))
    {
      StepInv(View(), SendDone(time));
      now := time;
      sending := false;
    }

    /** recv_handler_done */
    method RecvHandlerDone(data: seq<byte>, time: nat)
      requires Inv(View()) && Enabled(View(), Received(time, ReadReply(xid, clientMacAddr, data)))
      modifies this
      ensures Inv(View())
      ensures View() == Step(old(View()), Received(time, old(ReadReply(xid, clientMacAddr, data))))
    {
      hide Inv, Enabled, Walk, HeaderOk, RenewTimeout, DHCPClientModel.ReceiveNak;
      ghost var reply := ReadReply(xid, clientMacAddr, data);
      StepInv(View(), Received(time, reply));
      HeaderLength(xid, clientMacAddr, data);
      Running(View());
      now := time;
      if state.Resetting? {
        return;
      }
      if !HeaderOk(xid, clientMacAddr, data) {
        return;
      }
      var found := ReadOptions(data[HEADER..]);
      if found.None? || found.value.messageType.None? {
        return;
      }
      var f, messageType := found.value, found.value.messageType.value;
      if messageType != 2 && messageType != 5 && messageType != 6 {
        return;
      }
      if f.server.None? {
        return;
      }
      if messageType == 6 {
        ReceiveNak(f.server.value, time, reply.value);
        return;
      }
      var yiaddr := Raw32(data[16..20]);
      if yiaddr == 0 || f.lease.None? || f.mask.None? {
        return;
      }
      if state.SentDiscover? && messageType == 2 {
        TakeOffer(yiaddr, f.server.value, time, reply.value);
      } else if state.SentRequest? && messageType == 5 {
        if yiaddr != offered.yiaddr || f.server.value != offered.server {
          return;
        }
        acked := Acked(f.lease.value, f.mask.value, f.router, f.dns);
        timers := timers.(request := None);
        timers := timers.(renew := Some(time + RenewTimeout(acked.lease)));
        state := Finished;
        log := log.(ackedAt := time);
        log := log.(reports := log.reports + [true]);
      } else if state.Renewing? && messageType == 5 {
        if yiaddr != offered.yiaddr || f.server.value != offered.server {
          return;
        }
        acked := acked.(lease := f.lease.value);
        timers := timers.(renewRequest := None);
        timers := timers.(lease := None);
        timers := timers.(renew := Some(time + RenewTimeout(acked.lease)));
        state := Finished;
        log := log.(ackedAt := time);
      }
    }

    method ReceiveNak(server: uint32, time: nat, ghost reply: Reply)
      requires !state.Resetting? && OnlyTimers(state, timers) && time == now && reply.server == server
      modifies this
      ensures View() == DHCPClientModel.ReceiveNak(old(View()), reply)
    {
      if !state.SentRequest? && !state.Finished? && !state.Renewing? {
        return;
      }
      if server != offered.server {
        return;
      }
      if state.SentRequest? {
        timers := timers.(request := None);
        timers := timers.(reset := Some(time + RESET_TIMEOUT));
        state := Resetting;
      } else if state.Finished? {
        timers := timers.(renew := None);
        timers := timers.(reset := Some(time + RESET_TIMEOUT));
        state := Resetting;
        log := log.(reports := log.reports + [false]);
      } else {
        timers := timers.(renewRequest := None);
        timers := timers.(lease := None);
        timers := timers.(reset := Some(time + RESET_TIMEOUT));
        state := Resetting;
        log := log.(reports := log.reports + [false]);
      }
    }

    method TakeOffer(yiaddr: uint32, server: uint32, time: nat, ghost reply: Reply)
      requires state.SentDiscover? && OnlyTimers(state, timers) && time == now && reply.kind.Offer?
      requires reply.yiaddr == yiaddr != 0 && reply.server == server && reply.lease.Some? && reply.mask.Some?
      modifies this
      ensures View() == DHCPClientModel.TakeOffer(old(View()), reply)
    {
      offered := Offered(yiaddr, server);
      SendMessage(false, Some(offered.yiaddr), Some(offered.server));
      timers := timers.(reset := None);
      timers := timers.(request := Some(time + REQUEST_TIMEOUT));
      state := SentRequest;
      requestCount := 1;
      log := log.(offeredAt := time);
    }

    // ---------------------------------------------------------------- timers

    method ResetTimerHandler(random: nat, time: nat)
      requires Inv(View()) && Enabled(View(), Fired(time, ResetTimer, random))
      modifies this
      ensures Inv(View()) && View() == Step(old(View()), Fired(time, ResetTimer, random))
    {
      hide Inv, Enabled, DHCPClientModel.StartProcess;
      StepInv(View(), Fired(time, ResetTimer, random));
      Firing(View(), time, ResetTimer, random);
      assert state.Resetting? || state.SentDiscover?;
      now := time;
      timers := timers.(reset := None);
      StartProcess(state.Resetting?, random, time);
    }

    method RequestTimerHandler(random: nat, time: nat)
      requires Inv(View()) && Enabled(View(), Fired(time, RequestTimer, random))
      modifies this
      ensures Inv(View()) && View() == Step(old(View()), Fired(time, RequestTimer, random))
    {
      hide Inv, Enabled, DHCPClientModel.StartProcess;
      StepInv(View(), Fired(time, RequestTimer, random));
      Firing(View(), time, RequestTimer, random);
      assert state.SentRequest? && 1 <= requestCount <= MAX_REQUESTS;
      now := time;
      timers := timers.(request := None);
      if requestCount == MAX_REQUESTS {
        StartProcess(false, random, time);
        return;
      }
      SendMessage(false, Some(offered.yiaddr), Some(offered.server));
      timers := timers.(request := Some(time + REQUEST_TIMEOUT));
      requestCount := requestCount + 1;
    }

    method RenewTimerHandler(random: nat, time: nat)
      requires Inv(View()) && Enabled(View(), Fired(time, RenewTimer, random))
      modifies this
      ensures Inv(View()) && View() == Step(old(View()), Fired(time, RenewTimer, random))
    {
      hide Inv, Enabled, DHCPClientModel.StartProcess;
      StepInv(View(), Fired(time, RenewTimer, random));
      Firing(View(), time, RenewTimer, random);
      assert state.Finished?;
      now := time;
      timers := timers.(renew := None);
      SendMessage(false, Some(offered.yiaddr), None);
      timers := timers.(renewRequest := Some(time + RENEW_REQUEST_TIMEOUT));
      timers := timers.(lease := Some(time + LeaseTimeout(acked.lease)));
      state := Renewing;
    }

    method RenewRequestTimerHandler(random: nat, time: nat)
      requires Inv(View()) && Enabled(View(), Fired(time, RenewRequestTimer, random))
      modifies this
      ensures Inv(View()) && View() == Step(old(View()), Fired(time, RenewRequestTimer, random))
    {
      hide Inv, Enabled, DHCPClientModel.StartProcess;
      StepInv(View(), Fired(time, RenewRequestTimer, random));
      Firing(View(), time, RenewRequestTimer, random);
      assert state.Renewing?;
      now := time;
      SendMessage(false, Some(offered.yiaddr), None);
      timers := timers.(renewRequest := Some(time + RENEW_REQUEST_TIMEOUT));
    }

    method LeaseTimerHandler(random: nat, time: nat)
      requires Inv(View()) && Enabled(View(), Fired(time, LeaseTimer, random))
      modifies this
      ensures Inv(View()) && View() == Step(old(View()), Fired(time, LeaseTimer, random))
    {
      hide Inv, Enabled, DHCPClientModel.StartProcess;
      StepInv(View(), Fired(time, LeaseTimer, random));
      Firing(View(), time, LeaseTimer, random);
      assert state.Renewing?;
      now := time;
      timers := timers.(lease := None);
      timers := timers.(renewRequest := None);
      StartProcess(true, random, time);
      log := log.(reports := log.reports + [false]);
    }
  }

  lemma HeaderLength(xid: nat, mac: seq<byte>, s: seq<byte>)
    ensures HeaderOk(xid, mac, s) ==> |s| >= HEADER
  {
  }

  lemma Running(s: Client)
    requires Inv(s)
    ensures OnlyTimers(s.phase, s.timers)
  {
  }
}
