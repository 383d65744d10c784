/** The router's code: client maps and sessions changed in place by the handlers its event loop runs. */
module RouterServer {
  import opened Bytes
  import opened Heads
  import opened Options
  import opened Sequences
  import opened RouterSpec
  import opened RouterSync

  class Server {
    const routerId: ServerId
    var sessions: map<SessId, Session>
    var portalClients: Slots
    var gameClients: Slots
    var teamClients: Slots
    var msgToPortalCnt: nat

    ghost function Snapshot(): State
      reads this
    {
      State(sessions, portalClients, gameClients, teamClients)
    }

    ghost predicate Valid()
      reads this
    {
      WellStored(Snapshot())
    }

    constructor (routerId: ServerId)
      ensures Valid() && Snapshot() == INIT && this.routerId == routerId
    {
      this.routerId := routerId;
      sessions, portalClients, gameClients, teamClients := map[], map[], map[], map[];
      msgToPortalCnt := 0;
    }

    // ---- Clients ----

    method SendMsg(client: RouteClient, msg: Message)
      requires client.session in sessions
      modifies this`sessions
      ensures Snapshot() == SendTo(old(Snapshot()), client.session, msg)
    {
      sessions := sessions[client.session := Send(sessions[client.session], [msg])];
    }

    method CloseClient(client: RouteClient)
      requires client.session in sessions
      modifies this`sessions
      ensures Snapshot() == CloseSession(old(Snapshot()), client.session)
    {
      sessions := sessions[client.session := Shutdown(sessions[client.session])];
    }

    method AddPortalClient(client: RouteClient)
      requires client.id in portalClients ==> portalClients[client.id].session in sessions
      modifies this`sessions, this`portalClients
      ensures Snapshot()
           == Evict(old(Snapshot()), old(portalClients), client.id).(portals := old(portalClients)[client.id := client])
    {
      if client.id in portalClients {
        CloseClient(portalClients[client.id]);
      }
      portalClients := portalClients[client.id := client];
    }

    method RemovePortalClient(client: RouteClient)
      modifies this`portalClients
      ensures portalClients == old(portalClients) - {client.id}
    {
      if client.id !in portalClients {
        return;
      }
      portalClients := portalClients - {client.id};
    }

    method GetPortalClient(id: ServerId) returns (client: Option<RouteClient>)
      ensures client.Some? <==> id in portalClients
      ensures client.Some? ==> client.value == portalClients[id]
      ensures Valid() && client.Some? ==>
                && client.value.id == id && client.value.svrType == PORTAL
                && client.value.session in sessions && sessions[client.value.session].listener == Portals
    {
      client := if id in portalClients then Some(portalClients[id]) else None;
    }

    method AddGameClient(client: RouteClient)
      requires client.id in gameClients ==> gameClients[client.id].session in sessions
      modifies this`sessions, this`gameClients
      ensures Snapshot()
           == Evict(old(Snapshot()), old(gameClients), client.id).(games := old(gameClients)[client.id := client])
    {
      if client.id in gameClients {
        CloseClient(gameClients[client.id]);
      }
      gameClients := gameClients[client.id := client];
    }

    method RemoveGameClient(client: RouteClient)
      modifies this`gameClients
      ensures gameClients == old(gameClients) - {client.id}
    {
      if client.id !in gameClients {
        return;
      }
      gameClients := gameClients - {client.id};
    }

    method AddTeamClient(client: RouteClient)
      requires client.id in teamClients ==> teamClients[client.id].session in sessions
      modifies this`sessions, this`teamClients
      ensures Snapshot()
           == Evict(old(Snapshot()), old(teamClients), client.id).(teams := old(teamClients)[client.id := client])
    {
      if client.id in teamClients {
        CloseClient(teamClients[client.id]);
      }
      teamClients := teamClients[client.id := client];
    }

    method RemoveTeamClient(client: RouteClient)
      modifies this`teamClients
      ensures teamClients == old(teamClients) - {client.id}
    {
      if client.id !in teamClients {
        return;
      }
      teamClients := teamClients - {client.id};
    }

    // ---- Packing and broadcasting ----

    method CollectIds(slots: Slots) returns (ids: seq<int>, ghost order: seq<ServerId>)
      ensures Fits(order, slots)
      ensures forall svrType, id :: Pack(slots, order, svrType, id).body == ServerList(ids, svrType)
    {
      ids, order := [], [];
      var rest := slots.Keys;
      while rest != {}
        invariant rest <= slots.Keys && Lists(order, slots.Keys - rest) && |ids| == |order|
        invariant forall i :: 0 <= i < |order| ==> order[i] in slots && ids[i] == slots[order[i]].id as int
        decreases rest
      {
        var k :| k in rest;
        ListsSnoc(order, slots.Keys - rest, k);
        assert slots.Keys - rest + {k} == slots.Keys - (rest - {k});
        ids, order, rest := ids + [slots[k].id as int], order + [k], rest - {k};
      }
      assert slots.Keys - {} == slots.Keys;
    }

    method PackGameMessage() returns (msg: Message, ghost order: seq<ServerId>)
      ensures Fits(order, gameClients) && msg == Pack(gameClients, order, GAMESVR, routerId)
    {
      var svrIds;
      svrIds, order := CollectIds(gameClients);
      msg := Message(Head(SYNC, BY_KEY, ROUTER, 0, routerId, 0), ServerList(svrIds, GAMESVR));
    }

    method PackTeamMessage() returns (msg: Message, ghost order: seq<ServerId>)
      ensures Fits(order, teamClients) && msg == Pack(teamClients, order, TEAMSVR, routerId)
    {
      var svrIds;
      svrIds, order := CollectIds(teamClients);
      msg := Message(Head(SYNC, BY_KEY, ROUTER, 0, routerId, 0), ServerList(svrIds, TEAMSVR));
    }

    /** The broadcast loops: every client of the slots is sent the message, in no particular order. */
    method BroadcastTo(slots: Slots, msg: Message)
      requires forall k :: k in slots ==> slots[k].session in sessions
      modifies this`sessions
      ensures Snapshot() == Broadcast(old(Snapshot()), slots, msg)
    {
      hide Broadcast, SendTo;
      var rest := slots.Keys;
      ghost var done: Slots := map[];
      BroadcastNone(Snapshot(), msg);
      while rest != {}
        invariant rest <= slots.Keys && done == slots - rest
        invariant Snapshot() == Broadcast(old(Snapshot()), done, msg) && sessions.Keys == old(sessions.Keys)
        decreases rest
      {
        var k :| k in rest;
        BroadcastOneMore(old(Snapshot()), done, k, slots[k], msg);
        OneSlotLess(slots, rest, k);
        SendMsg(slots[k], msg);
        done, rest := done[k := slots[k]], rest - {k};
      }
      assert done == slots;
    }

    // ---- Handlers of the internal listener ----

    /** The session is verified, if its timer allows, and remembers its client. */
    method BindSession(client: RouteClient)
      requires client.session in sessions
      modifies this`sessions
      ensures Snapshot() == Bind(old(Snapshot()), client) && sessions.Keys == old(sessions).Keys
    {
      sessions := sessions[client.session := Verify(sessions[client.session])];
      sessions := sessions[client.session := sessions[client.session].(userdata := Some(client))];
    }

    method InternalHandleReady(sid: SessId, msg: Message) returns (ghost order: Order)
      requires Valid() && sid in sessions && sessions[sid].listener == Internal
      modifies this`sessions, this`gameClients, this`teamClients
      ensures Snapshot() == InternalReady(old(Snapshot()), sid, msg, order, routerId)
      ensures Fits(order.games, gameClients) && Fits(order.teams, teamClients)
    {
      SlotsKnown(Snapshot());
      hide WellStored, Bind, Evict, Broadcast, Fits, SendTo;
      ghost var games := SomeListing(gameClients.Keys);
      ghost var teams := SomeListing(teamClients.Keys);
      if msg.head.srcType == GAMESVR {
        var gameServer := RouteClient(sid, msg.head.srcID, GAMESVR);
        AddFrame(Snapshot(), gameServer);
        BindSession(gameServer);
        AddGameClient(gameServer);
        var sync;
        sync, games := PackGameMessage();
        BroadcastTo(portalClients, sync);
      } else if msg.head.srcType == TEAMSVR {
        var teamServer := RouteClient(sid, msg.head.srcID, TEAMSVR);
        AddFrame(Snapshot(), teamServer);
        BindSession(teamServer);
        AddTeamClient(teamServer);
        var sync;
        sync, teams := PackTeamMessage();
        BroadcastTo(portalClients, sync);
      }
      order := Order(games, teams);
    }

    method InternalHandleClosed(sid: SessId) returns (ghost order: Order)
      requires Valid() && sid in sessions && sessions[sid].listener == Internal
      modifies this`sessions, this`gameClients, this`teamClients
      ensures Snapshot() == InternalClosed(old(Snapshot()), sid, order, routerId)
      ensures Fits(order.games, gameClients) && Fits(order.teams, teamClients)
    {
      ghost var games := SomeListing(gameClients.Keys);
      ghost var teams := SomeListing(teamClients.Keys);
      order := Order(games, teams);
      if !sessions[sid].verified {
        return;
      }
      if sessions[sid].userdata.None? {
        return;
      }
      var internalServer := sessions[sid].userdata.value;
      sessions := sessions[sid := sessions[sid].(userdata := None)];
      if internalServer.svrType == GAMESVR {
        RemoveGameClient(internalServer);
        var sync;
        sync, games := PackGameMessage();
        BroadcastTo(portalClients, sync);
      } else if internalServer.svrType == TEAMSVR {
        RemoveTeamClient(internalServer);
        var sync;
        sync, teams := PackTeamMessage();
        BroadcastTo(portalClients, sync);
      }
      order := Order(games, teams);
    }

    method InternalHandleMsg(msg: Message)
      requires Valid()
      modifies this`sessions
      ensures Snapshot() == Relay(old(Snapshot()), portalClients, msg)
    {
      if msg.head.transType == BY_KEY {
        var portalServer := GetPortalClient(msg.head.dstID);
        if portalServer.None? {
          return;
        }
        SendMsg(portalServer.value, msg);
      } else if msg.head.transType == BROADCAST {
        BroadcastTo(portalClients, msg);
      }
    }

    // ---- Handlers of the portal listener ----

    method PortalHandleReady(sid: SessId, msg: Message) returns (ghost order: Order)
      requires Valid() && sid in sessions && sessions[sid].listener == Portals
      modifies this`sessions, this`portalClients
      ensures Snapshot() == PortalReady(old(Snapshot()), sid, msg, order, routerId)
      ensures Fits(order.games, gameClients) && Fits(order.teams, teamClients)
    {
      SlotsKnown(Snapshot());
      hide WellStored, Bind, Evict, Broadcast, Fits, SendTo;
      var client := RouteClient(sid, msg.head.srcID, PORTAL);
      AddFrame(Snapshot(), client);
      BindSession(client);
      AddPortalClient(client);
      var sync, games := PackGameMessage();
      SendMsg(client, sync);
      var sync', teams := PackTeamMessage();
      SendMsg(client, sync');
      order := Order(games, teams);
    }

    method PortalHandleClosed(sid: SessId)
      requires Valid() && sid in sessions && sessions[sid].listener == Portals
      modifies this`sessions, this`portalClients
      ensures Snapshot() == PortalClosed(old(Snapshot()), sid)
    {
      if !sessions[sid].verified {
        return;
      }
      if sessions[sid].userdata.None? {
        return;
      }
      var client := sessions[sid].userdata.value;
      sessions := sessions[sid := sessions[sid].(userdata := None)];
      RemovePortalClient(client);
    }

    method PortalHandleMsg(msg: Message)
      requires Valid()
      modifies this`sessions
      ensures Snapshot() == if msg.head.dstType == GAMESVR then Relay(old(Snapshot()), gameClients, msg)
                            else if msg.head.dstType == TEAMSVR then Relay(old(Snapshot()), teamClients, msg)
                            else old(Snapshot())
    {
      if msg.head.dstType == GAMESVR {
        if msg.head.transType == BY_KEY {
          if msg.head.dstID in gameClients {
            SendMsg(gameClients[msg.head.dstID], msg);
          }
        } else if msg.head.transType == BROADCAST {
          BroadcastTo(gameClients, msg);
        }
      } else if msg.head.dstType == TEAMSVR {
        if msg.head.transType == BY_KEY {
          if msg.head.dstID in teamClients {
            SendMsg(teamClients[msg.head.dstID], msg);
          }
        } else if msg.head.transType == BROADCAST {
          BroadcastTo(teamClients, msg);
        }
      }
    }

    // ---- Dispatch ----

    /** Everything but READY needs a verified session that is bound to a client. */
    method HandleVerifyMsg(sid: SessId, msg: Message)
      requires Valid() && sid in sessions && sessions[sid].verified && sessions[sid].userdata.Some?
      modifies this`sessions
      ensures Snapshot() == Verified(old(Snapshot()), sid, msg)
    {
      var client := sessions[sid].userdata.value;
      BoundWellOf(Snapshot(), sid);
      if msg.head.ssCmd == HEARTBEAT {
        SendMsg(client, msg);
      } else if msg.head.ssCmd == DISCONNECT {
        CloseClient(client);
      } else if msg.head.ssCmd == MSG {
        if sessions[sid].listener == Internal {
          InternalHandleMsg(msg);
        } else {
          PortalHandleMsg(msg);
        }
      }
    }

    /** One received message, run by the event loop; order is how the maps were listed. */
    method HandleMessage(sid: SessId, msg: Message) returns (ghost order: Order)
      requires Valid() && sid in sessions
      modifies this
      ensures Possible(old(Snapshot()), Receive(sid, msg, order), routerId)
      ensures Snapshot() == Next(old(Snapshot()), Receive(sid, msg, order), routerId)
      ensures msgToPortalCnt == old(msgToPortalCnt) + (if old(sessions[sid].listener) == Portals then 1 else 0)
      ensures Inv(old(Snapshot())) ==> Inv(Snapshot())
    {
      hide InternalReady, PortalReady, Verified, Fits;
      ghost var games := SomeListing(gameClients.Keys);
      ghost var teams := SomeListing(teamClients.Keys);
      order := Order(games, teams);
      var isPortal := sessions[sid].listener == Portals;
      if msg.head.ssCmd == READY {
        if isPortal {
          order := PortalHandleReady(sid, msg);
        } else {
          order := InternalHandleReady(sid, msg);
        }
      } else {
        OrderStaysFit(Snapshot(), sid, msg, order);
        if sessions[sid].verified && sessions[sid].userdata.Some? {
          HandleVerifyMsg(sid, msg);
        } else {
          UnverifiedIgnored(Snapshot(), sid, msg);
        }
      }
      if isPortal {
        msgToPortalCnt := msgToPortalCnt + 1;
      }
      if Inv(old(Snapshot())) {
        StepKeepsInv(old(Snapshot()), Receive(sid, msg, order), routerId);
      }
    }

    /** One closed connection, run by the event loop. */
    method HandleClosed(sid: SessId) returns (ghost order: Order)
      requires Valid() && sid in sessions
      modifies this`sessions, this`portalClients, this`gameClients, this`teamClients
      ensures Possible(old(Snapshot()), Closed(sid, order), routerId)
      ensures Snapshot() == Next(old(Snapshot()), Closed(sid, order), routerId)
      ensures Inv(old(Snapshot())) ==> Inv(Snapshot())
    {
      hide InternalClosed;
      if sessions[sid].listener == Internal {
        order := InternalHandleClosed(sid);
      } else {
        ghost var games := SomeListing(gameClients.Keys);
        ghost var teams := SomeListing(teamClients.Keys);
        order := Order(games, teams);
        PortalHandleClosed(sid);
      }
      if Inv(old(Snapshot())) {
        StepKeepsInv(old(Snapshot()), Closed(sid, order), routerId);
      }
    }
  }

  lemma BroadcastNone(s: State, msg: Message)
    ensures Broadcast(s, map[], msg) == s
  {
    forall sid | sid in s.sessions
      ensures Send(s.sessions[sid], Repeat(msg, |SlotsOf(map[], sid)|)) == s.sessions[sid]
    {
      assert SlotsOf(map[], sid) == {};
    }
  }

  lemma OneSlotLess(slots: Slots, rest: set<ServerId>, k: ServerId)
    requires rest <= slots.Keys && k in rest
    ensures (slots - rest)[k := slots[k]] == slots - (rest - {k})
  {
  }

  lemma SlotsOfNext(done: Slots, k: ServerId, client: RouteClient, sid: SessId)
    requires k !in done
    ensures |SlotsOf(done[k := client], sid)| == |SlotsOf(done, sid)| + (if client.session == sid then 1 else 0)
  {
    var before, after := SlotsOf(done, sid), SlotsOf(done[k := client], sid);
    assert after == before + if client.session == sid then {k} else {};
  }

  lemma SendOneMore(x: Session, msg: Message, n: nat)
    ensures Send(x, Repeat(msg, n + 1)) == Send(Send(x, Repeat(msg, n)), [msg])
  {
    assert Repeat(msg, n + 1) == Repeat(msg, n) + [msg];
  }

  lemma BroadcastOneMore(s: State, done: Slots, k: ServerId, client: RouteClient, msg: Message)
    requires k !in done && client.session in s.sessions
    ensures Broadcast(s, done[k := client], msg) == SendTo(Broadcast(s, done, msg), client.session, msg)
    ensures Broadcast(s, done[k := client], msg).sessions.Keys == s.sessions.Keys
  {
    hide Send, Repeat, SlotsOf;
    forall sid | sid in s.sessions
      ensures Broadcast(s, done[k := client], msg).sessions[sid]
           == SendTo(Broadcast(s, done, msg), client.session, msg).sessions[sid]
    {
      SlotsOfNext(done, k, client, sid);
      SendOneMore(s.sessions[sid], msg, |SlotsOf(done, sid)|);
    }
  }

  /** Without READY the maps stay, so any listing of them still fits. */
  lemma OrderStaysFit(s: State, sid: SessId, msg: Message, order: Order)
    requires WellStored(s) && sid in s.sessions && msg.head.ssCmd != READY
    requires Fits(order.games, s.games) && Fits(order.teams, s.teams)
    ensures Fits(order.games, Verified(s, sid, msg).games) && Fits(order.teams, Verified(s, sid, msg).teams)
  {
    VerifiedQuiet(s, sid, msg);
  }

  lemma UnverifiedIgnored(s: State, sid: SessId, msg: Message)
    requires WellStored(s) && sid in s.sessions && !(s.sessions[sid].verified && s.sessions[sid].userdata.Some?)
    ensures Verified(s, sid, msg) == s
  {
  }
}
