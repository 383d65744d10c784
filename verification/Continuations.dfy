/** What holds of a session in every continuation of a run: once shut it is sent nothing more, and a slot that it left
    behind stays until another client claims the id. */
module Continuations {
  import opened Bytes
  import opened Heads
  import opened Options
  import opened Sequences
  import opened RouterSpec
  import opened RouterSync
  import opened RouterDepartures

  // ---- Shut sessions ----

  /** The session is shut, and this is all that it was ever sent. */
  predicate Shut(s: State, sid: SessId, sent: seq<Message>) {
    sid in s.sessions && !s.sessions[sid].accepting && s.sessions[sid].sent == sent
  }

  lemma BroadcastShut(s: State, slots: Slots, msg: Message, sid: SessId, sent: seq<Message>)
    requires Shut(s, sid, sent)
    ensures Shut(Broadcast(s, slots, msg), sid, sent)
  {
    hide SlotsOf, Repeat;
  }

  lemma PushShut(s: State, order: Order, routerId: ServerId, sid: SessId, sent: seq<Message>)
    requires Shut(s, sid, sent)
    ensures Shut(PushGames(s, order, routerId), sid, sent) && Shut(PushTeams(s, order, routerId), sid, sent)
  {
    hide Broadcast, Fits, Pack, Shut;
    if Fits(order.games, s.games) {
      BroadcastShut(s, s.portals, Pack(s.games, order.games, GAMESVR, routerId), sid, sent);
    }
    if Fits(order.teams, s.teams) {
      BroadcastShut(s, s.portals, Pack(s.teams, order.teams, TEAMSVR, routerId), sid, sent);
    }
  }

  lemma SendToShut(s: State, o: SessId, msg: Message, sid: SessId, sent: seq<Message>)
    requires o in s.sessions && Shut(s, sid, sent)
    ensures Shut(SendTo(s, o, msg), sid, sent)
  {
  }

  lemma EvictShut(s: State, slots: Slots, c: RouteClient, sid: SessId, sent: seq<Message>)
    requires c.session in s.sessions && (c.id in slots ==> slots[c.id].session in s.sessions) && Shut(s, sid, sent)
    ensures Shut(Evict(Bind(s, c), slots, c.id), sid, sent)
  {
  }

  lemma RelayShut(s: State, slots: Slots, msg: Message, sid: SessId, sent: seq<Message>)
    requires (forall k :: k in slots ==> slots[k].session in s.sessions) && Shut(s, sid, sent)
    ensures Shut(Relay(s, slots, msg), sid, sent)
  {
    hide Broadcast, SendTo, Shut;
    BroadcastShut(s, slots, msg, sid, sent);
    if msg.head.dstID in slots {
      SendToShut(s, slots[msg.head.dstID].session, msg, sid, sent);
    }
  }

  lemma VerifiedShut(s: State, o: SessId, msg: Message, sid: SessId, sent: seq<Message>)
    requires WellStored(s) && o in s.sessions && Shut(s, sid, sent)
    ensures Shut(Verified(s, o, msg), sid, sent)
  {
    SlotsKnown(s);
    SendToShut(s, o, msg, sid, sent);
    assert Shut(CloseSession(s, o), sid, sent);
    hide WellStored, SendTo, CloseSession, Relay, Shut;
    RelayShut(s, s.portals, msg, sid, sent);
    RelayShut(s, s.games, msg, sid, sent);
    RelayShut(s, s.teams, msg, sid, sent);
  }

  lemma ReadyShut(s: State, e: Event, routerId: ServerId, sid: SessId, sent: seq<Message>)
    requires WellStored(s) && e.Receive? && e.msg.head.ssCmd == READY && e.sid in s.sessions && Shut(s, sid, sent)
    ensures Shut(Next(s, e, routerId), sid, sent)
  {
    SlotsKnown(s);
    hide WellStored, Evict, Bind, PushGames, PushTeams, SendTo, Fits, Pack;
    var id := e.msg.head.srcID;
    if s.sessions[e.sid].listener == Portals {
      var c := RouteClient(e.sid, id, PORTAL);
      EvictShut(s, s.portals, c, sid, sent);
      var t := AddPortal(s, c);
      EvictKeepsMaps(s, c, s.portals);
      EvictBinds(s, s.portals, c);
      if Fits(e.order.games, t.games) && Fits(e.order.teams, t.teams) {
        var g := Pack(t.games, e.order.games, GAMESVR, routerId);
        SendToShut(t, e.sid, g, sid, sent);
        SendToBindings(t, e.sid, g);
        SendToShut(SendTo(t, e.sid, g), e.sid, Pack(t.teams, e.order.teams, TEAMSVR, routerId), sid, sent);
      }
    } else if e.msg.head.srcType == GAMESVR {
      var c := RouteClient(e.sid, id, GAMESVR);
      EvictShut(s, s.games, c, sid, sent);
      PushShut(AddGame(s, c), e.order, routerId, sid, sent);
    } else if e.msg.head.srcType == TEAMSVR {
      var c := RouteClient(e.sid, id, TEAMSVR);
      EvictShut(s, s.teams, c, sid, sent);
      PushShut(AddTeam(s, c), e.order, routerId, sid, sent);
    }
  }

  lemma ClosedShut(s: State, o: SessId, order: Order, routerId: ServerId, sid: SessId, sent: seq<Message>)
    requires WellStored(s) && o in s.sessions && Shut(s, sid, sent)
    ensures Shut(Next(s, Closed(o, order), routerId), sid, sent)
  {
    var c := s.sessions[o].userdata;
    var u := Unbind(s, o);
    assert Shut(u, sid, sent);
    hide WellStored, Unbind, PushGames, PushTeams;
    if c.Some? {
      PushShut(u.(games := u.games - {c.value.id}), order, routerId, sid, sent);
      PushShut(u.(teams := u.teams - {c.value.id}), order, routerId, sid, sent);
    }
    UnbindKeepsMaps(s, o);
  }

  lemma ShutStep(s: State, e: Event, routerId: ServerId, sid: SessId, sent: seq<Message>)
    requires WellStored(s) && Shut(s, sid, sent)
    ensures Shut(Next(s, e, routerId), sid, sent)
  {
    hide WellStored, Verified, InternalReady, PortalReady, InternalClosed, PortalClosed;
    if e.sid in s.sessions {
      match e
      case Receive(o, msg, _) =>
        if msg.head.ssCmd == READY {
          ReadyShut(s, e, routerId, sid, sent);
        } else {
          VerifiedShut(s, o, msg, sid, sent);
        }
      case Closed(o, order) => ClosedShut(s, o, order, routerId, sid, sent);
      case _ =>
    }
  }

  /** In every continuation, a session that is shut stays shut and is sent nothing more. */
  lemma {:induction false} ShutForGood(events: seq<Event>, k: nat, routerId: ServerId, sid: SessId, sent: seq<Message>)
    requires Legal(events, routerId) && k <= |events| && Legal(events[..k], routerId)
    requires Shut(After(events[..k], routerId), sid, sent)
    ensures Shut(After(events, routerId), sid, sent)
  {
    if k == |events| {
      assert events[..k] == events;
    } else {
      var before := events[..|events| - 1];
      assert before[..k] == events[..k];
      ShutForGood(before, k, routerId, sid, sent);
      ShutStep(After(before, routerId), events[|events| - 1], routerId, sid, sent);
    }
  }

  // ---- Slots left behind ----

  /** No other session is bound to this id. */
  predicate NoRival(s: State, sid: SessId, id: ServerId) {
    forall o :: o in s.sessions && o != sid && s.sessions[o].userdata.Some? ==> s.sessions[o].userdata.value.id != id
  }

  /** A READY under this id. */
  predicate Claims(e: Event, id: ServerId) {
    e.Receive? && e.msg.head.ssCmd == READY && e.msg.head.srcID == id
  }

  /** Something the session still does: it sends a message, or its close is handled. */
  predicate Lives(e: Event, sid: SessId) {
    (e.Receive? || e.Closed?) && e.sid == sid
  }

  /** Slots that the session holds under this id stay its own, and no rival appears. */
  predicate KeepsSlots(s: State, t: State, sid: SessId, id: ServerId) {
    && NoRival(t, sid, id)
    && (Sits(s.portals, id, sid) ==> Sits(t.portals, id, sid))
    && (Sits(s.games, id, sid) ==> Sits(t.games, id, sid))
    && (Sits(s.teams, id, sid) ==> Sits(t.teams, id, sid))
  }

  /** Sessions are bound as they were, and the maps are the same. */
  predicate SameClients(s: State, t: State) {
    && t.portals == s.portals && t.games == s.games && t.teams == s.teams && t.sessions.Keys == s.sessions.Keys
    && forall o :: o in s.sessions ==> t.sessions[o].userdata == s.sessions[o].userdata
  }

  lemma BroadcastSame(s: State, slots: Slots, msg: Message)
    ensures SameClients(s, Broadcast(s, slots, msg))
  {
    hide SlotsOf, Repeat;
  }

  lemma SendSame(s: State, o: SessId, msg: Message)
    requires o in s.sessions
    ensures SameClients(s, SendTo(s, o, msg)) && SameClients(s, CloseSession(s, o)) && SameClients(s, s)
  {
  }

  lemma RelaySame(s: State, slots: Slots, msg: Message)
    requires forall k :: k in slots ==> slots[k].session in s.sessions
    ensures SameClients(s, Relay(s, slots, msg))
  {
    BroadcastSame(s, slots, msg);
    assert SameClients(s, s);
    hide Broadcast, SendTo, SameClients;
    if msg.head.dstID in slots {
      SendSame(s, slots[msg.head.dstID].session, msg);
    }
  }

  lemma VerifiedSame(s: State, o: SessId, msg: Message)
    requires WellStored(s) && o in s.sessions
    ensures SameClients(s, Verified(s, o, msg))
  {
    SlotsKnown(s);
    SendSame(s, o, msg);
    hide WellStored, SendTo, CloseSession, Relay, SameClients;
    if msg.head.ssCmd == MSG {
      if s.sessions[o].listener == Internal {
        RelaySame(s, s.portals, msg);
      } else if msg.head.dstType == GAMESVR {
        RelaySame(s, s.games, msg);
      } else {
        RelaySame(s, s.teams, msg);
      }
    }
  }

  lemma BindsNoRival(s: State, t: State, slots: Slots, c: RouteClient, sid: SessId, id: ServerId)
    requires c.session in s.sessions && Binds(s, t, slots, c)
    requires NoRival(s, sid, id) && c.id != id
    ensures NoRival(t, sid, id)
  {
    forall o | o in t.sessions && o != sid && t.sessions[o].userdata.Some?
      ensures t.sessions[o].userdata.value.id != id
    {
      if o != c.session {
        assert KeepsBinding(s.sessions[o], t.sessions[o], Sits(slots, c.id, o));
      }
    }
  }

  lemma ReadyKeepsSlots(s: State, e: Event, routerId: ServerId, sid: SessId, id: ServerId)
    requires WellStored(s) && NoRival(s, sid, id) && e.Receive? && e.msg.head.ssCmd == READY
    requires e.sid in s.sessions && e.msg.head.srcID != id
    ensures KeepsSlots(s, Next(s, e, routerId), sid, id)
  {
    hide PortalReady, InternalReady, WellStored, NoRival, Binds;
    var t := Next(s, e, routerId);
    if s.sessions[e.sid].listener == Portals {
      PortalReadyBinds(s, e.sid, e.msg, e.order, routerId);
      BindsNoRival(s, t, s.portals, RouteClient(e.sid, e.msg.head.srcID, PORTAL), sid, id);
    } else if e.msg.head.srcType == GAMESVR {
      GameReady(s, e.sid, e.msg, e.order, routerId);
      BindsNoRival(s, t, s.games, RouteClient(e.sid, e.msg.head.srcID, GAMESVR), sid, id);
    } else if e.msg.head.srcType == TEAMSVR {
      TeamReady(s, e.sid, e.msg, e.order, routerId);
      BindsNoRival(s, t, s.teams, RouteClient(e.sid, e.msg.head.srcID, TEAMSVR), sid, id);
    } else {
      OtherReady(s, e, routerId);
    }
  }

  lemma OtherReady(s: State, e: Event, routerId: ServerId)
    requires WellStored(s) && e.Receive? && e.msg.head.ssCmd == READY && e.sid in s.sessions
    requires s.sessions[e.sid].listener == Internal && e.msg.head.srcType != GAMESVR && e.msg.head.srcType != TEAMSVR
    ensures Next(s, e, routerId) == s
  {
  }

  lemma ClosedKeepsSlots(s: State, o: SessId, order: Order, routerId: ServerId, sid: SessId, id: ServerId)
    requires WellStored(s) && NoRival(s, sid, id) && o in s.sessions && o != sid
    ensures KeepsSlots(s, Next(s, Closed(o, order), routerId), sid, id)
  {
    if s.sessions[o].listener == Internal {
      ServerClosed(s, o, order, routerId);
      ClosedUnbinds(s, o, order, routerId);
      hide InternalClosed, WellStored;
    }
  }

  /** The close of a server's session changes no binding but its own, which goes. */
  lemma ClosedUnbinds(s: State, o: SessId, order: Order, routerId: ServerId)
    requires WellStored(s) && o in s.sessions
    ensures var t := InternalClosed(s, o, order, routerId);
            && t.sessions.Keys == s.sessions.Keys
            && forall x :: x in s.sessions ==>
                 t.sessions[x].userdata == s.sessions[x].userdata || t.sessions[x].userdata == None
  {
    var c := s.sessions[o].userdata;
    UnbindUnbinds(s, o);
    hide PushGames, PushTeams, WellStored, Unbind;
    if s.sessions[o].verified && c.Some? {
      var u := Unbind(s, o);
      if c.value.svrType == GAMESVR {
        PushBindings(u.(games := u.games - {c.value.id}), order, routerId);
      } else if c.value.svrType == TEAMSVR {
        PushBindings(u.(teams := u.teams - {c.value.id}), order, routerId);
      }
    }
  }

  lemma UnbindUnbinds(s: State, o: SessId)
    requires o in s.sessions
    ensures var t := Unbind(s, o);
            && t.sessions.Keys == s.sessions.Keys
            && forall x :: x in s.sessions ==>
                 t.sessions[x].userdata == s.sessions[x].userdata || t.sessions[x].userdata == None
  {
  }

  lemma StaleStep(s: State, e: Event, routerId: ServerId, sid: SessId, id: ServerId)
    requires WellStored(s) && NoRival(s, sid, id) && !Claims(e, id) && !Lives(e, sid)
    ensures KeepsSlots(s, Next(s, e, routerId), sid, id)
  {
    hide Verified, WellStored, PortalReady, InternalReady, InternalClosed, PortalClosed;
    if e.sid in s.sessions {
      match e
      case Receive(o, msg, _) =>
        if msg.head.ssCmd == READY {
          ReadyKeepsSlots(s, e, routerId, sid, id);
        } else {
          VerifiedSame(s, o, msg);
        }
      case Closed(o, order) => ClosedKeepsSlots(s, o, order, routerId, sid, id);
      case _ =>
    }
  }

  /** In every continuation in which the session does nothing more and no READY claims the id, each slot that it holds
      under the id stays its own. */
  lemma {:induction false} StaleForGood(events: seq<Event>, k: nat, routerId: ServerId, sid: SessId, id: ServerId)
    requires Legal(events, routerId) && k <= |events| && Legal(events[..k], routerId)
    requires NoRival(After(events[..k], routerId), sid, id)
    requires forall i :: k <= i < |events| ==> !Claims(events[i], id) && !Lives(events[i], sid)
    ensures KeepsSlots(After(events[..k], routerId), After(events, routerId), sid, id)
  {
    if k == |events| {
      assert events[..k] == events;
    } else {
      var before := events[..|events| - 1];
      assert before[..k] == events[..k];
      StaleForGood(before, k, routerId, sid, id);
      StaleStep(After(before, routerId), events[|events| - 1], routerId, sid, id);
    }
  }
}
