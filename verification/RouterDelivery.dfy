/** Who is sent what, session by session, and which events shut a session. */
module RouterDelivery {
  import opened Bytes
  import opened Heads
  import opened Options
  import opened Sequences
  import opened RouterSpec
  import opened RouterSync
  import opened RouterDepartures
  import Continuations

  // ---- Forwarding ----

  /** A session's queue after it was offered the message n times: a session that is shut takes nothing. */
  predicate Gets(s: State, t: State, o: SessId, msg: Message, n: nat) {
    && o in s.sessions && o in t.sessions
    && t.sessions[o].sent == s.sessions[o].sent + Repeat(msg, if s.sessions[o].accepting then n else 0)
  }

  lemma SendToGets(s: State, sid: SessId, msg: Message, o: SessId)
    requires sid in s.sessions && o in s.sessions
    ensures Gets(s, SendTo(s, sid, msg), o, msg, if o == sid then 1 else 0)
  {
    assert Repeat(msg, 1) == [msg] && Repeat(msg, 0) == [];
  }

  lemma BroadcastGets(s: State, slots: Slots, msg: Message, o: SessId)
    requires o in s.sessions
    ensures Gets(s, Broadcast(s, slots, msg), o, msg, |SlotsOf(slots, o)|)
  {
    assert Repeat(msg, 0) == [];
  }

  lemma NothingSent(s: State, t: State, o: SessId, msg: Message)
    requires o in s.sessions && o in t.sessions && t.sessions[o].sent == s.sessions[o].sent
    ensures Gets(s, t, o, msg, 0)
  {
    assert Repeat(msg, 0) == [];
  }

  /** By key the message goes to the session that holds the slot of that id and to no other; broadcast, once per slot
      to every session that holds one; of any other kind, to nobody. */
  predicate Relayed(s: State, t: State, slots: Slots, msg: Message, o: SessId) {
    && (msg.head.transType == BY_KEY ==> Gets(s, t, o, msg, if Sits(slots, msg.head.dstID, o) then 1 else 0))
    && (msg.head.transType == BROADCAST ==> Gets(s, t, o, msg, |SlotsOf(slots, o)|))
    && (msg.head.transType != BY_KEY && msg.head.transType != BROADCAST ==> Gets(s, t, o, msg, 0))
  }

  lemma RelayRelays(s: State, slots: Slots, msg: Message, o: SessId)
    requires (forall k :: k in slots ==> slots[k].session in s.sessions) && o in s.sessions
    ensures Relayed(s, Relay(s, slots, msg), slots, msg, o)
  {
    NothingSent(s, s, o, msg);
    BroadcastGets(s, slots, msg, o);
    if msg.head.dstID in slots {
      SendToGets(s, slots[msg.head.dstID].session, msg, o);
    }
    hide Gets, SendTo, Broadcast, SlotsOf;
  }

  /** Whatever a verified and bound session sends, to every session of the router. */
  lemma MessageDelivered(s: State, sid: SessId, msg: Message, order: Order, routerId: ServerId, o: SessId)
    requires WellStored(s) && sid in s.sessions && o in s.sessions && msg.head.ssCmd != READY
    requires s.sessions[sid].verified && s.sessions[sid].userdata.Some?
    ensures var t, x := Next(s, Receive(sid, msg, order), routerId), s.sessions[sid];
            && (msg.head.ssCmd == MSG && x.listener == Internal ==> Relayed(s, t, s.portals, msg, o))
            && (msg.head.ssCmd == MSG && x.listener == Portals && msg.head.dstType == GAMESVR ==>
                  Relayed(s, t, s.games, msg, o))
            && (msg.head.ssCmd == MSG && x.listener == Portals && msg.head.dstType == TEAMSVR ==>
                  Relayed(s, t, s.teams, msg, o))
            && (msg.head.ssCmd == MSG && x.listener == Portals && msg.head.dstType !in {GAMESVR, TEAMSVR} ==>
                  Gets(s, t, o, msg, 0))
            && (msg.head.ssCmd == HEARTBEAT ==> Gets(s, t, o, msg, if o == sid then 1 else 0))
            && (msg.head.ssCmd != MSG && msg.head.ssCmd != HEARTBEAT ==> Gets(s, t, o, msg, 0))
  {
    SlotsKnown(s);
    SendToGets(s, sid, msg, o);
    NothingSent(s, s, o, msg);
    NothingSent(s, CloseSession(s, sid), o, msg);
    RelayRelays(s, s.portals, msg, o);
    RelayRelays(s, s.games, msg, o);
    RelayRelays(s, s.teams, msg, o);
    hide Gets, Relayed, Relay, SendTo, CloseSession, WellStored;
  }

  /** A session that is not verified, or not bound, is ignored but for its READY. */
  lemma StrangerIgnored(s: State, sid: SessId, msg: Message, order: Order, routerId: ServerId)
    requires WellStored(s) && sid in s.sessions && msg.head.ssCmd != READY
    requires !s.sessions[sid].verified || s.sessions[sid].userdata.None?
    ensures Next(s, Receive(sid, msg, order), routerId) == s
  {
  }

  /** Once its close was handled, a session that was verified and bound is ignored but for its READY. */
  lemma ClosedIsMute(s: State, sid: SessId, order: Order, msg: Message, order': Order, routerId: ServerId)
    requires WellStored(s) && sid in s.sessions && s.sessions[sid].verified && msg.head.ssCmd != READY
    ensures var t := Next(s, Closed(sid, order), routerId);
            WellStored(t) ==> Next(t, Receive(sid, msg, order'), routerId) == t
  {
    if s.sessions[sid].userdata.Some? {
      var u, c := Unbind(s, sid), s.sessions[sid].userdata.value;
      assert u.sessions[sid].userdata == None;
      if s.sessions[sid].listener == Internal {
        PushBindings(u.(games := u.games - {c.id}), order, routerId);
        PushBindings(u.(teams := u.teams - {c.id}), order, routerId);
      }
      hide PushGames, PushTeams, WellStored, Unbind;
    }
  }

  // ---- What READY and close send ----

  /** A READY or a close of a server sends the new set to every session once per portal slot, and nothing else. */
  lemma PushSends(s: State, order: Order, routerId: ServerId, o: SessId)
    requires o in s.sessions && Fits(order.games, s.games) && Fits(order.teams, s.teams)
    ensures Gets(s, PushGames(s, order, routerId), o,
                 Pack(s.games, order.games, GAMESVR, routerId), |SlotsOf(s.portals, o)|)
    ensures Gets(s, PushTeams(s, order, routerId), o,
                 Pack(s.teams, order.teams, TEAMSVR, routerId), |SlotsOf(s.portals, o)|)
  {
    BroadcastGets(s, s.portals, Pack(s.games, order.games, GAMESVR, routerId), o);
    BroadcastGets(s, s.portals, Pack(s.teams, order.teams, TEAMSVR, routerId), o);
    hide Gets, Broadcast, Pack, SlotsOf;
  }

  /** The head and the list of a SYNC. */
  lemma PackSays(slots: Slots, order: seq<ServerId>, svrType: int, routerId: ServerId)
    requires Fits(order, slots) && forall k :: k in slots ==> slots[k].id == k
    ensures var m := Pack(slots, order, svrType, routerId);
            && m.head == Head(SYNC, BY_KEY, ROUTER, 0, routerId, 0)
            && m.body.ServerList? && m.body.serverType == svrType && Names(m.body.ids, slots.Keys)
  {
    PackNames(slots, order, svrType, routerId);
    hide Names;
  }

  /** A portal's READY sends it the game set and then the team set, unless it has shut its own session; nobody else
      is sent anything. */
  lemma PortalReadySends(s: State, sid: SessId, msg: Message, order: Order, routerId: ServerId, o: SessId)
    requires WellStored(s) && sid in s.sessions && s.sessions[sid].listener == Portals && o in s.sessions
    requires msg.head.ssCmd == READY && Fits(order.games, s.games) && Fits(order.teams, s.teams)
    ensures var t := Next(s, Receive(sid, msg, order), routerId);
            && o in t.sessions
            && t.sessions[o].sent
               == s.sessions[o].sent
                  + (if o == sid && s.sessions[o].accepting && !Sits(s.portals, msg.head.srcID, sid)
                     then [Pack(s.games, order.games, GAMESVR, routerId), Pack(s.teams, order.teams, TEAMSVR, routerId)]
                     else [])
  {
    SlotsKnown(s);
    var c := RouteClient(sid, msg.head.srcID, PORTAL);
    EvictSendsNothing(s, s.portals, c, o);
    EvictBinds(s, s.portals, c);
    EvictKeepsMaps(s, c, s.portals);
    hide Evict, Bind, Pack, Fits, WellStored, KeepsBinding;
    var t := AddPortal(s, c);
    var g, m := Pack(s.games, order.games, GAMESVR, routerId), Pack(s.teams, order.teams, TEAMSVR, routerId);
    assert t.sessions[o].sent + [g] + [m] == t.sessions[o].sent + [g, m];
  }

  lemma EvictSendsNothing(s: State, slots: Slots, c: RouteClient, o: SessId)
    requires c.session in s.sessions && (c.id in slots ==> slots[c.id].session in s.sessions) && o in s.sessions
    ensures var t := Evict(Bind(s, c), slots, c.id); o in t.sessions && t.sessions[o].sent == s.sessions[o].sent
  {
  }

  // ---- What shuts a session ----

  /** The events that shut session o. */
  predicate Shuts(s: State, e: Event, o: SessId)
    requires o in s.sessions
  {
    || e == WriteFailed(o)
    || (e == VerifyTimeout(o) && s.sessions[o].timer == Pending)
    || (e.Receive? && e.sid in s.sessions && e.msg.head.ssCmd == DISCONNECT && e.sid == o
        && s.sessions[o].verified && s.sessions[o].userdata.Some?)
    || (e.Receive? && e.sid in s.sessions && e.msg.head.ssCmd == READY
        && Sits(if s.sessions[e.sid].listener == Portals then s.portals
                else if e.msg.head.srcType == GAMESVR then s.games
                else if e.msg.head.srcType == TEAMSVR then s.teams else map[],
                e.msg.head.srcID, o))
  }

  /** A session is shut by a write error, by its timer, by its own DISCONNECT, and by a READY under an id whose slot it
      holds; by nothing else, and nothing opens it again. */
  lemma ShutIff(s: State, e: Event, routerId: ServerId, o: SessId)
    requires WellStored(s) && o in s.sessions
    ensures var t := Next(s, e, routerId);
            o in t.sessions && (t.sessions[o].accepting <==> s.sessions[o].accepting && !Shuts(s, e, o))
  {
    hide WellStored, Verified, InternalReady, PortalReady, InternalClosed, PortalClosed;
    if e.sid in s.sessions {
      match e
      case Receive(sid, msg, order) =>
        if msg.head.ssCmd != READY {
          VerifiedShutIff(s, sid, msg, o);
        } else {
          ReadyShutIff(s, e, routerId, o);
        }
      case Closed(sid, order) => ClosedShutsNone(s, sid, order, routerId, o);
      case _ =>
    }
  }

  lemma BroadcastShutsNone(s: State, slots: Slots, msg: Message, o: SessId)
    requires o in s.sessions
    ensures o in Broadcast(s, slots, msg).sessions
    ensures Broadcast(s, slots, msg).sessions[o].accepting == s.sessions[o].accepting
  {
    hide SlotsOf, Repeat;
  }

  lemma RelayShutsNone(s: State, slots: Slots, msg: Message, o: SessId)
    requires (forall k :: k in slots ==> slots[k].session in s.sessions) && o in s.sessions
    ensures o in Relay(s, slots, msg).sessions
    ensures Relay(s, slots, msg).sessions[o].accepting == s.sessions[o].accepting
  {
    BroadcastShutsNone(s, slots, msg, o);
    hide Broadcast;
  }

  lemma VerifiedShutIff(s: State, sid: SessId, msg: Message, o: SessId)
    requires WellStored(s) && sid in s.sessions && o in s.sessions
    ensures var t, x := Verified(s, sid, msg), s.sessions[sid];
            && o in t.sessions
            && (t.sessions[o].accepting
                <==> s.sessions[o].accepting
                     && !(o == sid && msg.head.ssCmd == DISCONNECT && x.verified && x.userdata.Some?))
  {
    SlotsKnown(s);
    SendShutsNone(s, sid, msg, o);
    CloseShuts(s, sid, o);
    hide Relay, WellStored, SendTo, CloseSession;
    if msg.head.ssCmd == MSG {
      if s.sessions[sid].listener == Internal {
        RelayShutsNone(s, s.portals, msg, o);
      } else if msg.head.dstType == GAMESVR {
        RelayShutsNone(s, s.games, msg, o);
      } else {
        RelayShutsNone(s, s.teams, msg, o);
      }
    }
  }

  lemma SendShutsNone(s: State, sid: SessId, msg: Message, o: SessId)
    requires sid in s.sessions && o in s.sessions
    ensures var t := SendTo(s, sid, msg); o in t.sessions && t.sessions[o].accepting == s.sessions[o].accepting
  {
  }

  lemma CloseShuts(s: State, sid: SessId, o: SessId)
    requires sid in s.sessions && o in s.sessions
    ensures var t := CloseSession(s, sid);
            o in t.sessions && t.sessions[o].accepting == (s.sessions[o].accepting && o != sid)
  {
  }

  lemma ReadyShutIff(s: State, e: Event, routerId: ServerId, o: SessId)
    requires WellStored(s) && e.Receive? && e.msg.head.ssCmd == READY && e.sid in s.sessions && o in s.sessions
    ensures var t := Next(s, e, routerId);
            o in t.sessions && (t.sessions[o].accepting <==> s.sessions[o].accepting && !Shuts(s, e, o))
  {
    SlotsKnown(s);
    hide WellStored, AddPortal, AddGame, AddTeam, InternalReady, PortalReady;
    var id := e.msg.head.srcID;
    if s.sessions[e.sid].listener == Portals {
      PortalReadyShutIff(s, e.sid, e.msg, e.order, routerId, o);
    } else if e.msg.head.srcType == GAMESVR || e.msg.head.srcType == TEAMSVR {
      ServerReadyShutIff(s, e.sid, e.msg, e.order, routerId, o);
    } else {
      IgnoredReady(s, e.sid, e.msg, e.order, routerId);
    }
  }

  lemma IgnoredReady(s: State, sid: SessId, msg: Message, order: Order, routerId: ServerId)
    requires WellStored(s) && sid in s.sessions && msg.head.srcType != GAMESVR && msg.head.srcType != TEAMSVR
    ensures InternalReady(s, sid, msg, order, routerId) == s
  {
  }

  lemma PortalReadyShutIff(s: State, sid: SessId, msg: Message, order: Order, routerId: ServerId, o: SessId)
    requires WellStored(s) && sid in s.sessions && o in s.sessions
    ensures var t := PortalReady(s, sid, msg, order, routerId);
            && o in t.sessions
            && (t.sessions[o].accepting <==> s.sessions[o].accepting && !Sits(s.portals, msg.head.srcID, o))
  {
    SlotsKnown(s);
    hide WellStored, Evict, Bind, SendTo, Fits, Pack, KeepsBinding;
    var c := RouteClient(sid, msg.head.srcID, PORTAL);
    EvictBinds(s, s.portals, c);
    EvictShutIff(s, s.portals, c, o);
    EvictKeepsMaps(s, c, s.portals);
    var t := AddPortal(s, c);
    if Fits(order.games, t.games) && Fits(order.teams, t.teams) {
      var g := Pack(t.games, order.games, GAMESVR, routerId);
      SendShutsNone(t, sid, g, o);
      SendShutsNone(SendTo(t, sid, g), sid, Pack(t.teams, order.teams, TEAMSVR, routerId), o);
    }
  }

  lemma ServerReadyShutIff(s: State, sid: SessId, msg: Message, order: Order, routerId: ServerId, o: SessId)
    requires WellStored(s) && sid in s.sessions && o in s.sessions
    requires msg.head.srcType == GAMESVR || msg.head.srcType == TEAMSVR
    ensures var t := InternalReady(s, sid, msg, order, routerId);
            && o in t.sessions
            && (t.sessions[o].accepting
                <==> s.sessions[o].accepting
                     && !Sits(if msg.head.srcType == GAMESVR then s.games else s.teams, msg.head.srcID, o))
  {
    SlotsKnown(s);
    hide WellStored, Evict, Bind, PushGames, PushTeams;
    if msg.head.srcType == GAMESVR {
      var c := RouteClient(sid, msg.head.srcID, GAMESVR);
      EvictShutIff(s, s.games, c, o);
      PushShutsNone(AddGame(s, c), order, routerId, o);
    } else {
      var c := RouteClient(sid, msg.head.srcID, TEAMSVR);
      EvictShutIff(s, s.teams, c, o);
      PushShutsNone(AddTeam(s, c), order, routerId, o);
    }
  }

  lemma PushShutsNone(s: State, order: Order, routerId: ServerId, o: SessId)
    requires o in s.sessions
    ensures var t := PushGames(s, order, routerId);
            o in t.sessions && t.sessions[o].accepting == s.sessions[o].accepting
    ensures var t := PushTeams(s, order, routerId);
            o in t.sessions && t.sessions[o].accepting == s.sessions[o].accepting
  {
    PushBindings(s, order, routerId);
    hide PushGames, PushTeams;
  }

  lemma EvictShutIff(s: State, slots: Slots, c: RouteClient, o: SessId)
    requires c.session in s.sessions && (c.id in slots ==> slots[c.id].session in s.sessions) && o in s.sessions
    ensures var t := Evict(Bind(s, c), slots, c.id);
            o in t.sessions && (t.sessions[o].accepting <==> s.sessions[o].accepting && !Sits(slots, c.id, o))
  {
  }

  lemma ClosedShutsNone(s: State, sid: SessId, order: Order, routerId: ServerId, o: SessId)
    requires WellStored(s) && sid in s.sessions && o in s.sessions
    ensures var t := Next(s, Closed(sid, order), routerId);
            o in t.sessions && t.sessions[o].accepting == s.sessions[o].accepting
  {
    var c, u := s.sessions[sid].userdata, Unbind(s, sid);
    UnbindShutsNone(s, sid, o);
    hide PushGames, PushTeams, WellStored, Unbind;
    if c.Some? {
      if c.value.svrType == GAMESVR {
        PushShutsNone(u.(games := u.games - {c.value.id}), order, routerId, o);
      } else if c.value.svrType == TEAMSVR {
        PushShutsNone(u.(teams := u.teams - {c.value.id}), order, routerId, o);
      }
    }
  }

  lemma UnbindShutsNone(s: State, sid: SessId, o: SessId)
    requires sid in s.sessions && o in s.sessions
    ensures var t := Unbind(s, sid); o in t.sessions && t.sessions[o].accepting == s.sessions[o].accepting
  {
  }

  // ---- Verification timers ----

  /** A verified session has stopped its timer. */
  predicate Safe(s: State, o: SessId) {
    o in s.sessions && (s.sessions[o].verified ==> s.sessions[o].timer == Stopped)
  }

  lemma BroadcastSafe(s: State, slots: Slots, msg: Message, o: SessId)
    requires Safe(s, o)
    ensures Safe(Broadcast(s, slots, msg), o)
  {
    hide SlotsOf, Repeat;
  }

  lemma PushSafe(s: State, order: Order, routerId: ServerId, o: SessId)
    requires Safe(s, o)
    ensures Safe(PushGames(s, order, routerId), o) && Safe(PushTeams(s, order, routerId), o)
  {
    hide Broadcast, Fits, Pack, Safe;
    if Fits(order.games, s.games) {
      BroadcastSafe(s, s.portals, Pack(s.games, order.games, GAMESVR, routerId), o);
    }
    if Fits(order.teams, s.teams) {
      BroadcastSafe(s, s.portals, Pack(s.teams, order.teams, TEAMSVR, routerId), o);
    }
  }

  lemma SendSafe(s: State, sid: SessId, msg: Message, o: SessId)
    requires sid in s.sessions && Safe(s, o)
    ensures Safe(SendTo(s, sid, msg), o) && Safe(CloseSession(s, sid), o) && Safe(Unbind(s, sid), o)
  {
  }

  lemma EvictSafe(s: State, slots: Slots, c: RouteClient, o: SessId)
    requires c.session in s.sessions && (c.id in slots ==> slots[c.id].session in s.sessions) && Safe(s, o)
    ensures Safe(Evict(Bind(s, c), slots, c.id), o)
  {
  }

  lemma RelaySafe(s: State, slots: Slots, msg: Message, o: SessId)
    requires (forall k :: k in slots ==> slots[k].session in s.sessions) && Safe(s, o)
    ensures Safe(Relay(s, slots, msg), o)
  {
    hide Broadcast, SendTo, Safe;
    BroadcastSafe(s, slots, msg, o);
    if msg.head.dstID in slots {
      SendSafe(s, slots[msg.head.dstID].session, msg, o);
    }
  }

  lemma VerifiedSafe(s: State, sid: SessId, msg: Message, o: SessId)
    requires WellStored(s) && sid in s.sessions && Safe(s, o)
    ensures Safe(Verified(s, sid, msg), o)
  {
    SlotsKnown(s);
    SendSafe(s, sid, msg, o);
    hide WellStored, SendTo, CloseSession, Relay, Safe;
    if msg.head.ssCmd == MSG {
      if s.sessions[sid].listener == Internal {
        RelaySafe(s, s.portals, msg, o);
      } else if msg.head.dstType == GAMESVR {
        RelaySafe(s, s.games, msg, o);
      } else {
        RelaySafe(s, s.teams, msg, o);
      }
    }
  }

  lemma PortalReadySafe(s: State, sid: SessId, msg: Message, order: Order, routerId: ServerId, o: SessId)
    requires WellStored(s) && sid in s.sessions && Safe(s, o)
    ensures Safe(PortalReady(s, sid, msg, order, routerId), o)
  {
    SlotsKnown(s);
    hide WellStored, Evict, Bind, SendTo, Fits, Pack, KeepsBinding;
    var c := RouteClient(sid, msg.head.srcID, PORTAL);
    EvictBinds(s, s.portals, c);
    EvictSafe(s, s.portals, c, o);
    EvictKeepsMaps(s, c, s.portals);
    var t := AddPortal(s, c);
    if Fits(order.games, t.games) && Fits(order.teams, t.teams) {
      var g := Pack(t.games, order.games, GAMESVR, routerId);
      SendSafe(t, sid, g, o);
      SendSafe(SendTo(t, sid, g), sid, Pack(t.teams, order.teams, TEAMSVR, routerId), o);
    }
  }

  lemma ServerReadySafe(s: State, sid: SessId, msg: Message, order: Order, routerId: ServerId, o: SessId)
    requires WellStored(s) && sid in s.sessions && Safe(s, o)
    ensures Safe(InternalReady(s, sid, msg, order, routerId), o)
  {
    SlotsKnown(s);
    hide WellStored, Evict, Bind, PushGames, PushTeams;
    if msg.head.srcType == GAMESVR {
      var c := RouteClient(sid, msg.head.srcID, GAMESVR);
      EvictSafe(s, s.games, c, o);
      PushSafe(AddGame(s, c), order, routerId, o);
    } else if msg.head.srcType == TEAMSVR {
      var c := RouteClient(sid, msg.head.srcID, TEAMSVR);
      EvictSafe(s, s.teams, c, o);
      PushSafe(AddTeam(s, c), order, routerId, o);
    }
  }

  lemma ServerClosedSafe(s: State, sid: SessId, order: Order, routerId: ServerId, o: SessId)
    requires WellStored(s) && sid in s.sessions && Safe(s, o)
    ensures Safe(InternalClosed(s, sid, order, routerId), o)
  {
    var c, u := s.sessions[sid].userdata, Unbind(s, sid);
    SendSafe(s, sid, Message(Head(0, 0, 0, 0, 0, 0), Other([])), o);
    hide PushGames, PushTeams, WellStored, Unbind;
    if c.Some? {
      if c.value.svrType == GAMESVR {
        PushSafe(u.(games := u.games - {c.value.id}), order, routerId, o);
      } else if c.value.svrType == TEAMSVR {
        PushSafe(u.(teams := u.teams - {c.value.id}), order, routerId, o);
      }
    }
  }

  lemma StepSafe(s: State, e: Event, routerId: ServerId, o: SessId)
    requires WellStored(s) && (o in s.sessions ==> Safe(s, o))
    ensures o in Next(s, e, routerId).sessions ==> o in s.sessions || e.Connect?
    ensures o in Next(s, e, routerId).sessions ==> Safe(Next(s, e, routerId), o)
  {
    if o !in s.sessions && o in Next(s, e, routerId).sessions {
      SameSessions(s, e, routerId, o);
    }
    hide WellStored, Verified, InternalReady, PortalReady, InternalClosed;
    if o in s.sessions && e.sid in s.sessions {
      match e
      case Receive(sid, msg, order) =>
        if msg.head.ssCmd != READY {
          VerifiedSafe(s, sid, msg, o);
        } else if s.sessions[sid].listener == Portals {
          PortalReadySafe(s, sid, msg, order, routerId, o);
        } else {
          ServerReadySafe(s, sid, msg, order, routerId, o);
        }
      case Closed(sid, order) =>
        if s.sessions[sid].listener == Internal {
          ServerClosedSafe(s, sid, order, routerId, o);
        }
      case _ =>
    }
  }

  /** Only a connection brings a new session. */
  lemma SameSessions(s: State, e: Event, routerId: ServerId, o: SessId)
    requires WellStored(s) && o !in s.sessions && o in Next(s, e, routerId).sessions
    ensures e.Connect? && e.sid == o
  {
    hide WellStored, Verified, InternalReady, PortalReady, InternalClosed, Binds, BoundSlot;
    if e.sid in s.sessions {
      match e
      case Receive(sid, msg, order) =>
        if msg.head.ssCmd != READY {
          Continuations.VerifiedSame(s, sid, msg);
        } else {
          ReadyKeys(s, sid, msg, order, routerId);
        }
      case Closed(sid, order) =>
        if s.sessions[sid].listener == Internal {
          ServerClosed(s, sid, order, routerId);
        }
      case _ =>
    }
  }

  lemma ReadyKeys(s: State, sid: SessId, msg: Message, order: Order, routerId: ServerId)
    requires WellStored(s) && sid in s.sessions
    ensures PortalReady(s, sid, msg, order, routerId).sessions.Keys == s.sessions.Keys
    ensures InternalReady(s, sid, msg, order, routerId).sessions.Keys == s.sessions.Keys
  {
    hide WellStored, InternalReady, PortalReady, KeepsBinding;
    PortalReadyBinds(s, sid, msg, order, routerId);
    if msg.head.srcType == GAMESVR {
      GameReady(s, sid, msg, order, routerId);
    } else if msg.head.srcType == TEAMSVR {
      TeamReady(s, sid, msg, order, routerId);
    } else {
      IgnoredReady(s, sid, msg, order, routerId);
    }
  }

  /** In every run a verified session has stopped its timer: a timeout can never shut it. */
  lemma {:induction false} VerifiedNeverTimesOut(events: seq<Event>, routerId: ServerId, o: SessId)
    requires Legal(events, routerId) && o in After(events, routerId).sessions
    ensures Safe(After(events, routerId), o)
    ensures var s := After(events, routerId);
            s.sessions[o].verified && WellStored(s) ==> Next(s, VerifyTimeout(o), routerId) == s
  {
    if events != [] {
      var before := events[..|events| - 1];
      var s := After(before, routerId);
      if o in s.sessions {
        VerifiedNeverTimesOut(before, routerId, o);
      }
      StepSafe(s, events[|events| - 1], routerId, o);
    }
  }
}
