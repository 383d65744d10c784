/**
 Where the router departs from what it seems to intend: removal by id alone, repeated READYs, and clients whose
 verification timer has fired. Each with the exact condition, and a run that meets it.
 */
module RouterDepartures {
  import opened Bytes
  import opened Heads
  import opened Options
  import opened Sequences
  import opened RouterSpec
  import opened RouterSync

  // ---- What handlers do to the maps and to the sessions' verification and binding ----

  lemma PushMaps(s: State, order: Order, routerId: ServerId)
    ensures var t := PushGames(s, order, routerId);
            t.games == s.games && t.teams == s.teams && t.portals == s.portals && t.sessions.Keys == s.sessions.Keys
    ensures var t := PushTeams(s, order, routerId);
            t.games == s.games && t.teams == s.teams && t.portals == s.portals && t.sessions.Keys == s.sessions.Keys
  {
    hide Fits, Pack, SlotsOf, Repeat, Send;
  }

  /** Everything about a session but its queue. */
  predicate SameBinding(x: Session, y: Session) {
    y.listener == x.listener && y.userdata == x.userdata && y.verified == x.verified && y.accepting == x.accepting
  }

  lemma PushBindings(s: State, order: Order, routerId: ServerId)
    ensures var t := PushGames(s, order, routerId);
            && t.games == s.games && t.teams == s.teams && t.portals == s.portals && t.sessions.Keys == s.sessions.Keys
            && forall sid :: sid in s.sessions ==> SameBinding(s.sessions[sid], t.sessions[sid])
    ensures var t := PushTeams(s, order, routerId);
            && t.games == s.games && t.teams == s.teams && t.portals == s.portals && t.sessions.Keys == s.sessions.Keys
            && forall sid :: sid in s.sessions ==> SameBinding(s.sessions[sid], t.sessions[sid])
  {
    hide Fits, Pack, SlotsOf, Repeat;
  }

  /** An evicted session is shut down; nothing else happens to it. */
  predicate KeepsBinding(x: Session, y: Session, evicted: bool) {
    y.listener == x.listener && y.userdata == x.userdata && y.verified == x.verified
        && (evicted || y.accepting == x.accepting)
  }

  predicate Sits(slots: Slots, id: ServerId, sid: SessId) {
    id in slots && slots[id].session == sid
  }

  /** A client is bound to its session, which is verified unless its timer has ended unverified, and stays writable
      unless it evicts itself from the slot. Other sessions stay bound and verified as they were. */
  predicate Binds(s: State, t: State, slots: Slots, c: RouteClient)
    requires c.session in s.sessions
  {
    && t.sessions.Keys == s.sessions.Keys
    && (forall o :: o in s.sessions && o != c.session ==>
          KeepsBinding(s.sessions[o], t.sessions[o], Sits(slots, c.id, o)))
    && (t.sessions[c.session].accepting <==> s.sessions[c.session].accepting && !Sits(slots, c.id, c.session))
    && t.sessions[c.session].listener == s.sessions[c.session].listener
    && t.sessions[c.session].userdata == Some(c)
    && (t.sessions[c.session].verified <==> s.sessions[c.session].verified || s.sessions[c.session].timer == Pending)
  }

  lemma EvictBinds(s: State, slots: Slots, c: RouteClient)
    requires c.session in s.sessions && (c.id in slots ==> slots[c.id].session in s.sessions)
    ensures Binds(s, Evict(Bind(s, c), slots, c.id), slots, c)
  {
    var t := Evict(Bind(s, c), slots, c.id);
    forall o | o in s.sessions && o != c.session
      ensures o in t.sessions && KeepsBinding(s.sessions[o], t.sessions[o], Sits(slots, c.id, o))
    {
    }
  }

  /** Sending does not change bindings. */
  lemma BindsThrough(s: State, t: State, u: State, slots: Slots, c: RouteClient)
    requires c.session in s.sessions && Binds(s, t, slots, c) && u.sessions.Keys == t.sessions.Keys
    requires forall sid :: sid in t.sessions ==> SameBinding(t.sessions[sid], u.sessions[sid])
    ensures Binds(s, u, slots, c)
  {
    forall o | o in s.sessions && o != c.session
      ensures o in u.sessions && KeepsBinding(s.sessions[o], u.sessions[o], Sits(slots, c.id, o))
    {
      assert SameBinding(t.sessions[o], u.sessions[o]);
    }
    assert SameBinding(t.sessions[c.session], u.sessions[c.session]);
  }

  /** What a game server's READY does to maps and bindings. */
  lemma GameReady(s: State, sid: SessId, msg: Message, order: Order, routerId: ServerId)
    requires WellStored(s) && sid in s.sessions && msg.head.srcType == GAMESVR
    ensures var t, c := InternalReady(s, sid, msg, order, routerId), RouteClient(sid, msg.head.srcID, GAMESVR);
            Binds(s, t, s.games, c) && t.games == s.games[c.id := c] && t.teams == s.teams && t.portals == s.portals
  {
    SlotsKnown(s);
    hide WellStored, Binds, PushGames, Fits;
    var c := RouteClient(sid, msg.head.srcID, GAMESVR);
    EvictBinds(s, s.games, c);
    var t := AddGame(s, c);
    PushBindings(t, order, routerId);
    hide Evict, Bind, SameBinding;
    EvictKeepsMaps(s, c, s.games);
    SessionsOnly(s, Evict(Bind(s, c), s.games, c.id), t, s.games, c);
    BindsThrough(s, t, PushGames(t, order, routerId), s.games, c);
  }

  lemma TeamReady(s: State, sid: SessId, msg: Message, order: Order, routerId: ServerId)
    requires WellStored(s) && sid in s.sessions && msg.head.srcType == TEAMSVR
    ensures var t, c := InternalReady(s, sid, msg, order, routerId), RouteClient(sid, msg.head.srcID, TEAMSVR);
            Binds(s, t, s.teams, c) && t.teams == s.teams[c.id := c] && t.games == s.games && t.portals == s.portals
  {
    SlotsKnown(s);
    hide WellStored, Binds, PushTeams, Fits;
    var c := RouteClient(sid, msg.head.srcID, TEAMSVR);
    EvictBinds(s, s.teams, c);
    var t := AddTeam(s, c);
    PushBindings(t, order, routerId);
    hide Evict, Bind, SameBinding;
    EvictKeepsMaps(s, c, s.teams);
    SessionsOnly(s, Evict(Bind(s, c), s.teams, c.id), t, s.teams, c);
    BindsThrough(s, t, PushTeams(t, order, routerId), s.teams, c);
  }

  lemma EvictKeepsMaps(s: State, c: RouteClient, slots: Slots)
    requires c.session in s.sessions && (c.id in slots ==> slots[c.id].session in s.sessions)
    ensures var t := Evict(Bind(s, c), slots, c.id); t.games == s.games && t.teams == s.teams && t.portals == s.portals
  {
  }

  lemma SessionsOnly(s: State, t: State, u: State, slots: Slots, c: RouteClient)
    requires c.session in s.sessions && Binds(s, t, slots, c) && u.sessions == t.sessions
    ensures Binds(s, u, slots, c)
  {
  }

  lemma SendToBindings(s: State, sid: SessId, msg: Message)
    requires sid in s.sessions
    ensures var t := SendTo(s, sid, msg);
            && t.games == s.games && t.teams == s.teams && t.portals == s.portals && t.sessions.Keys == s.sessions.Keys
            && forall o :: o in s.sessions ==> SameBinding(s.sessions[o], t.sessions[o])
  {
  }

  lemma PortalReadyBinds(s: State, sid: SessId, msg: Message, order: Order, routerId: ServerId)
    requires WellStored(s) && sid in s.sessions
    ensures var t, c := PortalReady(s, sid, msg, order, routerId), RouteClient(sid, msg.head.srcID, PORTAL);
            Binds(s, t, s.portals, c) && t.portals == s.portals[c.id := c] && t.games == s.games && t.teams == s.teams
  {
    SlotsKnown(s);
    hide WellStored, Binds, Fits, Pack;
    var c := RouteClient(sid, msg.head.srcID, PORTAL);
    EvictBinds(s, s.portals, c);
    var t := AddPortal(s, c);
    EvictKeepsMaps(s, c, s.portals);
    hide Evict, Bind, SendTo, SameBinding;
    SessionsOnly(s, Evict(Bind(s, c), s.portals, c.id), t, s.portals, c);
    if Fits(order.games, t.games) && Fits(order.teams, t.teams) {
      var u := SendTo(t, sid, Pack(t.games, order.games, GAMESVR, routerId));
      SendToBindings(t, sid, Pack(t.games, order.games, GAMESVR, routerId));
      SendToBindings(u, sid, Pack(t.teams, order.teams, TEAMSVR, routerId));
      BindsThrough(s, t, u, s.portals, c);
      BindsThrough(s, u, SendTo(u, sid, Pack(t.teams, order.teams, TEAMSVR, routerId)), s.portals, c);
    }
  }

  /** The one slot of a kind that the close of a session empties: that of the client it is bound to, if verified. */
  function BoundSlot(x: Session, svrType: int): set<ServerId> {
    if x.verified && x.userdata.Some? && x.userdata.value.svrType == svrType then {x.userdata.value.id} else {}
  }

  lemma UnbindKeepsMaps(s: State, sid: SessId)
    requires sid in s.sessions
    ensures var u := Unbind(s, sid);
            u.games == s.games && u.teams == s.teams && u.portals == s.portals && u.sessions.Keys == s.sessions.Keys
  {
  }

  lemma ServerClosed(s: State, sid: SessId, order: Order, routerId: ServerId)
    requires WellStored(s) && sid in s.sessions
    ensures var t, x := InternalClosed(s, sid, order, routerId), s.sessions[sid];
            && t.portals == s.portals && t.sessions.Keys == s.sessions.Keys
            && t.games == s.games - BoundSlot(x, GAMESVR) && t.teams == s.teams - BoundSlot(x, TEAMSVR)
  {
    var x := s.sessions[sid];
    BoundSlots(s, x);
    UnbindKeepsMaps(s, sid);
    hide PushGames, PushTeams, WellStored, Unbind, BoundSlot;
    if x.verified && x.userdata.Some? {
      var u, c := Unbind(s, sid), x.userdata.value;
      if c.svrType == GAMESVR {
        PushMaps(u.(games := u.games - {c.id}), order, routerId);
      } else if c.svrType == TEAMSVR {
        PushMaps(u.(teams := u.teams - {c.id}), order, routerId);
      }
    }
  }

  lemma BoundSlots(s: State, x: Session)
    ensures !(x.verified && x.userdata.Some?) ==> BoundSlot(x, GAMESVR) == {} == BoundSlot(x, TEAMSVR)
    ensures x.verified && x.userdata.Some? ==>
              && BoundSlot(x, GAMESVR) == (if x.userdata.value.svrType == GAMESVR then {x.userdata.value.id} else {})
              && BoundSlot(x, TEAMSVR) == (if x.userdata.value.svrType == TEAMSVR then {x.userdata.value.id} else {})
    ensures s.games - {} == s.games && s.teams - {} == s.teams
  {
  }

  // ---- Removal by id alone ----

  /** A close event unregisters some other session's portal exactly when its own slot has been taken over. */
  lemma CloseDropsReplacementIff(s: State, sid: SessId, order: Order, routerId: ServerId)
    requires WellStored(s) && sid in s.sessions && s.sessions[sid].listener == Portals
    ensures var x := s.sessions[sid];
            (exists k :: k in s.portals && s.portals[k].session != sid
                && k !in Next(s, Closed(sid, order), routerId).portals)
            <==> (x.verified && x.userdata.Some? && x.userdata.value.id in s.portals
                && s.portals[x.userdata.value.id].session != sid)
  {
    var x := s.sessions[sid];
    var t := Next(s, Closed(sid, order), routerId);
    if x.verified && x.userdata.Some? && x.userdata.value.id in s.portals {
      assert x.userdata.value.id !in t.portals;
    }
  }

  /** The session is verified and bound to a client of this type whose slot another session has taken. */
  predicate Replaced(s: State, sid: SessId, slots: Slots, svrType: int)
    requires sid in s.sessions
  {
    var x := s.sessions[sid];
    && x.verified && x.userdata.Some? && x.userdata.value.svrType == svrType
    && x.userdata.value.id in slots && slots[x.userdata.value.id].session != sid
  }

  /** Likewise for game and team servers, each in its own map. */
  lemma CloseDropsServerIff(s: State, sid: SessId, order: Order, routerId: ServerId)
    requires WellStored(s) && sid in s.sessions && s.sessions[sid].listener == Internal
    ensures var t := Next(s, Closed(sid, order), routerId);
            && ((exists k :: k in s.games && s.games[k].session != sid && k !in t.games)
                <==> Replaced(s, sid, s.games, GAMESVR))
            && ((exists k :: k in s.teams && s.teams[k].session != sid && k !in t.teams)
                <==> Replaced(s, sid, s.teams, TEAMSVR))
  {
    ServerClosed(s, sid, order, routerId);
    hide InternalClosed, WellStored;
    var t := Next(s, Closed(sid, order), routerId);
    var x := s.sessions[sid];
    if Replaced(s, sid, s.games, GAMESVR) {
      assert x.userdata.value.id in s.games && x.userdata.value.id !in t.games;
    }
    if Replaced(s, sid, s.teams, TEAMSVR) {
      assert x.userdata.value.id in s.teams && x.userdata.value.id !in t.teams;
    }
  }

  /** The consequence: the late close of a game server's former session makes every registered, writable portal learn
      a set without that server, although its present session is untouched. */
  lemma LateCloseHidesServer(s: State, late: SessId, id: ServerId, order: Order, routerId: ServerId)
    requires Inv(s) && late in s.sessions && s.sessions[late].listener == Internal
    requires Replaced(s, late, s.games, GAMESVR) && s.sessions[late].userdata.value.id == id
    requires Possible(s, Closed(late, order), routerId)
    ensures var t, g := Next(s, Closed(late, order), routerId), s.games[id].session;
            && g in s.sessions && t.sessions[g] == s.sessions[g]
            && forall k :: k in t.portals && t.sessions[t.portals[k].session].accepting ==>
                 var told := LastIds(t.sessions[t.portals[k].session].sent, GAMESVR);
                     told.Some? && id as int !in told.value
  {
    var t, g := Next(s, Closed(late, order), routerId), s.games[id].session;
    StepKeepsInv(s, Closed(late, order), routerId);
    ServerClosed(s, late, order, routerId);
    assert SlotsOf(s.portals, g) == {};
    var u := Unbind(s, late).(games := s.games - {id});
    UntouchedByPush(u, g, order, routerId);
    hide LastIds, Pack, Fits, PushGames, PushTeams, SlotsOf, OnlyPacked;
  }

  /** The consequence of a late close: once it has taken the slot of its successor, a portal that is connected and
      writable is told nothing of a game server that joins. */
  lemma LateCloseStrandsPortal(s: State, late: SessId, p: SessId, id: ServerId, g: SessId, msg: Message, order: Order,
      order': Order, routerId: ServerId)
    requires Inv(s) && late in s.sessions && s.sessions[late].listener == Portals && s.sessions[late].verified
    requires s.sessions[late].userdata.Some? && s.sessions[late].userdata.value.id == id
    requires SlotsOf(s.portals, p) == {id} && p != late && s.sessions[p].accepting
    requires g in s.sessions && s.sessions[g].listener == Internal
    requires msg.head.ssCmd == READY && msg.head.srcType == GAMESVR && msg.head.srcID !in s.games
    requires var t := Next(s, Closed(late, order), routerId);
            WellStored(t) && Possible(t, Receive(g, msg, order'), routerId)
    ensures var t := Next(Next(s, Closed(late, order), routerId), Receive(g, msg, order'), routerId);
            && p in t.sessions && t.sessions[p] == s.sessions[p] && msg.head.srcID in t.games
            && !Told(t.sessions[p], GAMESVR, t.games.Keys)
  {
    var t, c := Next(s, Closed(late, order), routerId), RouteClient(g, msg.head.srcID, GAMESVR);
    OnlySlotGone(s, late, p, id, order, routerId);
    StillTold(s, p, id);
    SlotsKnown(t);
    hide WellStored, OnlyPacked, AllTold, Told, PushGames, SlotsOf, PortalClosed, Bind, Possible;
    var u := AddGame(t, c);
    assert u.portals == t.portals && u.games == s.games[c.id := c];
    GameAddsQuietly(t, c, p);
    PushMaps(u, order', routerId);
    UntouchedByPush(u, p, order', routerId);
    ToldOfFewer(s.sessions[p], GAMESVR, s.games.Keys, c.id);
    assert u.games.Keys == s.games.Keys + {c.id};
  }

  lemma OnlySlotGone(s: State, late: SessId, p: SessId, id: ServerId, order: Order, routerId: ServerId)
    requires WellStored(s) && late in s.sessions && s.sessions[late].listener == Portals && s.sessions[late].verified
    requires s.sessions[late].userdata.Some? && s.sessions[late].userdata.value.id == id
    requires SlotsOf(s.portals, p) == {id} && p != late
    ensures var t := Next(s, Closed(late, order), routerId);
            && t.games == s.games && SlotsOf(t.portals, p) == {} && t.sessions.Keys == s.sessions.Keys
            && p in t.sessions && t.sessions[p] == s.sessions[p] && t.sessions[p].listener == Portals
            && forall o :: o in s.sessions ==> t.sessions[o].listener == s.sessions[o].listener
  {
    assert id in SlotsOf(s.portals, p);
    var t := Next(s, Closed(late, order), routerId);
    assert t.portals == s.portals - {id};
    assert forall k :: k in t.portals ==> (t.portals[k].session == p ==> k in SlotsOf(s.portals, p));
  }

  lemma StillTold(s: State, p: SessId, id: ServerId)
    requires Inv(s) && id in SlotsOf(s.portals, p)
    ensures p in s.sessions && Told(s.sessions[p], GAMESVR, s.games.Keys)
  {
    hide Told, OnlyPacked;
  }

  /** Registering a game server leaves the sessions of portals alone. */
  lemma GameAddsQuietly(s: State, c: RouteClient, p: SessId)
    requires WellStored(s) && c.session in s.sessions && s.sessions[c.session].listener == Internal
    requires p in s.sessions && s.sessions[p].listener == Portals
    ensures c.id in s.games ==> s.games[c.id].session in s.sessions
    ensures p in AddGame(s, c).sessions && AddGame(s, c).sessions[p] == s.sessions[p]
  {
  }

  /** A broadcast to the portals leaves a session alone that no portal slot holds. */
  lemma UntouchedByPush(s: State, sid: SessId, order: Order, routerId: ServerId)
    requires sid in s.sessions && SlotsOf(s.portals, sid) == {}
    ensures var t := PushGames(s, order, routerId); sid in t.sessions && t.sessions[sid] == s.sessions[sid]
  {
    hide Fits, Pack, SlotsOf;
    assert forall m :: Repeat(m, 0) == [];
  }

  lemma ToldOfFewer(x: Session, svrType: int, servers: set<ServerId>, id: ServerId)
    requires x.accepting && Told(x, svrType, servers) && id !in servers
    ensures !Told(x, svrType, servers + {id})
  {
    hide LastIds, NoDuplicates;
    assert id in servers + {id};
  }

  // ---- READY ----

  /** After its READY a portal can be written to exactly when it could be before and its slot was not already its
      own. */
  lemma ReadyClosesSelfIff(s: State, sid: SessId, msg: Message, order: Order, routerId: ServerId)
    requires WellStored(s) && sid in s.sessions && s.sessions[sid].listener == Portals && msg.head.ssCmd == READY
    ensures var t := Next(s, Receive(sid, msg, order), routerId);
            t.sessions[sid].accepting <==>
              s.sessions[sid].accepting && !(msg.head.srcID in s.portals && s.portals[msg.head.srcID].session == sid)
  {
  }

  /** The same for game and team servers. */
  lemma ServerReadyClosesSelfIff(s: State, sid: SessId, msg: Message, order: Order, routerId: ServerId)
    requires WellStored(s) && sid in s.sessions && s.sessions[sid].listener == Internal && msg.head.ssCmd == READY
    ensures var t := Next(s, Receive(sid, msg, order), routerId);
            && (msg.head.srcType == GAMESVR ==>
                  && sid in t.sessions
                  && (t.sessions[sid].accepting <==> s.sessions[sid].accepting && !Sits(s.games, msg.head.srcID, sid)))
            && (msg.head.srcType == TEAMSVR ==>
                  && sid in t.sessions
                  && (t.sessions[sid].accepting <==> s.sessions[sid].accepting && !Sits(s.teams, msg.head.srcID, sid)))
  {
    hide InternalReady, WellStored, KeepsBinding;
    if msg.head.srcType == GAMESVR {
      GameReady(s, sid, msg, order, routerId);
    } else if msg.head.srcType == TEAMSVR {
      TeamReady(s, sid, msg, order, routerId);
    }
  }

  // ---- What a close leaves behind ----

  lemma Stores(s: State, e: Event, routerId: ServerId)
    requires Inv(s) && Possible(s, e, routerId)
    ensures WellStored(s) && Inv(Next(s, e, routerId)) && WellStored(Next(s, e, routerId))
  {
    StepKeepsInv(s, e, routerId);
  }

  /** Some slot still holds the session. */
  predicate Left(s: State, sid: SessId) {
    SlotsOf(s.portals, sid) != {} || SlotsOf(s.games, sid) != {} || SlotsOf(s.teams, sid) != {}
  }

  /** A close takes from the session's slots exactly the bound one, in every map. */
  lemma CloseFreesBound(s: State, sid: SessId, order: Order, routerId: ServerId)
    requires WellStored(s) && sid in s.sessions
    ensures var t, x := Next(s, Closed(sid, order), routerId), s.sessions[sid];
            && SlotsOf(t.portals, sid) == SlotsOf(s.portals, sid) - BoundSlot(x, PORTAL)
            && SlotsOf(t.games, sid) == SlotsOf(s.games, sid) - BoundSlot(x, GAMESVR)
            && SlotsOf(t.teams, sid) == SlotsOf(s.teams, sid) - BoundSlot(x, TEAMSVR)
  {
    BoundWellOf(s, sid);
    if s.sessions[sid].listener == Internal {
      ServerClosed(s, sid, order, routerId);
      hide InternalClosed, WellStored;
    }
  }

  lemma SlotsElsewhere(s: State, sid: SessId)
    requires WellStored(s) && sid in s.sessions
    ensures s.sessions[sid].listener == Portals ==> SlotsOf(s.games, sid) == {} && SlotsOf(s.teams, sid) == {}
    ensures s.sessions[sid].listener == Internal ==> SlotsOf(s.portals, sid) == {}
  {
  }

  /** In any state whatsoever, a close leaves no slot to the session exactly if each of its slots is the bound one. */
  lemma CloseLeavesNothingIff(s: State, sid: SessId, order: Order, routerId: ServerId)
    requires WellStored(s) && sid in s.sessions
    ensures !Left(Next(s, Closed(sid, order), routerId), sid)
            <==> && SlotsOf(s.portals, sid) <= BoundSlot(s.sessions[sid], PORTAL)
                 && SlotsOf(s.games, sid) <= BoundSlot(s.sessions[sid], GAMESVR)
                 && SlotsOf(s.teams, sid) <= BoundSlot(s.sessions[sid], TEAMSVR)
  {
    hide Next, WellStored;
    CloseFreesBound(s, sid, order, routerId);
  }

  /** After a portal's READY, its close leaves no slot to it exactly if the session is verified, or its timer was still
      pending, and it held no other slot. The slot of this READY goes exactly under the first condition. */
  lemma PortalLeavesNothingIff(
    s: State, sid: SessId, msg: Message, order: Order, order': Order, routerId: ServerId)
    requires Inv(s) && sid in s.sessions && s.sessions[sid].listener == Portals && msg.head.ssCmd == READY
    requires Possible(s, Receive(sid, msg, order), routerId)
    ensures WellStored(Next(s, Receive(sid, msg, order), routerId))
    ensures var t, x := Next(s, Receive(sid, msg, order), routerId), s.sessions[sid];
            var u := Next(t, Closed(sid, order'), routerId);
            && (!Left(u, sid)
                <==> (x.verified || x.timer == Pending) && SlotsOf(s.portals, sid) <= {msg.head.srcID})
            && Sits(t.portals, msg.head.srcID, sid)
            && (msg.head.srcID in u.portals <==> !x.verified && x.timer != Pending)
  {
    Stores(s, Receive(sid, msg, order), routerId);
    PortalReadyBinds(s, sid, msg, order, routerId);
    var t := PortalReady(s, sid, msg, order, routerId);
    hide PortalReady, WellStored, Inv, KeepsBinding;
    CloseFreesBound(t, sid, order', routerId);
    SlotsElsewhere(t, sid);
    SlotTaken(s.portals, RouteClient(sid, msg.head.srcID, PORTAL));
  }

  lemma SlotTaken(slots: Slots, c: RouteClient)
    ensures SlotsOf(slots[c.id := c], c.session) == SlotsOf(slots, c.session) + {c.id}
  {
  }

  /** The same for game and team servers, whose sessions may hold slots in both maps. */
  lemma ServerLeavesNothingIff(
    s: State, sid: SessId, msg: Message, order: Order, order': Order, routerId: ServerId)
    requires Inv(s) && sid in s.sessions && s.sessions[sid].listener == Internal && msg.head.ssCmd == READY
    requires msg.head.srcType == GAMESVR || msg.head.srcType == TEAMSVR
    requires Possible(s, Receive(sid, msg, order), routerId)
    ensures WellStored(Next(s, Receive(sid, msg, order), routerId))
    ensures var t, x := Next(s, Receive(sid, msg, order), routerId), s.sessions[sid];
            var u := Next(t, Closed(sid, order'), routerId);
            && (!Left(u, sid)
                <==> && (x.verified || x.timer == Pending)
                     && SlotsOf(s.games, sid) <= (if msg.head.srcType == GAMESVR then {msg.head.srcID} else {})
                     && SlotsOf(s.teams, sid) <= (if msg.head.srcType == TEAMSVR then {msg.head.srcID} else {}))
            && Sits(if msg.head.srcType == GAMESVR then t.games else t.teams, msg.head.srcID, sid)
            && (msg.head.srcID in (if msg.head.srcType == GAMESVR then u.games else u.teams)
                <==> !x.verified && x.timer != Pending)
  {
    Stores(s, Receive(sid, msg, order), routerId);
    var t := InternalReady(s, sid, msg, order, routerId);
    hide InternalReady, InternalClosed, WellStored, Inv, Possible, Binds, Left, SlotsOf;
    if msg.head.srcType == GAMESVR {
      GameReady(s, sid, msg, order, routerId);
      GameLeft(s, t, RouteClient(sid, msg.head.srcID, GAMESVR), order', routerId);
    } else {
      TeamReady(s, sid, msg, order, routerId);
      TeamLeft(s, t, RouteClient(sid, msg.head.srcID, TEAMSVR), order', routerId);
    }
  }

  lemma GameLeft(s: State, t: State, c: RouteClient, order: Order, routerId: ServerId)
    requires c.session in s.sessions && s.sessions[c.session].listener == Internal && c.svrType == GAMESVR
    requires WellStored(t) && Binds(s, t, s.games, c) && t.games == s.games[c.id := c] && t.teams == s.teams
    ensures c.session in t.sessions
    ensures var u, x := Next(t, Closed(c.session, order), routerId), s.sessions[c.session];
            && (!Left(u, c.session)
                <==> && (x.verified || x.timer == Pending)
                     && SlotsOf(s.games, c.session) <= {c.id} && SlotsOf(s.teams, c.session) <= {})
            && Sits(t.games, c.id, c.session) && (c.id in u.games <==> !x.verified && x.timer != Pending)
  {
    hide InternalClosed, WellStored, KeepsBinding;
    SlotTaken(s.games, c);
    ServerClosed(t, c.session, order, routerId);
    CloseFreesBound(t, c.session, order, routerId);
    SlotsElsewhere(t, c.session);
    hide SlotsOf;
  }

  lemma TeamLeft(s: State, t: State, c: RouteClient, order: Order, routerId: ServerId)
    requires c.session in s.sessions && s.sessions[c.session].listener == Internal && c.svrType == TEAMSVR
    requires WellStored(t) && Binds(s, t, s.teams, c) && t.teams == s.teams[c.id := c] && t.games == s.games
    ensures c.session in t.sessions
    ensures var u, x := Next(t, Closed(c.session, order), routerId), s.sessions[c.session];
            && (!Left(u, c.session)
                <==> && (x.verified || x.timer == Pending)
                     && SlotsOf(s.games, c.session) <= {} && SlotsOf(s.teams, c.session) <= {c.id})
            && Sits(t.teams, c.id, c.session) && (c.id in u.teams <==> !x.verified && x.timer != Pending)
  {
    hide InternalClosed, WellStored, KeepsBinding;
    SlotTaken(s.teams, c);
    ServerClosed(t, c.session, order, routerId);
    CloseFreesBound(t, c.session, order, routerId);
    SlotsElsewhere(t, c.session);
    hide SlotsOf;
  }
}
