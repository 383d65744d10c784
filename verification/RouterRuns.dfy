/** Runs of the router from its start, event by event, that meet the conditions of RouterDepartures. */
module RouterRuns {
  import opened Bytes
  import opened Heads
  import opened Options
  import opened Sequences
  import opened RouterSpec
  import opened RouterSync
  import opened RouterDepartures

  const NO_ORDER := Order([], [])

  function Ready(svrType: I8, id: ServerId): Message {
    Message(Head(READY, 0, svrType, 0, id, 0), Other([]))
  }

  /** A run in which a portal is still registered after its close: its timer fires while its READY is waiting. */
  lemma UnverifiedRun(routerId: ServerId)
    ensures var events := [Connect(1, Portals), VerifyTimeout(1), Receive(1, Ready(PORTAL, 7), NO_ORDER),
            Closed(1, NO_ORDER)];
            Legal(events, routerId) && 7 in After(events, routerId).portals
  {
    var e := [Connect(1, Portals), VerifyTimeout(1)];
    TimedOut(routerId, Portals);
    var s := After(e, routerId);
    RouterSync.RouterSync(e, routerId);
    var ready := Receive(1, Ready(PORTAL, 7), NO_ORDER);
    PortalLeavesNothingIff(s, 1, Ready(PORTAL, 7), NO_ORDER, NO_ORDER, routerId);
    var t := Next(s, ready, routerId);
    assert t.games == map[] && t.teams == map[];
    RunOn(e, ready, routerId);
    RunOn(e + [ready], Closed(1, NO_ORDER), routerId);
    assert e + [ready] + [Closed(1, NO_ORDER)] == [Connect(1, Portals), VerifyTimeout(1), ready, Closed(1, NO_ORDER)];
  }

  /** Likewise a game server, which every portal is then told of. */
  lemma UnverifiedServerRun(routerId: ServerId)
    ensures var order := Order([7], []);
            var events := [Connect(1, Internal), VerifyTimeout(1), Receive(1, Ready(GAMESVR, 7), order),
                Closed(1, order)];
            Legal(events, routerId) && 7 in After(events, routerId).games
  {
    var order := Order([7], []);
    var e := [Connect(1, Internal), VerifyTimeout(1)];
    TimedOut(routerId, Internal);
    var s := After(e, routerId);
    RouterSync.RouterSync(e, routerId);
    var ready := Receive(1, Ready(GAMESVR, 7), order);
    var t := Next(s, ready, routerId);
    assert t.games == map[7 := RouteClient(1, 7, GAMESVR)] && t.teams == map[];
    assert Fits(order.games, t.games) && Fits(order.teams, t.teams);
    ServerLeavesNothingIff(s, 1, Ready(GAMESVR, 7), order, order, routerId);
    RunOn(e, ready, routerId);
    StillThere(t, order, routerId);
    RunOn(e + [ready], Closed(1, order), routerId);
    assert e + [ready] + [Closed(1, order)] == [Connect(1, Internal), VerifyTimeout(1), ready, Closed(1, order)];
  }

  lemma StillThere(t: State, order: Order, routerId: ServerId)
    requires WellStored(t) && 1 in t.sessions && !t.sessions[1].verified
    ensures Next(t, Closed(1, order), routerId) == t
  {
  }

  lemma TimedOut(routerId: ServerId, listener: Listener)
    ensures var e := [Connect(1, listener), VerifyTimeout(1)];
            && Legal(e, routerId)
            && After(e, routerId) == INIT.(sessions := map[1 := Session(listener, false, Fired, false, None, [])])
  {
    RunOn([], Connect(1, listener), routerId);
    RouterSync.RouterSync([] + [Connect(1, listener)], routerId);
    RunOn([] + [Connect(1, listener)], VerifyTimeout(1), routerId);
    assert [] + [Connect(1, listener)] + [VerifyTimeout(1)] == [Connect(1, listener), VerifyTimeout(1)];
  }

  // ---- Runs that meet these conditions ----

  /** One more event of a run, whose orders list the maps that it leaves. */
  lemma Then(events: seq<Event>, e: Event, routerId: ServerId) returns (more: seq<Event>)
    requires Legal(events, routerId)
    requires WellStored(After(events, routerId)) && Possible(After(events, routerId), e, routerId)
    ensures more == events + [e] && Legal(more, routerId)
    ensures After(more, routerId) == Next(After(events, routerId), e, routerId)
    ensures Inv(After(more, routerId))
  {
    more := events + [e];
    RunOn(events, e, routerId);
    RouterSync.RouterSync(more, routerId);
  }

  lemma NothingYet(routerId: ServerId)
    ensures Legal([], routerId) && After([], routerId) == INIT && WellStored(INIT)
  {
  }

  /** A new connection changes nothing else. */
  lemma ConnectOnly(events: seq<Event>, sid: SessId, listener: Listener, routerId: ServerId) returns (more: seq<Event>)
    requires Legal(events, routerId) && Inv(After(events, routerId)) && sid !in After(events, routerId).sessions
    ensures more == events + [Connect(sid, listener)] && Legal(more, routerId) && Inv(After(more, routerId))
    ensures var s, t := After(events, routerId), After(more, routerId);
            t == s.(sessions := s.sessions[sid := Session(listener, false, Pending, true, None, [])])
  {
    more := Then(events, Connect(sid, listener), routerId);
  }

  lemma PortalRegisters(events: seq<Event>, sid: SessId, id: ServerId, order: Order, routerId: ServerId)
      returns (more: seq<Event>)
    requires Legal(events, routerId) && Inv(After(events, routerId))
    requires var s := After(events, routerId);
             && sid in s.sessions && s.sessions[sid].listener == Portals
             && Fits(order.games, s.games) && Fits(order.teams, s.teams)
    ensures more == events + [Receive(sid, Ready(PORTAL, id), order)] && Legal(more, routerId)
    ensures Inv(After(more, routerId))
    ensures var s, t, c := After(events, routerId), After(more, routerId), RouteClient(sid, id, PORTAL);
            Binds(s, t, s.portals, c) && t.portals == s.portals[id := c] && t.games == s.games && t.teams == s.teams
  {
    hide PortalReady, Legal, WellStored, OnlyPacked, AllTold, Fits;
    var s := After(events, routerId);
    PortalReadyBinds(s, sid, Ready(PORTAL, id), order, routerId);
    more := Then(events, Receive(sid, Ready(PORTAL, id), order), routerId);
  }

  lemma GameRegisters(events: seq<Event>, sid: SessId, id: ServerId, order: Order, routerId: ServerId)
      returns (more: seq<Event>)
    requires Legal(events, routerId) && Inv(After(events, routerId))
    requires var s := After(events, routerId);
             && sid in s.sessions && s.sessions[sid].listener == Internal
             && Fits(order.games, s.games[id := RouteClient(sid, id, GAMESVR)]) && Fits(order.teams, s.teams)
    ensures more == events + [Receive(sid, Ready(GAMESVR, id), order)] && Legal(more, routerId)
    ensures Inv(After(more, routerId))
    ensures var s, t, c := After(events, routerId), After(more, routerId), RouteClient(sid, id, GAMESVR);
            Binds(s, t, s.games, c) && t.games == s.games[id := c] && t.teams == s.teams && t.portals == s.portals
  {
    hide InternalReady, Legal, WellStored, OnlyPacked, AllTold, Fits;
    var s := After(events, routerId);
    GameReady(s, sid, Ready(GAMESVR, id), order, routerId);
    more := Then(events, Receive(sid, Ready(GAMESVR, id), order), routerId);
  }

  /** Portal 7 connects a second time, on session 2, before session 1 has closed. */
  lemma SecondPortal(routerId: ServerId) returns (events: seq<Event>)
    ensures Legal(events, routerId) && Inv(After(events, routerId))
    ensures var s := After(events, routerId);
            && s.portals == map[7 := RouteClient(2, 7, PORTAL)] && s.games == map[] && s.teams == map[]
            && 1 in s.sessions && s.sessions[1].listener == Portals && s.sessions[1].verified
            && s.sessions[1].userdata == Some(RouteClient(1, 7, PORTAL))
            && 2 in s.sessions && s.sessions[2].accepting
            && 3 in s.sessions && s.sessions[3].listener == Internal
  {
    hide Legal, After, Next, Inv, WellStored, Possible;
    NothingYet(routerId);
    RouterSync.RouterSync([], routerId);
    events := ConnectOnly([], 1, Portals, routerId);
    events := ConnectOnly(events, 2, Portals, routerId);
    events := ConnectOnly(events, 3, Internal, routerId);
    events := PortalRegisters(events, 1, 7, NO_ORDER, routerId);
    events := PortalRegisters(events, 2, 7, NO_ORDER, routerId);
  }

  /** A whole run in which portal 7 stays connected and writable, and is told nothing of game server 9. */
  lemma StrandedRun(routerId: ServerId) returns (events: seq<Event>)
    ensures Legal(events, routerId)
    ensures var s := After(events, routerId);
            2 in s.sessions && s.sessions[2].accepting && 9 in s.games && !Told(s.sessions[2], GAMESVR, s.games.Keys)
  {
    events := SecondPortal(routerId);
    var s := After(events, routerId);
    hide Legal, After, Told, Next, Inv, WellStored, Possible, SlotsOf;
    ThenClosed(s, routerId);
    OneSlot(s);
    events := Then(events, Closed(1, NO_ORDER), routerId);
    events := Then(events, Receive(3, Ready(GAMESVR, 9), Order([9], [])), routerId);
    LateCloseStrandsPortal(s, 1, 2, 7, 3, Ready(GAMESVR, 9), NO_ORDER, Order([9], []), routerId);
    AcceptsStill(s, After(events, routerId), 2);
  }

  lemma AcceptsStill(s: State, t: State, p: SessId)
    requires p in s.sessions && s.sessions[p].accepting && p in t.sessions && t.sessions[p] == s.sessions[p]
    ensures t.sessions[p].accepting
  {
  }

  lemma OneSlot(s: State)
    requires s.portals == map[7 := RouteClient(2, 7, PORTAL)]
    ensures SlotsOf(s.portals, 2) == {7}
  {
  }

  lemma ThenClosed(s: State, routerId: ServerId)
    requires Inv(s) && s.games == map[] && s.teams == map[]
    requires 1 in s.sessions && s.sessions[1].listener == Portals && 3 in s.sessions
    requires s.sessions[3].listener == Internal
    ensures Possible(s, Closed(1, NO_ORDER), routerId)
    ensures var t := Next(s, Closed(1, NO_ORDER), routerId);
            WellStored(t) && Possible(t, Receive(3, Ready(GAMESVR, 9), Order([9], [])), routerId)
  {
    PortalClosedMaps(s);
    hide PortalClosed, OnlyPacked, AllTold, Fits;
    NoneFits();
    Stores(s, Closed(1, NO_ORDER), routerId);
    hide WellStored;
    GameJoins(Next(s, Closed(1, NO_ORDER), routerId), routerId);
  }

  lemma NoneFits()
    ensures Fits([], map[]) && forall c :: Fits([9], map[9 := c])
  {
  }

  lemma PortalClosedMaps(s: State)
    requires 1 in s.sessions && 3 in s.sessions
    ensures var t := PortalClosed(s, 1);
            t.games == s.games && t.teams == s.teams && 3 in t.sessions
                && t.sessions[3].listener == s.sessions[3].listener
  {
  }

  lemma GameJoins(t: State, routerId: ServerId)
    requires WellStored(t) && t.games == map[] && t.teams == map[] && 3 in t.sessions
    requires t.sessions[3].listener == Internal
    ensures Possible(t, Receive(3, Ready(GAMESVR, 9), Order([9], [])), routerId)
  {
    GameReady(t, 3, Ready(GAMESVR, 9), Order([9], []), routerId);
    NoneFits();
    hide InternalReady, WellStored, Fits, Binds;
  }

  /** Game server 7 connects a second time, on session 2, before session 1 has closed; portal 5 is there. */
  lemma SecondServer(routerId: ServerId) returns (events: seq<Event>)
    ensures Legal(events, routerId) && Inv(After(events, routerId))
    ensures var s, c := After(events, routerId), RouteClient(2, 7, GAMESVR);
            && s.portals == map[5 := RouteClient(3, 5, PORTAL)] && s.games == map[7 := c] && s.teams == map[]
            && 1 in s.sessions && s.sessions[1].listener == Internal && s.sessions[1].verified
            && s.sessions[1].userdata == Some(RouteClient(1, 7, GAMESVR))
            && 2 in s.sessions && s.sessions[2].accepting && s.sessions[2].userdata == Some(c)
            && 3 in s.sessions && s.sessions[3].accepting
  {
    hide Legal, After, Next, Inv, WellStored, Possible;
    NothingYet(routerId);
    RouterSync.RouterSync([], routerId);
    events := ConnectOnly([], 1, Internal, routerId);
    events := ConnectOnly(events, 2, Internal, routerId);
    events := ConnectOnly(events, 3, Portals, routerId);
    events := GameRegisters(events, 1, 7, Order([7], []), routerId);
    events := PortalRegisters(events, 3, 5, Order([7], []), routerId);
    events := GameRegisters(events, 2, 7, Order([7], []), routerId);
  }

  /** A whole run in which game server 7 stays connected and bound, and portal 5 is told that there is none. */
  lemma HiddenServerRun(routerId: ServerId) returns (events: seq<Event>)
    ensures Legal(events, routerId)
    ensures var s := After(events, routerId);
            && 2 in s.sessions && s.sessions[2].accepting && s.sessions[2].userdata == Some(RouteClient(2, 7, GAMESVR))
            && s.portals == map[5 := RouteClient(3, 5, PORTAL)] && 3 in s.sessions && s.sessions[3].accepting
            && LastIds(s.sessions[3].sent, GAMESVR).Some? && 7 !in LastIds(s.sessions[3].sent, GAMESVR).value
  {
    events := SecondServer(routerId);
    var s := After(events, routerId);
    hide Legal, After, Next, Inv, WellStored, Possible, LastIds;
    ClosedLeavesNone(s, routerId);
    events := Then(events, Closed(1, NO_ORDER), routerId);
    TellsPortal(s, routerId);
  }

  lemma ClosedLeavesNone(s: State, routerId: ServerId)
    requires Inv(s) && s.teams == map[] && s.games == map[7 := RouteClient(2, 7, GAMESVR)]
    requires 1 in s.sessions && s.sessions[1].listener == Internal && s.sessions[1].verified
    requires s.sessions[1].userdata == Some(RouteClient(1, 7, GAMESVR))
    ensures WellStored(s) && Possible(s, Closed(1, NO_ORDER), routerId)
  {
    ServerClosed(s, 1, NO_ORDER, routerId);
    hide InternalClosed, WellStored, OnlyPacked, AllTold;
    assert s.games - {7} == map[];
    assert Fits([], map[]);
  }

  lemma TellsPortal(s: State, routerId: ServerId)
    requires Inv(s) && WellStored(s) && Possible(s, Closed(1, NO_ORDER), routerId)
    requires s.games == map[7 := RouteClient(2, 7, GAMESVR)] && s.portals == map[5 := RouteClient(3, 5, PORTAL)]
    requires 1 in s.sessions && s.sessions[1].listener == Internal && s.sessions[1].verified
    requires s.sessions[1].userdata == Some(RouteClient(1, 7, GAMESVR))
    requires 2 in s.sessions && 3 in s.sessions && s.sessions[3].accepting
    ensures var t := Next(s, Closed(1, NO_ORDER), routerId);
            && 2 in t.sessions && t.sessions[2] == s.sessions[2]
            && t.portals == s.portals && 3 in t.sessions && t.sessions[3].accepting
            && LastIds(t.sessions[3].sent, GAMESVR).Some? && 7 !in LastIds(t.sessions[3].sent, GAMESVR).value
  {
    LateCloseHidesServer(s, 1, 7, NO_ORDER, routerId);
    hide LastIds, WellStored, Inv, Possible;
    PushBindings(Unbind(s, 1).(games := s.games - {7}), NO_ORDER, routerId);
    hide PushGames, PushTeams;
    var t := Next(s, Closed(1, NO_ORDER), routerId);
    assert SameBinding(s.sessions[3], t.sessions[3]);
    assert 5 in t.portals;
  }

  lemma TeamRegisters(events: seq<Event>, sid: SessId, id: ServerId, order: Order, routerId: ServerId)
    returns (more: seq<Event>)
    requires Legal(events, routerId) && Inv(After(events, routerId))
    requires var s := After(events, routerId);
             && sid in s.sessions && s.sessions[sid].listener == Internal
             && Fits(order.games, s.games) && Fits(order.teams, s.teams[id := RouteClient(sid, id, TEAMSVR)])
    ensures more == events + [Receive(sid, Ready(TEAMSVR, id), order)]
    ensures Legal(more, routerId) && Inv(After(more, routerId))
    ensures var s, t, c := After(events, routerId), After(more, routerId), RouteClient(sid, id, TEAMSVR);
            Binds(s, t, s.teams, c) && t.teams == s.teams[id := c] && t.games == s.games && t.portals == s.portals
  {
    hide InternalReady, Legal, WellStored, OnlyPacked, AllTold, Fits;
    var s := After(events, routerId);
    TeamReady(s, sid, Ready(TEAMSVR, id), order, routerId);
    more := Then(events, Receive(sid, Ready(TEAMSVR, id), order), routerId);
  }

  // ---- Several READYs on one session ----

  /** A run in which a portal, verified in time, says READY as 7 and as 8 and closes: slot 7 stays with its session. */
  lemma TwoIdPortalRun(routerId: ServerId) returns (events: seq<Event>)
    ensures events == [Connect(1, Portals), Receive(1, Ready(PORTAL, 7), NO_ORDER),
            Receive(1, Ready(PORTAL, 8), NO_ORDER),
                       Closed(1, NO_ORDER)]
    ensures Legal(events, routerId)
    ensures var s := After(events, routerId); 1 in s.sessions && s.sessions[1].verified && Sits(s.portals, 7, 1)
  {
    hide Legal, After, Next, Inv, WellStored, Possible;
    NothingYet(routerId);
    RouterSync.RouterSync([], routerId);
    events := ConnectOnly([], 1, Portals, routerId);
    events := PortalRegisters(events, 1, 7, NO_ORDER, routerId);
    events := PortalRegisters(events, 1, 8, NO_ORDER, routerId);
    var s := After(events, routerId);
    ClosesPortal(s, routerId);
    events := Then(events, Closed(1, NO_ORDER), routerId);
  }

  lemma ClosesPortal(s: State, routerId: ServerId)
    requires Inv(s) && 1 in s.sessions && s.sessions[1].listener == Portals && s.sessions[1].verified
    requires s.sessions[1].userdata == Some(RouteClient(1, 8, PORTAL)) && Sits(s.portals, 7, 1)
    requires s.games == map[] && s.teams == map[]
    ensures WellStored(s) && Possible(s, Closed(1, NO_ORDER), routerId)
    ensures var t := Next(s, Closed(1, NO_ORDER), routerId);
            1 in t.sessions && t.sessions[1].verified && Sits(t.portals, 7, 1)
  {
  }

  /** A run in which a server says READY as game server 7 and as team server 9 and closes: game slot 7 stays with its
      session, and portal 5 stays told of game server 7. */
  lemma TwoKindServerRun(routerId: ServerId) returns (events: seq<Event>)
    ensures Legal(events, routerId)
    ensures events == [Connect(1, Internal), Connect(2, Portals), Receive(1, Ready(GAMESVR, 7), Order([7], [])),
                       Receive(2, Ready(PORTAL, 5), Order([7], [])), Receive(1, Ready(TEAMSVR, 9), Order([7], [9])),
                       Closed(1, Order([7], []))]
    ensures var s := After(events, routerId);
            && 1 in s.sessions && s.sessions[1].verified && Sits(s.games, 7, 1) && Sits(s.portals, 5, 2)
            && 2 in s.sessions && s.sessions[2].accepting
            && LastIds(s.sessions[2].sent, GAMESVR).Some? && 7 in LastIds(s.sessions[2].sent, GAMESVR).value
  {
    hide Legal, After, Next, Inv, WellStored, Possible, LastIds;
    NothingYet(routerId);
    RouterSync.RouterSync([], routerId);
    events := ConnectOnly([], 1, Internal, routerId);
    events := ConnectOnly(events, 2, Portals, routerId);
    events := GameRegisters(events, 1, 7, Order([7], []), routerId);
    events := PortalRegisters(events, 2, 5, Order([7], []), routerId);
    events := TeamRegisters(events, 1, 9, Order([7], [9]), routerId);
    var s := After(events, routerId);
    ClosesServer(s, routerId);
    events := Then(events, Closed(1, Order([7], [])), routerId);
    StaysTold(After(events, routerId));
  }

  lemma ClosesServer(s: State, routerId: ServerId)
    requires Inv(s) && 1 in s.sessions && s.sessions[1].listener == Internal && s.sessions[1].verified
    requires s.sessions[1].userdata == Some(RouteClient(1, 9, TEAMSVR))
    requires s.games == map[7 := RouteClient(1, 7, GAMESVR)] && s.teams == map[9 := RouteClient(1, 9, TEAMSVR)]
    requires Sits(s.portals, 5, 2) && 2 in s.sessions && s.sessions[2].accepting
    ensures WellStored(s) && Possible(s, Closed(1, Order([7], [])), routerId)
    ensures var t := Next(s, Closed(1, Order([7], [])), routerId);
            && t.games == s.games && t.portals == s.portals && Sits(t.games, 7, 1)
            && 1 in t.sessions && t.sessions[1].verified && 2 in t.sessions && t.sessions[2].accepting
  {
    ServerClosed(s, 1, Order([7], []), routerId);
    assert s.teams - {9} == map[];
    ClosedBindings(s, 1, Order([7], []), routerId);
    hide InternalClosed, WellStored, OnlyPacked, AllTold;
    assert Fits([7], map[7 := RouteClient(1, 7, GAMESVR)]) && Fits([], map[]);
  }

  /** The close of a server's session only unbinds it. */
  lemma ClosedBindings(s: State, sid: SessId, order: Order, routerId: ServerId)
    requires WellStored(s) && sid in s.sessions
    ensures var t := InternalClosed(s, sid, order, routerId);
            && t.sessions.Keys == s.sessions.Keys
            && forall o :: o in s.sessions ==>
                 t.sessions[o].verified == s.sessions[o].verified && t.sessions[o].accepting == s.sessions[o].accepting
  {
    var x := s.sessions[sid];
    UnbindKeeps(s, sid);
    hide PushGames, PushTeams, WellStored, Unbind;
    if x.verified && x.userdata.Some? {
      var u, id := Unbind(s, sid), x.userdata.value.id;
      if x.userdata.value.svrType == GAMESVR {
        PushBindings(u.(games := u.games - {id}), order, routerId);
      } else if x.userdata.value.svrType == TEAMSVR {
        PushBindings(u.(teams := u.teams - {id}), order, routerId);
      }
    }
  }

  lemma UnbindKeeps(s: State, sid: SessId)
    requires sid in s.sessions
    ensures var t := Unbind(s, sid);
            && t.sessions.Keys == s.sessions.Keys
            && forall o :: o in s.sessions ==>
                 t.sessions[o].verified == s.sessions[o].verified && t.sessions[o].accepting == s.sessions[o].accepting
  {
  }

  lemma StaysTold(s: State)
    requires Inv(s) && Sits(s.games, 7, 1) && Sits(s.portals, 5, 2) && 2 in s.sessions && s.sessions[2].accepting
    ensures LastIds(s.sessions[2].sent, GAMESVR).Some? && 7 in LastIds(s.sessions[2].sent, GAMESVR).value
  {
    hide LastIds, OnlyPacked, WellStored;
    assert Told(s.sessions[2], GAMESVR, s.games.Keys);
    var seven: ServerId := 7;
    assert seven in s.games.Keys;
  }

  /** A run in which a portal says READY twice, as the gate does: it is registered, and shut. */
  lemma RepeatedReadyRun(routerId: ServerId) returns (events: seq<Event>)
    ensures events == [Connect(1, Portals), Receive(1, Ready(PORTAL, 7), NO_ORDER),
            Receive(1, Ready(PORTAL, 7), NO_ORDER)]
    ensures Legal(events, routerId) && Inv(After(events, routerId))
    ensures var s := After(events, routerId);
            Sits(s.portals, 7, 1) && 1 in s.sessions && !s.sessions[1].accepting && s.games == map[] && s.teams == map[]
  {
    hide Legal, After, Next, Inv, WellStored, Possible;
    NothingYet(routerId);
    RouterSync.RouterSync([], routerId);
    events := ConnectOnly([], 1, Portals, routerId);
    events := PortalRegisters(events, 1, 7, NO_ORDER, routerId);
    events := PortalRegisters(events, 1, 7, NO_ORDER, routerId);
  }
}
