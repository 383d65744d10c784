/** In every run of the router, a registered portal that can still be written to has been told the current server
    sets. */
module RouterSync {
  import opened Bytes
  import opened Heads
  import opened Options
  import opened Sequences
  import opened RouterSpec

  predicate IsSync(m: Message, svrType: int) {
    m.head.ssCmd == SYNC && m.body.ServerList? && m.body.serverType == svrType
  }

  /** The ids named by the last SYNC of the given type, if there is one. */
  function LastIds(sent: seq<Message>, svrType: int): Option<seq<int>> {
    if sent == [] then None
    else if IsSync(sent[|sent| - 1], svrType) then Some(sent[|sent| - 1].body.ids)
    else LastIds(sent[..|sent| - 1], svrType)
  }

  /** ids names exactly the given servers, each once. */
  predicate Names(ids: seq<int>, servers: set<ServerId>) {
    && NoDuplicates(ids)
    && (forall n :: n in ids ==> 0 <= n < 0x1_0000 && n as ServerId in servers)
    && forall k: ServerId :: k in servers ==> k as int in ids
  }

  predicate Told(x: Session, svrType: int, servers: set<ServerId>) {
    x.accepting ==> LastIds(x.sent, svrType).Some? && Names(LastIds(x.sent, svrType).value, servers)
  }

  /** Every registered portal that still accepts was last told these servers. */
  predicate AllTold(s: State, svrType: int, servers: set<ServerId>) {
    forall k :: k in s.portals && s.portals[k].session in s.sessions ==>
        Told(s.sessions[s.portals[k].session], svrType, servers)
  }

  /** A message that claims to be a SYNC was packed by the router. */
  predicate Packed(m: Message) {
    m.head.ssCmd == SYNC ==>
      && m.head.srcType == ROUTER && m.body.ServerList?
      && (m.body.serverType == GAMESVR || m.body.serverType == TEAMSVR)
  }

  predicate OnlyPacked(s: State) {
    forall sid :: sid in s.sessions ==> forall m :: m in s.sessions[sid].sent ==> Packed(m)
  }

  ghost predicate Inv(s: State) {
    WellStored(s) && OnlyPacked(s) && AllTold(s, GAMESVR, s.games.Keys) && AllTold(s, TEAMSVR, s.teams.Keys)
  }

  // ---- Last SYNC ----

  lemma {:induction false} LastIdsConcat(a: seq<Message>, b: seq<Message>, svrType: int)
    ensures LastIds(a + b, svrType) == if LastIds(b, svrType).Some? then LastIds(b, svrType) else LastIds(a, svrType)
  {
    if b == [] {
      assert a + b == a;
    } else {
      assert (a + b)[..|a + b| - 1] == a + b[..|b| - 1];
      LastIdsConcat(a, b[..|b| - 1], svrType);
    }
  }

  lemma {:induction false} LastIdsOther(b: seq<Message>, svrType: int)
    requires forall m :: m in b ==> !IsSync(m, svrType)
    ensures LastIds(b, svrType) == None
  {
    if b != [] {
      assert b[|b| - 1] in b;
      LastIdsOther(b[..|b| - 1], svrType);
    }
  }

  lemma PackNames(slots: Slots, order: seq<ServerId>, svrType: int, routerId: ServerId)
    requires Fits(order, slots) && forall k :: k in slots ==> slots[k].id == k
    ensures Names(Pack(slots, order, svrType, routerId).body.ids, slots.Keys)
    ensures IsSync(Pack(slots, order, svrType, routerId), svrType)
  {
    var ids := Pack(slots, order, svrType, routerId).body.ids;
    assert forall i :: 0 <= i < |order| ==> order[i] in ToSet(order) && ids[i] == order[i] as int;
    forall k: ServerId | k in slots.Keys
      ensures k as int in ids
    {
      assert k in ToSet(order);
      var i :| 0 <= i < |order| && order[i] == k;
      assert ids[i] == k as int;
    }
  }

  /** Appending the same SYNC at least once makes it the last one; other types are not affected. */
  lemma RepeatSync(sent: seq<Message>, m: Message, n: nat, svrType: int)
    requires IsSync(m, svrType)
    ensures n >= 1 ==> LastIds(sent + Repeat(m, n), svrType) == Some(m.body.ids)
    ensures forall other :: other != svrType ==> LastIds(sent + Repeat(m, n), other) == LastIds(sent, other)
  {
    var b := Repeat(m, n);
    LastIdsConcat(sent, b, svrType);
    forall other | other != svrType
      ensures LastIds(sent + b, other) == LastIds(sent, other)
    {
      LastIdsConcat(sent, b, other);
      LastIdsOther(b, other);
    }
  }

  // ---- Steps that push nothing ----

  /** y is x after some sends that were no SYNC and possibly a shutdown. */
  predicate Quiet(x: Session, y: Session) {
    && y.listener == x.listener
    && (y.accepting ==> x.accepting)
    && |x.sent| <= |y.sent| && x.sent == y.sent[..|x.sent|]
    && forall i :: |x.sent| <= i < |y.sent| ==> y.sent[i].head.ssCmd != SYNC
  }

  predicate AllQuiet(before: map<SessId, Session>, after: map<SessId, Session>) {
    && before.Keys <= after.Keys
    && forall sid :: sid in before ==> Quiet(before[sid], after[sid])
  }

  lemma QuietTold(x: Session, y: Session, svrType: int, servers: set<ServerId>)
    requires Quiet(x, y) && Told(x, svrType, servers)
    ensures Told(y, svrType, servers)
  {
    var b := y.sent[|x.sent|..];
    assert y.sent == x.sent + b;
    LastIdsConcat(x.sent, b, svrType);
    LastIdsOther(b, svrType);
  }

  lemma QuietPacked(x: Session, y: Session)
    requires Quiet(x, y) && forall m :: m in x.sent ==> Packed(m)
    ensures forall m :: m in y.sent ==> Packed(m)
  {
    assert y.sent == x.sent + y.sent[|x.sent|..];
  }

  /** Quiet steps keep what portals were told, as long as no new portal registers. */
  lemma AllQuietTold(s: State, t: State, svrType: int, servers: set<ServerId>)
    requires WellStored(s) && AllQuiet(s.sessions, t.sessions) && AllTold(s, svrType, servers)
    requires forall k :: k in t.portals ==> k in s.portals && t.portals[k] == s.portals[k]
    ensures AllTold(t, svrType, servers)
  {
    forall k | k in t.portals && t.portals[k].session in t.sessions
      ensures Told(t.sessions[t.portals[k].session], svrType, servers)
    {
      QuietTold(s.sessions[s.portals[k].session], t.sessions[t.portals[k].session], svrType, servers);
    }
  }

  lemma AllQuietPacked(s: State, t: State)
    requires OnlyPacked(s) && AllQuiet(s.sessions, t.sessions)
    requires forall sid :: sid in t.sessions && sid !in s.sessions ==> t.sessions[sid].sent == []
    ensures OnlyPacked(t)
  {
    forall sid | sid in t.sessions && sid in s.sessions
      ensures forall m :: m in t.sessions[sid].sent ==> Packed(m)
    {
      QuietPacked(s.sessions[sid], t.sessions[sid]);
    }
  }

  // ---- Pushing a changed set ----

  lemma SyncTold(x: Session, m: Message, n: nat, svrType: int, servers: set<ServerId>)
    requires IsSync(m, svrType) && Names(m.body.ids, servers)
    ensures n >= 1 ==> Told(Send(x, Repeat(m, n)), svrType, servers)
    ensures forall other, others :: other != svrType && Told(x, other, others) ==>
            Told(Send(x, Repeat(m, n)), other, others)
  {
    RepeatSync(x.sent, m, n, svrType);
  }

  lemma SendPacked(x: Session, msgs: seq<Message>)
    requires forall m :: m in x.sent ==> Packed(m)
    requires forall m :: m in msgs ==> Packed(m)
    ensures forall m :: m in Send(x, msgs).sent ==> Packed(m)
  {
  }

  lemma BroadcastPacked(s: State, slots: Slots, m: Message)
    requires OnlyPacked(s) && Packed(m)
    ensures OnlyPacked(Broadcast(s, slots, m))
  {
    hide Packed, Send, SlotsOf;
    var t := Broadcast(s, slots, m);
    forall sid | sid in t.sessions
      ensures forall x :: x in t.sessions[sid].sent ==> Packed(x)
    {
      SendPacked(s.sessions[sid], Repeat(m, |SlotsOf(slots, sid)|));
    }
  }

  lemma BroadcastStores(s: State, slots: Slots, m: Message)
    requires WellStored(s)
    ensures WellStored(Broadcast(s, slots, m))
  {
    hide SlotsOf, Repeat;
  }

  lemma BroadcastTells(s: State, m: Message, svrType: int, servers: set<ServerId>)
    requires WellStored(s) && IsSync(m, svrType) && Names(m.body.ids, servers)
    ensures AllTold(Broadcast(s, s.portals, m), svrType, servers)
    ensures forall other, others :: other != svrType && AllTold(s, other, others) ==>
              AllTold(Broadcast(s, s.portals, m), other, others)
  {
    hide Told;
    var t := Broadcast(s, s.portals, m);
    forall k | k in t.portals
      ensures Told(t.sessions[t.portals[k].session], svrType, servers)
      ensures forall other, others :: other != svrType && AllTold(s, other, others) ==>
                Told(t.sessions[t.portals[k].session], other, others)
    {
      var sid := s.portals[k].session;
      assert k in SlotsOf(s.portals, sid);
      SyncTold(s.sessions[sid], m, |SlotsOf(s.portals, sid)|, svrType, servers);
    }
  }

  /** The invariant but for what portals know of one type. */
  ghost predicate InvBut(s: State, svrType: int) {
    && WellStored(s) && OnlyPacked(s)
    && (svrType != GAMESVR ==> AllTold(s, GAMESVR, s.games.Keys))
    && (svrType != TEAMSVR ==> AllTold(s, TEAMSVR, s.teams.Keys))
  }

  lemma PushRestores(s: State, order: Order, routerId: ServerId)
    ensures InvBut(s, GAMESVR) && Fits(order.games, s.games) ==> Inv(PushGames(s, order, routerId))
    ensures InvBut(s, TEAMSVR) && Fits(order.teams, s.teams) ==> Inv(PushTeams(s, order, routerId))
  {
    if InvBut(s, GAMESVR) && Fits(order.games, s.games) {
      var m := Pack(s.games, order.games, GAMESVR, routerId);
      PackNames(s.games, order.games, GAMESVR, routerId);
      hide Names, Told, WellStored, OnlyPacked, AllTold, Fits;
      BroadcastStores(s, s.portals, m);
      BroadcastPacked(s, s.portals, m);
      BroadcastTells(s, m, GAMESVR, s.games.Keys);
    }
    if InvBut(s, TEAMSVR) && Fits(order.teams, s.teams) {
      var m := Pack(s.teams, order.teams, TEAMSVR, routerId);
      PackNames(s.teams, order.teams, TEAMSVR, routerId);
      hide Names, Told, WellStored, OnlyPacked, AllTold, Fits;
      BroadcastStores(s, s.portals, m);
      BroadcastPacked(s, s.portals, m);
      BroadcastTells(s, m, TEAMSVR, s.teams.Keys);
    }
  }

  // ---- Every event keeps the invariant ----

  /** Changing one session quietly. */
  lemma UpdateKeeps(s: State, sid: SessId, y: Session)
    requires WellStored(s) && sid in s.sessions && Quiet(s.sessions[sid], y) && BoundWell(sid, y)
    ensures var t := s.(sessions := s.sessions[sid := y]);
            WellStored(t) && AllQuiet(s.sessions, t.sessions)
  {
    forall x | x in s.sessions
      ensures Quiet(s.sessions[x], s.sessions[x])
    {
    }
    hide Quiet, BoundWell;
  }

  lemma QuietTransitive(a: map<SessId, Session>, b: map<SessId, Session>, c: map<SessId, Session>)
    requires AllQuiet(a, b) && AllQuiet(b, c)
    ensures AllQuiet(a, c)
  {
    forall sid | sid in a
      ensures Quiet(a[sid], c[sid])
    {
      QuietChain(a[sid], b[sid], c[sid]);
    }
  }

  lemma QuietChain(x: Session, y: Session, z: Session)
    requires Quiet(x, y) && Quiet(y, z)
    ensures Quiet(x, z)
  {
    assert z.sent[..|x.sent|] == y.sent[..|x.sent|];
    assert forall i :: 0 <= i < |y.sent| ==> z.sent[i] == y.sent[i];
  }

  /** Binding a client to its session and evicting whoever held its slot. */
  lemma EvictKeeps(s: State, c: RouteClient, slots: Slots)
    requires WellStored(s) && c.session in s.sessions && (c.id in slots ==> slots[c.id].session in s.sessions)
    requires BoundWell(c.session, s.sessions[c.session].(userdata := Some(c)))
    ensures var t := Evict(Bind(s, c), slots, c.id);
            && WellStored(t) && AllQuiet(s.sessions, t.sessions)
            && t.games == s.games && t.teams == s.teams && t.portals == s.portals
            && t.sessions.Keys == s.sessions.Keys
  {
    UpdateKeeps(s, c.session, Verify(s.sessions[c.session]).(userdata := Some(c)));
    var b := Bind(s, c);
    if c.id in slots {
      var old' := slots[c.id].session;
      hide WellStored, AllQuiet;
      assert BoundWell(old', b.sessions[old']) by {
        BoundWellOf(b, old');
      }
      UpdateKeeps(b, old', Shutdown(b.sessions[old']));
      QuietTransitive(s.sessions, b.sessions, CloseSession(b, old').sessions);
    }
  }

  lemma BoundWellOf(s: State, sid: SessId)
    requires WellStored(s) && sid in s.sessions
    ensures BoundWell(sid, s.sessions[sid])
  {
  }

  lemma AddServerStores(s: State, c: RouteClient)
    requires WellStored(s) && c.session in s.sessions && s.sessions[c.session].listener == Internal
    ensures c.svrType == GAMESVR ==> WellStored(AddGame(s, c)) && AllQuiet(s.sessions, AddGame(s, c).sessions)
    ensures c.svrType == TEAMSVR ==> WellStored(AddTeam(s, c)) && AllQuiet(s.sessions, AddTeam(s, c).sessions)
  {
    if c.svrType == GAMESVR {
      BoundToServer(c, s.sessions[c.session]);
      EvictKeeps(s, c, s.games);
      AddSlot(Evict(Bind(s, c), s.games, c.id), c);
    } else if c.svrType == TEAMSVR {
      BoundToServer(c, s.sessions[c.session]);
      EvictKeeps(s, c, s.teams);
      AddSlot(Evict(Bind(s, c), s.teams, c.id), c);
    }
    hide Bind, Evict, AllQuiet, WellStored;
  }

  lemma AddSlot(s: State, c: RouteClient)
    requires WellStored(s) && c.session in s.sessions
    ensures s.sessions[c.session].listener == Internal && c.svrType == GAMESVR ==>
            WellStored(s.(games := s.games[c.id := c]))
    ensures s.sessions[c.session].listener == Internal && c.svrType == TEAMSVR ==>
            WellStored(s.(teams := s.teams[c.id := c]))
    ensures s.sessions[c.session].listener == Portals && c.svrType == PORTAL ==>
            WellStored(s.(portals := s.portals[c.id := c]))
  {
    hide AllBound;
  }

  lemma BoundToServer(c: RouteClient, x: Session)
    requires x.listener == Internal && (c.svrType == GAMESVR || c.svrType == TEAMSVR)
    ensures BoundWell(c.session, x.(userdata := Some(c)))
  {
  }

  lemma ReadyKeeps(s: State, t: State, order: Order, routerId: ServerId)
    requires Inv(s) && WellStored(t) && AllQuiet(s.sessions, t.sessions) && t.sessions.Keys == s.sessions.Keys
    requires t.portals == s.portals
    ensures t.teams == s.teams && Fits(order.games, t.games) ==> Inv(PushGames(t, order, routerId))
    ensures t.games == s.games && Fits(order.teams, t.teams) ==> Inv(PushTeams(t, order, routerId))
  {
    AllQuietPacked(s, t);
    if t.teams == s.teams {
      AllQuietTold(s, t, TEAMSVR, s.teams.Keys);
    }
    if t.games == s.games {
      AllQuietTold(s, t, GAMESVR, s.games.Keys);
    }
    PushRestores(t, order, routerId);
    hide WellStored, AllQuiet, AllTold, OnlyPacked, PushGames, PushTeams, Fits;
  }

  lemma AddFrame(s: State, c: RouteClient)
    requires WellStored(s) && c.session in s.sessions
    ensures c.id in s.games ==> s.games[c.id].session in s.sessions
    ensures c.id in s.teams ==> s.teams[c.id].session in s.sessions
    ensures c.id in s.portals ==> s.portals[c.id].session in s.sessions
    ensures var t := AddPortal(s, c);
            && t.sessions.Keys == s.sessions.Keys && t.games == s.games && t.teams == s.teams
            && t.portals == s.portals[c.id := c]
    ensures var t := AddGame(s, c); t.sessions.Keys == s.sessions.Keys && t.portals == s.portals && t.teams == s.teams
    ensures var t := AddTeam(s, c); t.sessions.Keys == s.sessions.Keys && t.portals == s.portals && t.games == s.games
  {
  }

  lemma InternalReadyKeeps(s: State, sid: SessId, msg: Message, order: Order, routerId: ServerId)
    requires Inv(s) && sid in s.sessions && s.sessions[sid].listener == Internal
    requires var t := InternalReady(s, sid, msg, order, routerId);
            Fits(order.games, t.games) && Fits(order.teams, t.teams)
    ensures Inv(InternalReady(s, sid, msg, order, routerId))
  {
    var c := RouteClient(sid, msg.head.srcID, msg.head.srcType);
    hide WellStored, AllQuiet, AllTold, OnlyPacked, AddGame, AddTeam, Fits;
    AddServerStores(s, c);
    AddFrame(s, c);
    if msg.head.srcType == GAMESVR {
      ReadyKeeps(s, AddGame(s, c), order, routerId);
    } else if msg.head.srcType == TEAMSVR {
      ReadyKeeps(s, AddTeam(s, c), order, routerId);
    }
  }

  lemma DropServerStores(s: State, sid: SessId, id: ServerId)
    requires WellStored(s) && sid in s.sessions
    ensures var t := Unbind(s, sid);
            && AllQuiet(s.sessions, t.sessions)
            && WellStored(t.(games := s.games - {id}))
            && WellStored(t.(teams := s.teams - {id}))
            && WellStored(t.(portals := s.portals - {id}))
  {
    UpdateKeeps(s, sid, s.sessions[sid].(userdata := None));
    hide AllBound, AllQuiet;
  }

  lemma InternalClosedKeeps(s: State, sid: SessId, order: Order, routerId: ServerId)
    requires Inv(s) && sid in s.sessions && s.sessions[sid].listener == Internal
    requires var t := InternalClosed(s, sid, order, routerId); Fits(order.games, t.games) && Fits(order.teams, t.teams)
    ensures Inv(InternalClosed(s, sid, order, routerId))
  {
    var x := s.sessions[sid];
    BoundWellOf(s, sid);
    hide WellStored, AllQuiet, AllTold, OnlyPacked, Fits;
    if x.verified && x.userdata.Some? {
      var id := x.userdata.value.id;
      DropServerStores(s, sid, id);
      if x.userdata.value.svrType == GAMESVR {
        ReadyKeeps(s, Unbind(s, sid).(games := s.games - {id}), order, routerId);
      } else {
        ReadyKeeps(s, Unbind(s, sid).(teams := s.teams - {id}), order, routerId);
      }
    }
  }

  lemma AddPortalStores(s: State, c: RouteClient)
    requires WellStored(s) && c.session in s.sessions && s.sessions[c.session].listener == Portals
    requires c.svrType == PORTAL
    ensures WellStored(AddPortal(s, c)) && AllQuiet(s.sessions, AddPortal(s, c).sessions)
  {
    assert BoundWell(c.session, s.sessions[c.session].(userdata := Some(c)));
    EvictKeeps(s, c, s.portals);
    AddSlot(Evict(Bind(s, c), s.portals, c.id), c);
    hide Bind, Evict, AllQuiet, WellStored;
  }

  /** Telling one session about a type: it knows, and everyone else knows what they knew. */
  lemma SendTells(s: State, sid: SessId, m: Message, svrType: int, servers: set<ServerId>)
    requires sid in s.sessions && IsSync(m, svrType) && Names(m.body.ids, servers) && Packed(m)
    ensures var t := SendTo(s, sid, m);
            && Told(t.sessions[sid], svrType, servers)
            && (forall other, others :: other != svrType && Told(s.sessions[sid], other, others) ==>
                Told(t.sessions[sid], other, others))
            && (WellStored(s) ==> WellStored(t))
            && (OnlyPacked(s) ==> OnlyPacked(t))
  {
    hide Told;
    var x := s.sessions[sid];
    assert Repeat(m, 1) == [m];
    SyncTold(x, m, 1, svrType, servers);
    if OnlyPacked(s) {
      SendPacked(x, [m]);
    }
  }

  lemma PortalTold(s: State, t: State, v: State, sid: SessId, svrType: int, servers: set<ServerId>)
    requires WellStored(s) && AllQuiet(s.sessions, t.sessions) && AllTold(s, svrType, servers)
    requires t.sessions.Keys == s.sessions.Keys
    requires sid in v.sessions && Told(v.sessions[sid], svrType, servers)
    requires v.sessions.Keys == t.sessions.Keys && forall x :: x in v.sessions && x != sid ==>
            v.sessions[x] == t.sessions[x]
    requires forall k :: k in v.portals ==>
            v.portals[k].session == sid || (k in s.portals && v.portals[k] == s.portals[k])
    ensures AllTold(v, svrType, servers)
  {
    hide Told, Quiet;
    forall k | k in v.portals && v.portals[k].session in v.sessions
      ensures Told(v.sessions[v.portals[k].session], svrType, servers)
    {
      var other := v.portals[k].session;
      if other != sid {
        QuietTold(s.sessions[other], t.sessions[other], svrType, servers);
      }
    }
  }

  /** The two answers to a portal's READY. */
  lemma PortalAnswered(t: State, sid: SessId, order: Order, routerId: ServerId)
    requires WellStored(t) && OnlyPacked(t) && sid in t.sessions
    requires Fits(order.games, t.games) && Fits(order.teams, t.teams)
    ensures var u := SendTo(t, sid, Pack(t.games, order.games, GAMESVR, routerId));
            var v := SendTo(u, sid, Pack(t.teams, order.teams, TEAMSVR, routerId));
            && WellStored(v) && OnlyPacked(v) && v.sessions.Keys == t.sessions.Keys
            && v.games == t.games && v.teams == t.teams && v.portals == t.portals
            && Told(v.sessions[sid], GAMESVR, t.games.Keys) && Told(v.sessions[sid], TEAMSVR, t.teams.Keys)
            && forall x :: x in v.sessions && x != sid ==> v.sessions[x] == t.sessions[x]
  {
    hide Names, Told, OnlyPacked;
    var g, m := Pack(t.games, order.games, GAMESVR, routerId), Pack(t.teams, order.teams, TEAMSVR, routerId);
    PackNames(t.games, order.games, GAMESVR, routerId);
    PackNames(t.teams, order.teams, TEAMSVR, routerId);
    SendTells(t, sid, g, GAMESVR, t.games.Keys);
    SendTells(SendTo(t, sid, g), sid, m, TEAMSVR, t.teams.Keys);
    hide WellStored, Fits, Send;
  }

  lemma PortalReadyKeeps(s: State, sid: SessId, msg: Message, order: Order, routerId: ServerId)
    requires Inv(s) && sid in s.sessions && s.sessions[sid].listener == Portals
    requires Fits(order.games, s.games) && Fits(order.teams, s.teams)
    ensures Inv(PortalReady(s, sid, msg, order, routerId))
  {
    hide WellStored, AllQuiet, OnlyPacked, AllTold, Told, Fits, SendTo, AddPortal;
    var c := RouteClient(sid, msg.head.srcID, PORTAL);
    AddFrame(s, c);
    AddPortalStores(s, c);
    var t := AddPortal(s, c);
    AllQuietPacked(s, t);
    PortalAnswered(t, sid, order, routerId);
    var v := PortalReady(s, sid, msg, order, routerId);
    PortalTold(s, t, v, sid, GAMESVR, s.games.Keys);
    PortalTold(s, t, v, sid, TEAMSVR, s.teams.Keys);
  }

  lemma BroadcastQuiet(s: State, slots: Slots, msg: Message)
    requires WellStored(s) && msg.head.ssCmd != SYNC
    ensures var t := Broadcast(s, slots, msg);
            WellStored(t) && AllQuiet(s.sessions, t.sessions) && SameServers(s, t) && t.sessions.Keys == s.sessions.Keys
  {
    var t := Broadcast(s, slots, msg);
    hide SlotsOf, BoundWell;
    forall sid | sid in s.sessions
      ensures Quiet(s.sessions[sid], t.sessions[sid]) && BoundWell(sid, t.sessions[sid])
    {
      SendManyQuiet(s.sessions[sid], sid, msg, |SlotsOf(slots, sid)|);
    }
    hide Quiet, Send;
  }

  lemma SendManyQuiet(x: Session, sid: SessId, msg: Message, n: nat)
    requires msg.head.ssCmd != SYNC && BoundWell(sid, x)
    ensures Quiet(x, Send(x, Repeat(msg, n))) && BoundWell(sid, Send(x, Repeat(msg, n)))
  {
  }

  lemma RelayQuiet(s: State, slots: Slots, msg: Message)
    requires WellStored(s) && msg.head.ssCmd != SYNC
    requires forall k :: k in slots ==> slots[k].session in s.sessions
    ensures var t := Relay(s, slots, msg);
            WellStored(t) && AllQuiet(s.sessions, t.sessions) && SameServers(s, t) && t.sessions.Keys == s.sessions.Keys
  {
    hide AllQuiet, WellStored, SendTo, Broadcast;
    AllQuietRefl(s.sessions);
    if msg.head.transType == BY_KEY && msg.head.dstID in slots {
      SendQuiet(s, slots[msg.head.dstID].session, msg);
    }
    BroadcastQuiet(s, slots, msg);
  }

  lemma AllQuietRefl(sessions: map<SessId, Session>)
    ensures AllQuiet(sessions, sessions)
  {
  }

  lemma SendQuiet(s: State, sid: SessId, msg: Message)
    requires WellStored(s) && sid in s.sessions && msg.head.ssCmd != SYNC
    ensures var t := SendTo(s, sid, msg);
            WellStored(t) && AllQuiet(s.sessions, t.sessions) && SameServers(s, t) && t.sessions.Keys == s.sessions.Keys
  {
    UpdateKeeps(s, sid, Send(s.sessions[sid], [msg]));
  }

  /** The server sets are the same and no portal is newly registered. */
  predicate SameServers(s: State, t: State) {
    && t.games == s.games && t.teams == s.teams
    && forall k :: k in t.portals ==> k in s.portals && t.portals[k] == s.portals[k]
  }

  lemma SlotsKnown(s: State)
    requires WellStored(s)
    ensures forall k :: k in s.portals ==> s.portals[k].session in s.sessions
    ensures forall k :: k in s.games ==> s.games[k].session in s.sessions
    ensures forall k :: k in s.teams ==> s.teams[k].session in s.sessions
  {
  }

  lemma VerifiedQuiet(s: State, sid: SessId, msg: Message)
    requires WellStored(s) && sid in s.sessions
    ensures var t := Verified(s, sid, msg);
            WellStored(t) && AllQuiet(s.sessions, t.sessions) && SameServers(s, t) && t.sessions.Keys == s.sessions.Keys
  {
    SlotsKnown(s);
    BoundWellOf(s, sid);
    hide Relay, AllQuiet, WellStored, SendTo;
    AllQuietRefl(s.sessions);
    if msg.head.ssCmd == HEARTBEAT {
      SendQuiet(s, sid, msg);
    } else if msg.head.ssCmd == DISCONNECT {
      UpdateKeeps(s, sid, Shutdown(s.sessions[sid]));
    } else if msg.head.ssCmd == MSG {
      if s.sessions[sid].listener == Internal {
        RelayQuiet(s, s.portals, msg);
      } else if msg.head.dstType == GAMESVR {
        RelayQuiet(s, s.games, msg);
      } else {
        RelayQuiet(s, s.teams, msg);
      }
    }
  }

  /** Closing, relaying, echoing and connection trouble push nothing and register nobody. */
  lemma OtherEventsQuiet(s: State, e: Event, routerId: ServerId)
    requires WellStored(s)
    requires e.Receive? ==> e.msg.head.ssCmd != READY
    requires e.Closed? && e.sid in s.sessions ==> s.sessions[e.sid].listener == Portals
    ensures var t := Next(s, e, routerId);
            && WellStored(t) && AllQuiet(s.sessions, t.sessions) && SameServers(s, t)
            && forall sid :: sid in t.sessions && sid !in s.sessions ==> t.sessions[sid].sent == []
  {
    hide AllQuiet, WellStored, Verified;
    AllQuietRefl(s.sessions);
    if e.sid in s.sessions {
      var x := s.sessions[e.sid];
      BoundWellOf(s, e.sid);
      match e
      case VerifyTimeout(_) => UpdateKeeps(s, e.sid, x.(timer := Fired, accepting := false));
      case WriteFailed(_) => UpdateKeeps(s, e.sid, x.(accepting := false));
      case Receive(_, msg, _) => VerifiedQuiet(s, e.sid, msg);
      case Closed(_, _) =>
        if x.userdata.Some? {
          DropServerStores(s, e.sid, x.userdata.value.id);
        }
      case Connect(_, _) =>
    } else if e.Connect? {
      ConnectQuiet(s, e.sid, e.listener);
    }
  }

  lemma ConnectQuiet(s: State, sid: SessId, listener: Listener)
    requires WellStored(s) && sid !in s.sessions
    ensures var t := s.(sessions := s.sessions[sid := Session(listener, false, Pending, true, None, [])]);
            WellStored(t) && AllQuiet(s.sessions, t.sessions)
  {
    hide Quiet, BoundWell;
    var x := Session(listener, false, Pending, true, None, []);
    assert BoundWell(sid, x) by {
      UnboundWell(sid, x);
    }
    AllQuietRefl(s.sessions);
  }

  lemma UnboundWell(sid: SessId, x: Session)
    requires x.userdata.None?
    ensures BoundWell(sid, x)
  {
  }

  lemma StepKeepsInv(s: State, e: Event, routerId: ServerId)
    requires Inv(s) && Possible(s, e, routerId)
    ensures Inv(Next(s, e, routerId))
  {
    hide InternalReady, InternalClosed, AllTold, WellStored, OnlyPacked, AllQuiet, Verified;
    if (e.Receive? || e.Closed?) && e.sid !in s.sessions {
    } else if e.Receive? && e.msg.head.ssCmd == READY {
      if s.sessions[e.sid].listener == Internal {
        InternalReadyKeeps(s, e.sid, e.msg, e.order, routerId);
      } else {
        PortalReadyKeeps(s, e.sid, e.msg, e.order, routerId);
      }
    } else if e.Closed? && s.sessions[e.sid].listener == Internal {
      InternalClosedKeeps(s, e.sid, e.order, routerId);
    } else {
      var t := Next(s, e, routerId);
      OtherEventsQuiet(s, e, routerId);
      AllQuietTold(s, t, GAMESVR, s.games.Keys);
      AllQuietTold(s, t, TEAMSVR, s.teams.Keys);
      AllQuietPacked(s, t);
    }
  }

  // ---- Runs ----

  ghost predicate Legal(events: seq<Event>, routerId: ServerId)
    decreases |events|, 0
  {
    events == [] ||
    (Legal(events[..|events| - 1], routerId)
     && WellStored(After(events[..|events| - 1], routerId))
     && Possible(After(events[..|events| - 1], routerId), events[|events| - 1], routerId))
  }

  ghost function After(events: seq<Event>, routerId: ServerId): State
    requires Legal(events, routerId)
    decreases |events|, 1
  {
    if events == [] then INIT else Next(After(events[..|events| - 1], routerId), events[|events| - 1], routerId)
  }

  /** The router sync invariant, in every run: the last SYNC of each type sent to a registered, writable portal names
      exactly the registered servers, and nothing else a portal is sent can pass for a SYNC. */
  lemma {:induction false} RouterSync(events: seq<Event>, routerId: ServerId)
    requires Legal(events, routerId)
    ensures Inv(After(events, routerId))
  {
    if events != [] {
      RouterSync(events[..|events| - 1], routerId);
      StepKeepsInv(After(events[..|events| - 1], routerId), events[|events| - 1], routerId);
    }
  }

  lemma RunOn(events: seq<Event>, e: Event, routerId: ServerId)
    requires Legal(events, routerId) && WellStored(After(events, routerId))
    requires Possible(After(events, routerId), e, routerId)
    ensures Legal(events + [e], routerId) && After(events + [e], routerId) == Next(After(events, routerId), e, routerId)
  {
    assert (events + [e])[..|events|] == events;
  }
}
