/**
 The gate's view of one router, end to end.

 One gate is connected to one router through session `p`. The router runs events, the gate receives what was
 sent to p, in order and at its own pace, and other routers synchronise the same gate in between.
 The set a router serves is compared with what the gate's tables assign to that router.
 */
module ViewConsistency {
  import opened Bytes
  import opened Heads
  import opened Options
  import opened Sequences
  import opened RouterSpec
  import opened RouterSync
  import opened GateView

  datatype Sets = Sets(games: set<ServerId>, teams: set<ServerId>)

  function Of(x: Sets, svrType: int): set<ServerId> {
    if svrType == TEAMSVR then x.teams else x.games
  }

  function SetsOf(s: State): Sets {
    Sets(s.games.Keys, s.teams.Keys)
  }

  predicate ServerType(svrType: int) {
    svrType == GAMESVR || svrType == TEAMSVR
  }

  function SentTo(s: State, p: SessId): seq<Message> {
    if p in s.sessions then s.sessions[p].sent else []
  }

  /** A SYNC of either server type names the servers of that type. */
  predicate NamesSets(m: Message, now: Sets) {
    m.head.ssCmd == SYNC && m.body.ServerList? && ServerType(m.body.serverType) ==>
      Names(m.body.ids, Of(now, m.body.serverType))
  }

  /** What an event appends to a session is such that a SYNC names the sets as the event leaves them. */
  predicate Appends(before: seq<Message>, after: seq<Message>, now: Sets) {
    && |before| <= |after| && before == after[..|before|]
    && forall i :: |before| <= i < |after| ==> NamesSets(after[i], now)
  }

  // ---- What one router event sends ----

  lemma QuietAppends(s: State, t: State, p: SessId, now: Sets)
    requires AllQuiet(s.sessions, t.sessions)
    requires p in t.sessions && p !in s.sessions ==> t.sessions[p].sent == []
    ensures Appends(SentTo(s, p), SentTo(t, p), now)
  {
  }

  lemma SendAppends(x: Session, m: Message, n: nat, svrType: int, now: Sets)
    requires ServerType(svrType) && IsSync(m, svrType) && Names(m.body.ids, Of(now, svrType))
    ensures Appends(x.sent, Send(x, Repeat(m, n)).sent, now)
  {
    hide Names;
  }

  lemma AppendsChain(a: seq<Message>, b: seq<Message>, c: seq<Message>, now: Sets)
    requires Appends(a, b, now) && Appends(b, c, now)
    ensures Appends(a, c, now)
  {
    hide Names;
    assert c[..|a|] == b[..|a|];
    assert forall i :: 0 <= i < |b| ==> b[i] == c[i];
  }

  lemma BroadcastAppends(s: State, m: Message, svrType: int, now: Sets, p: SessId)
    requires ServerType(svrType) && IsSync(m, svrType) && Names(m.body.ids, Of(now, svrType))
    ensures Appends(SentTo(s, p), SentTo(Broadcast(s, s.portals, m), p), now)
  {
    hide Names, IsSync;
    if p in s.sessions {
      SendAppends(s.sessions[p], m, |SlotsOf(s.portals, p)|, svrType, now);
    }
  }

  lemma PushAppends(s: State, order: Order, routerId: ServerId, p: SessId)
    requires WellStored(s)
    ensures Appends(SentTo(s, p), SentTo(PushGames(s, order, routerId), p), SetsOf(s))
    ensures Appends(SentTo(s, p), SentTo(PushTeams(s, order, routerId), p), SetsOf(s))
  {
    hide Names, Broadcast, Pack;
    if Fits(order.games, s.games) {
      PackNames(s.games, order.games, GAMESVR, routerId);
      BroadcastAppends(s, Pack(s.games, order.games, GAMESVR, routerId), GAMESVR, SetsOf(s), p);
    }
    if Fits(order.teams, s.teams) {
      PackNames(s.teams, order.teams, TEAMSVR, routerId);
      BroadcastAppends(s, Pack(s.teams, order.teams, TEAMSVR, routerId), TEAMSVR, SetsOf(s), p);
    }
  }

  lemma PushSets(s: State, order: Order, routerId: ServerId)
    ensures SetsOf(PushGames(s, order, routerId)) == SetsOf(s) == SetsOf(PushTeams(s, order, routerId))
  {
  }

  lemma QuietPushAppends(s: State, t: State, order: Order, routerId: ServerId, p: SessId)
    requires WellStored(t) && AllQuiet(s.sessions, t.sessions) && t.sessions.Keys == s.sessions.Keys
    ensures Appends(SentTo(s, p), SentTo(PushGames(t, order, routerId), p), SetsOf(t))
    ensures Appends(SentTo(s, p), SentTo(PushTeams(t, order, routerId), p), SetsOf(t))
  {
    hide WellStored, AllQuiet, Appends, PushGames, PushTeams;
    QuietAppends(s, t, p, SetsOf(t));
    PushAppends(t, order, routerId, p);
    AppendsChain(SentTo(s, p), SentTo(t, p), SentTo(PushGames(t, order, routerId), p), SetsOf(t));
    AppendsChain(SentTo(s, p), SentTo(t, p), SentTo(PushTeams(t, order, routerId), p), SetsOf(t));
  }

  lemma InternalReadyAppends(s: State, sid: SessId, msg: Message, order: Order, routerId: ServerId, p: SessId)
    requires WellStored(s) && sid in s.sessions && s.sessions[sid].listener == Internal
    ensures var t := InternalReady(s, sid, msg, order, routerId); Appends(SentTo(s, p), SentTo(t, p), SetsOf(t))
  {
    hide WellStored, AllQuiet, Appends, PushGames, PushTeams, AddGame, AddTeam;
    var c := RouteClient(sid, msg.head.srcID, msg.head.srcType);
    AddFrame(s, c);
    AddServerStores(s, c);
    if msg.head.srcType == GAMESVR {
      QuietPushAppends(s, AddGame(s, c), order, routerId, p);
      PushSets(AddGame(s, c), order, routerId);
    } else if msg.head.srcType == TEAMSVR {
      QuietPushAppends(s, AddTeam(s, c), order, routerId, p);
      PushSets(AddTeam(s, c), order, routerId);
    } else {
      AllQuietRefl(s.sessions);
      QuietAppends(s, s, p, SetsOf(s));
    }
  }

  lemma InternalClosedAppends(s: State, sid: SessId, order: Order, routerId: ServerId, p: SessId)
    requires WellStored(s) && sid in s.sessions && s.sessions[sid].listener == Internal
    ensures var t := InternalClosed(s, sid, order, routerId); Appends(SentTo(s, p), SentTo(t, p), SetsOf(t))
  {
    var x := s.sessions[sid];
    BoundWellOf(s, sid);
    hide WellStored, AllQuiet, Appends, PushGames, PushTeams;
    if x.verified && x.userdata.Some? {
      var id := x.userdata.value.id;
      DropServerStores(s, sid, id);
      var t, u := Unbind(s, sid).(games := s.games - {id}), Unbind(s, sid).(teams := s.teams - {id});
      QuietPushAppends(s, t, order, routerId, p);
      QuietPushAppends(s, u, order, routerId, p);
      PushSets(t, order, routerId);
      PushSets(u, order, routerId);
    } else {
      AllQuietRefl(s.sessions);
      QuietAppends(s, s, p, SetsOf(s));
    }
  }

  lemma PortalReadyAppends(s: State, sid: SessId, msg: Message, order: Order, routerId: ServerId, p: SessId)
    requires WellStored(s) && sid in s.sessions && s.sessions[sid].listener == Portals
    ensures var t := PortalReady(s, sid, msg, order, routerId); Appends(SentTo(s, p), SentTo(t, p), SetsOf(t))
  {
    var c := RouteClient(sid, msg.head.srcID, PORTAL);
    AddPortalStores(s, c);
    AddFrame(s, c);
    hide AddPortal;
    var t := AddPortal(s, c);
    QuietAppends(s, t, p, SetsOf(t));
    hide AllQuiet, Appends;
    if Fits(order.games, t.games) && Fits(order.teams, t.teams) {
      AnswersAppend(t, sid, order, routerId, p);
      AppendsChain(SentTo(s, p), SentTo(t, p), SentTo(PortalReady(s, sid, msg, order, routerId), p), SetsOf(t));
    }
  }

  lemma AnswersAppend(t: State, sid: SessId, order: Order, routerId: ServerId, p: SessId)
    requires WellStored(t) && sid in t.sessions && Fits(order.games, t.games) && Fits(order.teams, t.teams)
    ensures var u := SendTo(t, sid, Pack(t.games, order.games, GAMESVR, routerId));
            var v := SendTo(u, sid, Pack(t.teams, order.teams, TEAMSVR, routerId));
            Appends(SentTo(t, p), SentTo(v, p), SetsOf(t))
  {
    var g, m := Pack(t.games, order.games, GAMESVR, routerId), Pack(t.teams, order.teams, TEAMSVR, routerId);
    PackNames(t.games, order.games, GAMESVR, routerId);
    PackNames(t.teams, order.teams, TEAMSVR, routerId);
    hide Names, Pack, Fits, WellStored;
    assert Repeat(g, 1) == [g] && Repeat(m, 1) == [m];
    var u := SendTo(t, sid, g);
    SendAppends(t.sessions[sid], g, 1, GAMESVR, SetsOf(t));
    SendAppends(u.sessions[sid], m, 1, TEAMSVR, SetsOf(t));
    hide Send, IsSync;
    AppendsRefl(SentTo(t, p), SetsOf(t));
    AppendsChain(SentTo(t, sid), SentTo(u, sid), SentTo(SendTo(u, sid, m), sid), SetsOf(t));
  }

  lemma AppendsRefl(a: seq<Message>, now: Sets)
    ensures Appends(a, a, now)
  {
  }

  /** Whatever the router does next, a SYNC it sends names the sets it then has. */
  lemma EventAppends(s: State, e: Event, routerId: ServerId, p: SessId)
    requires WellStored(s)
    ensures var t := Next(s, e, routerId); Appends(SentTo(s, p), SentTo(t, p), SetsOf(t))
  {
    hide WellStored, AllQuiet, Appends, InternalReady, InternalClosed, PortalReady, Verified;
    if (e.Receive? || e.Closed?) && e.sid !in s.sessions {
      AppendsRefl(SentTo(s, p), SetsOf(s));
    } else if e.Receive? && e.msg.head.ssCmd == READY {
      if s.sessions[e.sid].listener == Internal {
        InternalReadyAppends(s, e.sid, e.msg, e.order, routerId, p);
      } else {
        PortalReadyAppends(s, e.sid, e.msg, e.order, routerId, p);
      }
    } else if e.Closed? && s.sessions[e.sid].listener == Internal {
      InternalClosedAppends(s, e.sid, e.order, routerId, p);
    } else {
      OtherEventsQuiet(s, e, routerId);
      QuietAppends(s, Next(s, e, routerId), p, SetsOf(Next(s, e, routerId)));
    }
  }

  // ---- Router, connection and gate together ----

  datatype Link = Link(p: SessId, r: RouterId, routerId: ServerId)

  datatype Tables = Tables(games: Table, teams: Table)

  /** The router; its server sets after each of its events; per message sent to p the event that sent it;
      how many of these messages the gate has received; and the gate's two tables. */
  datatype Sys = Sys(router: State, history: seq<Sets>, log: seq<nat>, delivered: nat, tables: Tables)

  datatype Step =
    | RouterEvent(e: Event)
    | Deliver
    | OtherSync(other: RouterId, svrType: int, ids: seq<int>)
    | OtherRemoved(other: RouterId)

  function TableOf(t: Tables, svrType: int): Table {
    if svrType == TEAMSVR then t.teams else t.games
  }

  function SyncTables(t: Tables, r: RouterId, svrType: int, ids: seq<int>): Tables {
    if svrType == TEAMSVR then t.(teams := Replace(t.teams, r, ids)) else t.(games := Replace(t.games, r, ids))
  }

  /** The gate acts on a SYNC with a server list; other messages do not touch its tables. */
  function ReceiveMsg(t: Tables, r: RouterId, m: Message): Tables {
    if m.head.ssCmd == SYNC && m.body.ServerList? then SyncTables(t, r, m.body.serverType, m.body.ids) else t
  }

  function Sent(link: Link, s: Sys): seq<Message> {
    SentTo(s.router, link.p)
  }

  /** Another router may synchronise as it likes, but not claim a server that this one serves. */
  ghost predicate Enabled(link: Link, s: Sys, step: Step) {
    match step
    case RouterEvent(e) => WellStored(s.router) && Possible(s.router, e, link.routerId)
    case Deliver => s.delivered < |Sent(link, s)|
    case OtherSync(other, svrType, ids) => other != link.r && Targets(ids) !! Owned(TableOf(s.tables, svrType), link.r)
    case OtherRemoved(other) => other != link.r
  }

  ghost function NextSys(link: Link, s: Sys, step: Step): Sys
    requires Enabled(link, s, step)
  {
    match step
    case RouterEvent(e) =>
      var t := Next(s.router, e, link.routerId);
      var fresh' := |SentTo(t, link.p)| - |Sent(link, s)|;
      Sys(t, s.history + [SetsOf(t)], s.log + (if fresh' >= 0 then seq(fresh', _ => |s.history|) else []),
          s.delivered, s.tables)
    case Deliver =>
      s.(delivered := s.delivered + 1, tables := ReceiveMsg(s.tables, link.r, Sent(link, s)[s.delivered]))
    case OtherSync(other, svrType, ids) => s.(tables := SyncTables(s.tables, other, svrType, ids))
    case OtherRemoved(other) =>
      s.(tables := Tables(s.tables.games - Owned(s.tables.games, other), s.tables.teams - Owned(s.tables.teams, other)))
  }

  predicate InitialSys(s: Sys) {
    s.router == INIT && s.history == [Sets({}, {})] && s.log == [] && s.delivered == 0
  }

  ghost predicate LegalRun(link: Link, s: Sys, steps: seq<Step>)
    decreases |steps|, 0
  {
    steps == [] ||
    (LegalRun(link, s, steps[..|steps| - 1])
        && Enabled(link, RunSys(link, s, steps[..|steps| - 1]), steps[|steps| - 1]))
  }

  ghost function RunSys(link: Link, s: Sys, steps: seq<Step>): Sys
    requires LegalRun(link, s, steps)
    decreases |steps|, 1
  {
    if steps == [] then s else NextSys(link, RunSys(link, s, steps[..|steps| - 1]), steps[|steps| - 1])
  }

  // ---- The view ----

  /** Where in a message sequence the last SYNC of a type stands. */
  function LastAt(sent: seq<Message>, svrType: int): (k: Option<nat>)
    ensures k.Some? ==>
              && k.value < |sent| && IsSync(sent[k.value], svrType)
              && LastIds(sent, svrType) == Some(sent[k.value].body.ids)
    ensures k.None? ==> LastIds(sent, svrType) == None
  {
    if sent == [] then None
    else if IsSync(sent[|sent| - 1], svrType) then Some(|sent| - 1)
    else LastAt(sent[..|sent| - 1], svrType)
  }

  /** The router event whose SYNC of this type the gate received last. */
  function ViewIndex(link: Link, s: Sys, svrType: int): Option<nat>
    requires s.delivered <= |Sent(link, s)| == |s.log|
  {
    var k := LastAt(Sent(link, s)[..s.delivered], svrType);
    if k.None? then None else Some(s.log[k.value])
  }

  function View(link: Link, s: Sys, svrType: int): set<ServerId> {
    Owned(TableOf(s.tables, svrType), link.r)
  }

  predicate Logged(link: Link, s: Sys) {
    && s.delivered <= |Sent(link, s)| == |s.log|
    && |s.history| >= 1 && s.history[|s.history| - 1] == SetsOf(s.router)
    && (forall j :: 0 <= j < |s.log| ==> s.log[j] < |s.history|)
    && (forall i, j :: 0 <= i <= j < |s.log| ==> s.log[i] <= s.log[j])
    && forall j :: 0 <= j < |s.log| ==> NamesSets(Sent(link, s)[j], s.history[s.log[j]])
  }

  predicate ViewOk(link: Link, s: Sys, svrType: int)
    requires Logged(link, s)
  {
    var i := ViewIndex(link, s, svrType);
    i.Some? ==> View(link, s, svrType) == Of(s.history[i.value], svrType)
  }

  ghost predicate SysInv(link: Link, s: Sys) {
    Inv(s.router) && Logged(link, s) && ViewOk(link, s, GAMESVR) && ViewOk(link, s, TEAMSVR)
  }

  lemma NamesTargets(ids: seq<int>, servers: set<ServerId>)
    requires Names(ids, servers)
    ensures Targets(ids) == servers
  {
    forall k: ServerId | k in servers
      ensures k in Targets(ids)
    {
      assert ToServer(k as int) == k;
    }
  }

  /** A router event extends history, log and message sequence, and leaves the delivered part alone. */
  lemma EventKeepsLog(link: Link, s: Sys, e: Event)
    requires Inv(s.router) && Logged(link, s) && Possible(s.router, e, link.routerId)
    ensures var t := NextSys(link, s, RouterEvent(e));
            && Logged(link, t) && Sent(link, s) == Sent(link, t)[..|Sent(link, s)|]
            && s.history == t.history[..|s.history|] && s.log == t.log[..|s.log|]
  {
    EventAppends(s.router, e, link.routerId, link.p);
    hide Next, Possible, NamesSets, Inv, SentTo;
  }

  lemma EventKeepsView(link: Link, s: Sys, e: Event, svrType: int)
    requires Inv(s.router) && Logged(link, s) && Possible(s.router, e, link.routerId)
    ensures var t := NextSys(link, s, RouterEvent(e));
            && Logged(link, t) && ViewIndex(link, t, svrType) == ViewIndex(link, s, svrType)
            && (ViewOk(link, s, svrType) ==> ViewOk(link, t, svrType))
  {
    hide Next, Possible, NamesSets, SentTo, LastAt, WellStored, Owned, OnlyPacked, AllTold;
    var t := NextSys(link, s, RouterEvent(e));
    EventKeepsLog(link, s, e);
    assert Sent(link, t)[..s.delivered] == Sent(link, s)[..s.delivered];
  }

  lemma LastAtSnoc(sent: seq<Message>, n: nat, svrType: int)
    requires n < |sent|
    ensures LastAt(sent[..n + 1], svrType) == if IsSync(sent[n], svrType) then Some(n) else LastAt(sent[..n], svrType)
  {
    assert sent[..n + 1][..n] == sent[..n];
  }

  /** A delivered SYNC of this type replaces the view by the sets at its event, anything else leaves the view. */
  lemma DeliverView(link: Link, s: Sys, svrType: int)
    requires Inv(s.router) && Logged(link, s) && s.delivered < |Sent(link, s)| && ServerType(svrType)
    ensures var t, m := NextSys(link, s, Deliver), Sent(link, s)[s.delivered];
            && Logged(link, t)
            && View(link, t, svrType)
               == (if IsSync(m, svrType) then Of(s.history[s.log[s.delivered]], svrType) else View(link, s, svrType))
            && ViewIndex(link, t, svrType)
               == (if IsSync(m, svrType) then Some(s.log[s.delivered]) else ViewIndex(link, s, svrType))
  {
    var m := Sent(link, s)[s.delivered];
    LastAtSnoc(Sent(link, s), s.delivered, svrType);
    SentPacked(link, s, s.delivered);
    SyncSets(link, s, svrType);
    hide Inv, SentTo, Packed, NamesSets, Owned, LastAt;
    ReceiveSets(s.tables, link.r, m, svrType, Of(s.history[s.log[s.delivered]], svrType));
  }

  /** The next message names the sets of its event, if it is a SYNC. */
  lemma SyncSets(link: Link, s: Sys, svrType: int)
    requires Logged(link, s) && s.delivered < |Sent(link, s)| && ServerType(svrType)
    ensures var m := Sent(link, s)[s.delivered];
            IsSync(m, svrType) ==> Names(m.body.ids, Of(s.history[s.log[s.delivered]], svrType))
  {
    assert NamesSets(Sent(link, s)[s.delivered], s.history[s.log[s.delivered]]);
    hide SentTo, Names;
  }

  /** What one message makes of the table of a type. */
  lemma ReceiveSets(tables: Tables, r: RouterId, m: Message, svrType: int, servers: set<ServerId>)
    requires Packed(m) && ServerType(svrType) && (IsSync(m, svrType) ==> Names(m.body.ids, servers))
    ensures var before, after := TableOf(tables, svrType), TableOf(ReceiveMsg(tables, r, m), svrType);
            Owned(after, r) == if IsSync(m, svrType) then servers else Owned(before, r)
  {
    hide Owned, Replace, Names, Targets;
    if IsSync(m, svrType) {
      NamesTargets(m.body.ids, servers);
      ReplaceOwns(TableOf(tables, svrType), r, m.body.ids, r);
    }
  }

  lemma SentPacked(link: Link, s: Sys, j: nat)
    requires Inv(s.router) && j < |Sent(link, s)|
    ensures Packed(Sent(link, s)[j])
  {
    var m := Sent(link, s)[j];
    assert m in s.router.sessions[link.p].sent;
  }

  lemma OthersKeepView(link: Link, s: Sys, step: Step, svrType: int)
    requires Enabled(link, s, step) && (step.OtherSync? || step.OtherRemoved?) && ServerType(svrType)
    ensures View(link, NextSys(link, s, step), svrType) == View(link, s, svrType)
  {
    if step.OtherSync? {
      ReplaceOwns(TableOf(s.tables, step.svrType), step.other, step.ids, step.other);
      ReplaceKeepsOthers(TableOf(s.tables, step.svrType), step.other, step.ids, link.r);
    }
  }

  lemma ReplaceKeepsOthers(table: Table, other: RouterId, ids: seq<int>, r: RouterId)
    requires other != r && Targets(ids) !! Owned(table, r)
    ensures Owned(Replace(table, other, ids), r) == Owned(table, r)
  {
    ReplaceOwns(table, other, ids, r);
  }

  /** Every step keeps the invariant, and the event behind the view never goes back. */
  lemma StepKeepsView(link: Link, s: Sys, step: Step)
    requires SysInv(link, s) && Enabled(link, s, step)
    ensures var t := NextSys(link, s, step);
            && SysInv(link, t)
            && |s.history| <= |t.history| && s.history == t.history[..|s.history|]
            && forall svrType :: ServerType(svrType) && ViewIndex(link, s, svrType).Some? ==>
                 && ViewIndex(link, t, svrType).Some?
                 && ViewIndex(link, s, svrType).value <= ViewIndex(link, t, svrType).value
  {
    hide Inv, Logged, View, TableOf, SentTo, LastAt;
    forall svrType | ServerType(svrType)
      ensures StepKeepsOne(link, s, step, svrType)
    {
      match step
      case RouterEvent(e) =>
        EventKeepsView(link, s, e, svrType);
      case Deliver =>
        DeliverView(link, s, svrType);
        DeliverForward(link, s, svrType);
      case _ =>
        OthersKeepView(link, s, step, svrType);
        OthersKeepLog(link, s, step);
    }
    if step.RouterEvent? {
      RouterSync.StepKeepsInv(s.router, step.e, link.routerId);
      EventKeepsLog(link, s, step.e);
    }
    assert StepKeepsOne(link, s, step, GAMESVR) && StepKeepsOne(link, s, step, TEAMSVR);
  }

  ghost predicate StepKeepsOne(link: Link, s: Sys, step: Step, svrType: int)
    requires SysInv(link, s) && Enabled(link, s, step)
  {
    var t := NextSys(link, s, step);
    && Logged(link, t) && ViewOk(link, t, svrType)
    && (ViewIndex(link, s, svrType).Some? ==>
          && ViewIndex(link, t, svrType).Some?
          && ViewIndex(link, s, svrType).value <= ViewIndex(link, t, svrType).value)
  }

  lemma OthersKeepLog(link: Link, s: Sys, step: Step)
    requires Logged(link, s) && Enabled(link, s, step) && (step.OtherSync? || step.OtherRemoved?)
    ensures Logged(link, NextSys(link, s, step))
  {
  }

  lemma DeliverForward(link: Link, s: Sys, svrType: int)
    requires Logged(link, s) && s.delivered < |Sent(link, s)|
    ensures ViewIndex(link, s, svrType).Some? ==> ViewIndex(link, s, svrType).value <= s.log[s.delivered]
  {
  }

  /** View consistency in every run: once the gate has received a SYNC of a type, the servers it assigns to the router
      are the router's set after some earlier event of the router. */
  lemma {:induction false} ViewIsSomePastSet(link: Link, s: Sys, steps: seq<Step>)
    requires InitialSys(s) && LegalRun(link, s, steps)
    ensures SysInv(link, RunSys(link, s, steps))
  {
    if steps != [] {
      ViewIsSomePastSet(link, s, steps[..|steps| - 1]);
      StepKeepsView(link, RunSys(link, s, steps[..|steps| - 1]), steps[|steps| - 1]);
    }
  }

  /** A registered, writable portal whose messages have all arrived: the gate's view is the router's current set. */
  lemma DrainedViewIsCurrent(link: Link, s: Sys, steps: seq<Step>, k: ServerId, svrType: int)
    requires InitialSys(s) && LegalRun(link, s, steps) && ServerType(svrType)
    requires var t := RunSys(link, s, steps);
             && k in t.router.portals && t.router.portals[k].session == link.p
             && link.p in t.router.sessions && t.router.sessions[link.p].accepting
             && t.delivered == |Sent(link, t)|
    ensures var t := RunSys(link, s, steps); View(link, t, svrType) == Of(SetsOf(t.router), svrType)
  {
    ViewIsSomePastSet(link, s, steps);
    var t := RunSys(link, s, steps);
    hide RunSys, LegalRun, Owned, TableOf;
    assert Told(t.router.sessions[link.p], svrType, Of(SetsOf(t.router), svrType));
    assert Sent(link, t)[..t.delivered] == Sent(link, t);
    var at := LastAt(Sent(link, t), svrType);
    var ids := Sent(link, t)[at.value].body.ids;
    NamesTargets(ids, Of(SetsOf(t.router), svrType));
    NamesTargets(ids, Of(t.history[t.log[at.value]], svrType));
  }

  /** On a game SYNC the gate raises ServerClose for exactly the servers dropped since the SYNC before. */
  lemma ClosesExactlyDropped(link: Link, s: Sys)
    requires SysInv(link, s) && s.delivered < |Sent(link, s)| && IsSync(Sent(link, s)[s.delivered], GAMESVR)
    requires ViewIndex(link, s, GAMESVR).Some?
    ensures Gone(s.tables.games, link.r, Sent(link, s)[s.delivered].body.ids)
         == s.history[ViewIndex(link, s, GAMESVR).value].games - s.history[s.log[s.delivered]].games
  {
    var ids := Sent(link, s)[s.delivered].body.ids;
    NarrowIdsExact(s.tables.games, link.r, ids);
    ReplaceOwns(s.tables.games, link.r, ids, link.r);
    NamesTargets(ids, s.history[s.log[s.delivered]].games);
  }
}
