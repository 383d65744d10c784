/** A gate whose session the router has shut: its view of the router never changes again on this connection, while the
    router's sets move on. */
module FrozenView {
  import opened Bytes
  import opened Heads
  import opened Options
  import opened Sequences
  import opened RouterSpec
  import opened RouterSync
  import opened GateView
  import opened ViewConsistency
  import RouterDepartures
  import RouterRuns
  import Continuations

  /** The gate has received everything it was sent, and its session is shut. */
  predicate Frozen(link: Link, s: Sys) {
    link.p in s.router.sessions && !s.router.sessions[link.p].accepting && s.delivered == |Sent(link, s)|
  }

  lemma FrozenStep(link: Link, s: Sys, step: Step)
    requires SysInv(link, s) && Frozen(link, s) && Enabled(link, s, step)
    ensures var t := NextSys(link, s, step);
            && Frozen(link, t) && t.delivered == s.delivered && t.log == s.log
            && View(link, t, GAMESVR) == View(link, s, GAMESVR) && View(link, t, TEAMSVR) == View(link, s, TEAMSVR)
  {
    if step.RouterEvent? {
      Continuations.ShutStep(s.router, step.e, link.routerId, link.p, Sent(link, s));
      hide Next, WellStored, Possible, Inv;
    } else if !step.Deliver? {
      OthersKeepView(link, s, step, GAMESVR);
      OthersKeepView(link, s, step, TEAMSVR);
    }
  }

  /** In every continuation, whatever the router, other routers and the gate do, the view stays what it is. */
  lemma {:induction false} ViewFrozenForGood(link: Link, s: Sys, steps: seq<Step>, k: nat)
    requires InitialSys(s) && LegalRun(link, s, steps) && k <= |steps| && LegalRun(link, s, steps[..k])
    requires Frozen(link, RunSys(link, s, steps[..k]))
    ensures var t, u := RunSys(link, s, steps[..k]), RunSys(link, s, steps);
            && Frozen(link, u) && u.log == t.log
            && View(link, u, GAMESVR) == View(link, t, GAMESVR) && View(link, u, TEAMSVR) == View(link, t, TEAMSVR)
  {
    if k == |steps| {
      assert steps[..k] == steps;
    } else {
      var before := steps[..|steps| - 1];
      assert before[..k] == steps[..k];
      ViewFrozenForGood(link, s, before, k);
      ViewIsSomePastSet(link, s, before);
      hide SysInv, Frozen, View, NextSys, Enabled;
      FrozenStep(link, RunSys(link, s, before), steps[|steps| - 1]);
    }
  }

  // ---- A run in which that happens ----

  lemma Then(link: Link, s: Sys, steps: seq<Step>, step: Step) returns (more: seq<Step>)
    requires InitialSys(s) && LegalRun(link, s, steps) && Enabled(link, RunSys(link, s, steps), step)
    ensures more == steps + [step] && LegalRun(link, s, more)
    ensures RunSys(link, s, more) == NextSys(link, RunSys(link, s, steps), step)
    ensures SysInv(link, RunSys(link, s, more))
  {
    more := steps + [step];
    assert more[..|steps|] == steps;
    ViewIsSomePastSet(link, s, more);
  }

  /** The gate receives everything that is on its way. */
  lemma Drain(link: Link, s: Sys, steps: seq<Step>) returns (more: seq<Step>)
    requires InitialSys(s) && LegalRun(link, s, steps) && SysInv(link, RunSys(link, s, steps))
    ensures LegalRun(link, s, more) && SysInv(link, RunSys(link, s, more))
    ensures var t, u := RunSys(link, s, steps), RunSys(link, s, more);
            u.router == t.router && u.delivered == |Sent(link, u)|
    decreases |Sent(link, RunSys(link, s, steps))| - RunSys(link, s, steps).delivered
  {
    var t := RunSys(link, s, steps);
    assert t.delivered <= |Sent(link, t)|;
    if t.delivered == |Sent(link, t)| {
      more := steps;
    } else {
      more := Then(link, s, steps, Deliver);
      assert RunSys(link, s, more).router == t.router;
      more := Drain(link, s, more);
    }
  }

  /** One router event, as in a run of the router alone. */
  lemma RouterStep(link: Link, s: Sys, steps: seq<Step>, events: seq<Event>, e: Event) returns (more: seq<Step>)
    requires InitialSys(s) && LegalRun(link, s, steps)
    requires Legal(events + [e], link.routerId) && Legal(events, link.routerId)
    requires RunSys(link, s, steps).router == After(events, link.routerId)
    ensures more == steps + [RouterEvent(e)] && LegalRun(link, s, more) && SysInv(link, RunSys(link, s, more))
    ensures RunSys(link, s, more).router == After(events + [e], link.routerId)
    ensures RunSys(link, s, more).delivered == RunSys(link, s, steps).delivered
    ensures RunSys(link, s, more).tables == RunSys(link, s, steps).tables
  {
    LastEvent(events, e, link.routerId);
    hide Next, Legal, After, WellStored, Possible, SysInv;
    more := Then(link, s, steps, RouterEvent(e));
  }

  lemma LastEvent(events: seq<Event>, e: Event, routerId: ServerId)
    requires Legal(events + [e], routerId)
    ensures Legal(events, routerId) && WellStored(After(events, routerId))
    ensures Possible(After(events, routerId), e, routerId)
    ensures After(events + [e], routerId) == Next(After(events, routerId), e, routerId)
  {
    assert (events + [e])[..|events|] == events;
  }

  /** A READY on the session that already holds the slot shuts it before anything is sent. */
  lemma RepeatSendsNothing(s: State, sid: SessId, id: ServerId, order: Order, routerId: ServerId)
    requires WellStored(s) && RouterDepartures.Sits(s.portals, id, sid) && sid in s.sessions
    requires s.sessions[sid].listener == Portals
    ensures var t := Next(s, Receive(sid, RouterRuns.Ready(PORTAL, id), order), routerId);
            sid in t.sessions && !t.sessions[sid].accepting && t.sessions[sid].sent == s.sessions[sid].sent
  {
    hide Pack, Fits;
  }

  /** From the start: portal 7 registers on session 1 and receives both sets, repeats its READY, and then game server 9
      joins. Portal 7 is registered and has received all that it was sent, and yet its view of the games is empty. */
  lemma FrozenRun(r: RouterId, routerId: ServerId) returns (link: Link, s: Sys, steps: seq<Step>)
    ensures InitialSys(s) && LegalRun(link, s, steps) && link.routerId == routerId && link.r == r
    ensures var t := RunSys(link, s, steps);
            && RouterDepartures.Sits(t.router.portals, 7, link.p) && Frozen(link, t)
            && t.router.games.Keys == {9} && View(link, t, GAMESVR) == {}
  {
    link := Link(1, r, routerId);
    s := Sys(INIT, [Sets({}, {})], [], 0, Tables(map[], map[]));
    var events;
    steps, events := RegisteredDrained(link, s);
    var again := RouterRuns.PortalRegisters(events, 1, 7, RouterRuns.NO_ORDER, routerId);
    var ready := Receive(1, RouterRuns.Ready(PORTAL, 7), RouterRuns.NO_ORDER);
    RepeatSendsNothing(After(events, routerId), 1, 7, RouterRuns.NO_ORDER, routerId);
    LastEvent(events, ready, routerId);
    hide Legal, After, Next, Inv, WellStored, Possible, LegalRun, RunSys, SysInv, View;
    var before := RunSys(link, s, steps);
    steps := RouterStep(link, s, steps, events, ready);
    SameView(link, before, RunSys(link, s, steps));
    steps := GameJoins(link, s, steps, again);
  }

  lemma SameView(link: Link, s: Sys, t: Sys)
    requires t.tables == s.tables
    ensures View(link, t, GAMESVR) == View(link, s, GAMESVR)
  {
  }

  /** Portal 7 registers on session 1. */
  lemma Registered(link: Link, s: Sys) returns (steps: seq<Step>, events: seq<Event>)
    requires InitialSys(s) && link.p == 1
    ensures LegalRun(link, s, steps) && SysInv(link, RunSys(link, s, steps))
    ensures Legal(events, link.routerId) && Inv(After(events, link.routerId))
    ensures RunSys(link, s, steps).router == After(events, link.routerId)
    ensures var t := After(events, link.routerId);
            && RouterDepartures.Sits(t.portals, 7, 1) && t.sessions.Keys == {1}
            && t.sessions[1].listener == Portals && t.sessions[1].accepting && t.games == map[] && t.teams == map[]
  {
    RouterRuns.NothingYet(link.routerId);
    RouterSync.RouterSync([], link.routerId);
    hide Legal, After, Next, Inv, WellStored, Possible, SysInv, View;
    var one := RouterRuns.ConnectOnly([], 1, Portals, link.routerId);
    events := RouterRuns.PortalRegisters(one, 1, 7, RouterRuns.NO_ORDER, link.routerId);
    steps := RouterStep(link, s, [], [], Connect(1, Portals));
    hide LegalRun, RunSys;
    steps := RouterStep(link, s, steps, one, Receive(1, RouterRuns.Ready(PORTAL, 7), RouterRuns.NO_ORDER));
  }

  /** It receives what it is sent: its view of the games is empty, as are the games. */
  lemma RegisteredDrained(link: Link, s: Sys) returns (steps: seq<Step>, events: seq<Event>)
    requires InitialSys(s) && link.p == 1
    ensures LegalRun(link, s, steps) && SysInv(link, RunSys(link, s, steps))
    ensures Legal(events, link.routerId) && Inv(After(events, link.routerId))
    ensures var t := RunSys(link, s, steps);
            && t.router == After(events, link.routerId) && t.delivered == |Sent(link, t)|
            && RouterDepartures.Sits(t.router.portals, 7, 1) && t.router.sessions.Keys == {1}
            && t.router.sessions[1].listener == Portals
            && t.router.games == map[] && t.router.teams == map[] && View(link, t, GAMESVR) == {}
  {
    hide Legal, After, Inv, SysInv, View, LegalRun, RunSys;
    steps, events := Registered(link, s);
    steps := Drain(link, s, steps);
    DrainedViewIsCurrent(link, s, steps, 7, GAMESVR);
  }

  /** Game server 9 joins. */
  lemma GameJoinsRouter(link: Link, s: Sys, steps: seq<Step>, events: seq<Event>) returns (more: seq<Step>)
    requires InitialSys(s) && LegalRun(link, s, steps)
    requires Legal(events, link.routerId) && Inv(After(events, link.routerId))
    requires var t := After(events, link.routerId);
             t == RunSys(link, s, steps).router && 2 !in t.sessions && t.games == map[] && t.teams == map[]
    ensures LegalRun(link, s, more) && |steps| <= |more| && more[..|steps|] == steps
    ensures var t, u := RunSys(link, s, steps).router, RunSys(link, s, more).router;
            u.portals == t.portals && u.games.Keys == {9}
  {
    hide Legal, After, Next, Inv, WellStored, Possible, LegalRun, RunSys, SysInv;
    var order := Order([9], []);
    var three := RouterRuns.ConnectOnly(events, 2, Internal, link.routerId);
    NineFits();
    hide Fits;
    var four := RouterRuns.GameRegisters(three, 2, 9, order, link.routerId);
    more := RouterStep(link, s, steps, events, Connect(2, Internal));
    more := RouterStep(link, s, more, three, Receive(2, RouterRuns.Ready(GAMESVR, 9), order));
  }

  lemma NineFits()
    ensures Fits([], map[]) && forall c :: Fits([9], map[9 := c])
  {
  }

  /** That changes nothing for a frozen gate. */
  lemma GameJoins(link: Link, s: Sys, steps: seq<Step>, events: seq<Event>) returns (more: seq<Step>)
    requires InitialSys(s) && LegalRun(link, s, steps)
    requires Legal(events, link.routerId) && Inv(After(events, link.routerId))
    requires var t := RunSys(link, s, steps);
             && t.router == After(events, link.routerId) && Frozen(link, t)
             && RouterDepartures.Sits(t.router.portals, 7, 1) && 2 !in t.router.sessions
             && t.router.games == map[] && t.router.teams == map[]
    ensures LegalRun(link, s, more)
    ensures var t, u := RunSys(link, s, steps), RunSys(link, s, more);
            && Frozen(link, u) && View(link, u, GAMESVR) == View(link, t, GAMESVR)
            && RouterDepartures.Sits(u.router.portals, 7, 1) && u.router.games.Keys == {9}
  {
    hide Legal, After, Inv, LegalRun, RunSys, View, Frozen;
    more := GameJoinsRouter(link, s, steps, events);
    ViewFrozenForGood(link, s, more, |steps|);
  }
}
