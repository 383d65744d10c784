/** The gate's tables of which router connection leads to which server. */
module GateView {
  import opened Heads
  import opened Options
  import opened Sequences
  import opened RouterSpec

  type RouterId = nat
  type Table = map<ServerId, RouterId>

  /** Go's uint16(id) of a 32-bit id. */
  function ToServer(n: int): ServerId {
    (n % 0x1_0000) as ServerId
  }

  function Targets(ids: seq<int>): set<ServerId> {
    set n | n in ids :: ToServer(n)
  }

  /** The servers a table assigns to a router. */
  function Owned(table: Table, router: RouterId): set<ServerId> {
    set k | k in table && table[k] == router
  }

  /** A full synchronisation: the router's entries are dropped and the listed ids inserted. */
  function Replace(table: Table, router: RouterId, ids: seq<int>): Table {
    (table - Owned(table, router)) + (map k | k in Targets(ids) :: router)
  }

  /** The servers to report closed: those the router had and no longer lists. */
  function Gone(table: Table, router: RouterId, ids: seq<int>): set<ServerId> {
    set k | k in Owned(table, router) && k as int !in ids
  }

  /** A synchronisation makes the router's servers exactly the listed ones and takes only listed ids from others. */
  lemma ReplaceOwns(table: Table, router: RouterId, ids: seq<int>, other: RouterId)
    ensures Owned(Replace(table, router, ids), router) == Targets(ids)
    ensures other != router ==> Owned(Replace(table, router, ids), other) == Owned(table, other) - Targets(ids)
  {
  }

  /** The servers reported closed are exactly those the synchronisation drops, if and only if every listed id that
      leads to a server the router already had is that server's own 16-bit id. */
  lemma GoneIsDroppedIff(table: Table, router: RouterId, ids: seq<int>)
    ensures Gone(table, router, ids) == Owned(table, router) - Owned(Replace(table, router, ids), router)
            <==> forall n :: n in ids && ToServer(n) in Owned(table, router) ==> ToServer(n) as int in ids
  {
    ReplaceOwns(table, router, ids, router);
    var owned, gone, dropped := Owned(table, router), Gone(table, router, ids), Owned(table, router) - Targets(ids);
    if forall n :: n in ids && ToServer(n) in owned ==> ToServer(n) as int in ids {
      forall k | k in owned
        ensures k in gone <==> k in dropped
      {
        ListedOrTarget(k, ids);
      }
    } else {
      var n :| n in ids && ToServer(n) in owned && ToServer(n) as int !in ids;
      assert ToServer(n) in gone && ToServer(n) in Targets(ids);
    }
  }

  lemma ListedOrTarget(k: ServerId, ids: seq<int>)
    ensures k as int in ids ==> k in Targets(ids)
  {
    assert ToServer(k as int) == k;
  }

  /** The ids of this repository's routers are below 65536, and then the condition always holds. */
  lemma NarrowIdsExact(table: Table, router: RouterId, ids: seq<int>)
    requires forall n :: n in ids ==> 0 <= n < 0x1_0000
    ensures Gone(table, router, ids) == Owned(table, router) - Owned(Replace(table, router, ids), router)
  {
    forall n | n in ids
      ensures ToServer(n) as int in ids
    {
      assert ToServer(n) as int == n;
    }
    GoneIsDroppedIff(table, router, ids);
  }

  /** A router that listed wider ids would have a server reported closed that it just listed: 65537 leads to
      server 1. */
  lemma WideIdReportedClosed()
    ensures exists table, router, ids ::
              1 in Gone(table, router, ids) && 1 in Owned(Replace(table, router, ids), router)
  {
    var table: Table := map[1 := 7];
    var ids := [0x1_0001];
    assert ToServer(ids[0]) == 1;
    ReplaceOwns(table, 7, ids, 7);
    assert 1 in Gone(table, 7, ids) && 1 in Targets(ids);
  }

  function Unlisted(s: seq<ServerId>, ids: seq<int>): set<ServerId> {
    set k | k in s && k as int !in ids
  }

  class RouterMgr {
    var routerMgr: Table
    var crossRouterMgr: Table
    var teamIds: seq<ServerId>

    /** teamIds lists each key of crossRouterMgr exactly once. */
    ghost predicate Valid()
      reads this
    {
      Lists(teamIds, crossRouterMgr.Keys)
    }

    constructor ()
      ensures Valid() && routerMgr == map[] && crossRouterMgr == map[]
    {
      routerMgr, crossRouterMgr, teamIds := map[], map[], [];
    }

    method AddCrossRouterServer(svrIds: seq<int>, router: RouterId)
      requires Valid()
      modifies this`crossRouterMgr, this`teamIds
      ensures Valid() && crossRouterMgr == Replace(old(crossRouterMgr), router, svrIds)
    {
      var oldSvrIds;
      crossRouterMgr, oldSvrIds := DropRouter(crossRouterMgr, router);
      crossRouterMgr := InsertAll(crossRouterMgr, svrIds, router);
      teamIds := ListKeys(crossRouterMgr);
    }

    /** Also returns the servers for which ServerClose is raised. */
    method AddRouterServer(svrIds: seq<int>, router: RouterId) returns (closed: seq<ServerId>)
      modifies this`routerMgr
      ensures routerMgr == Replace(old(routerMgr), router, svrIds)
      ensures Lists(closed, Gone(old(routerMgr), router, svrIds))
    {
      var oldSvrIds;
      routerMgr, oldSvrIds := DropRouter(routerMgr, router);
      routerMgr := InsertAll(routerMgr, svrIds, router);
      closed := [];
      for i := 0 to |oldSvrIds|
        invariant routerMgr == Replace(old(routerMgr), router, svrIds)
        invariant Lists(closed, Unlisted(oldSvrIds[..i], svrIds))
      {
        assert oldSvrIds[..i + 1] == oldSvrIds[..i] + [oldSvrIds[i]];
        if oldSvrIds[i] as int !in svrIds {
          assert Unlisted(oldSvrIds[..i + 1], svrIds) == Unlisted(oldSvrIds[..i], svrIds) + {oldSvrIds[i]};
          assert oldSvrIds[i] !in oldSvrIds[..i];
          ListsSnoc(closed, Unlisted(oldSvrIds[..i], svrIds), oldSvrIds[i]);
          closed := closed + [oldSvrIds[i]];
        } else {
          assert Unlisted(oldSvrIds[..i + 1], svrIds) == Unlisted(oldSvrIds[..i], svrIds);
        }
      }
      assert oldSvrIds[..|oldSvrIds|] == oldSvrIds;
      assert Unlisted(oldSvrIds, svrIds) == Gone(old(routerMgr), router, svrIds) by {
        assert forall k :: k in oldSvrIds <==> k in ToSet(oldSvrIds);
      }
    }

    method RemoveSvrs(router: RouterId)
      requires Valid()
      modifies this`routerMgr, this`crossRouterMgr, this`teamIds
      ensures Valid()
      ensures routerMgr == old(routerMgr) - Owned(old(routerMgr), router)
      ensures crossRouterMgr == old(crossRouterMgr) - Owned(old(crossRouterMgr), router)
    {
      var dropped;
      routerMgr, dropped := DropRouter(routerMgr, router);
      crossRouterMgr, teamIds := KeepOthers(crossRouterMgr, router);
    }

    /** One SYNC from a router: the server type picks the table. */
    method Sync(serverType: int, ids: seq<int>, router: RouterId) returns (closed: seq<ServerId>)
      requires Valid()
      modifies this`routerMgr, this`crossRouterMgr, this`teamIds
      ensures Valid()
      ensures serverType == TEAMSVR ==>
                && crossRouterMgr == Replace(old(crossRouterMgr), router, ids)
                && routerMgr == old(routerMgr) && closed == []
      ensures serverType != TEAMSVR ==>
                && routerMgr == Replace(old(routerMgr), router, ids) && crossRouterMgr == old(crossRouterMgr)
                && Lists(closed, Gone(old(routerMgr), router, ids))
    {
      closed := [];
      if serverType == TEAMSVR {
        AddCrossRouterServer(ids, router);
      } else {
        closed := AddRouterServer(ids, router);
      }
    }
  }

  /** The deletion loop over a table; also lists what it deleted. */
  method DropRouter(table: Table, router: RouterId) returns (r: Table, dropped: seq<ServerId>)
    ensures r == table - Owned(table, router)
    ensures Lists(dropped, Owned(table, router))
  {
    r, dropped := table, [];
    var rest := table.Keys;
    while rest != {}
      invariant rest <= table.Keys
      invariant r == table - (Owned(table, router) - rest)
      invariant Lists(dropped, Owned(table, router) - rest)
      decreases rest
    {
      var svrID :| svrID in rest;
      if table[svrID] == router {
        ListsSnoc(dropped, Owned(table, router) - rest, svrID);
        assert Owned(table, router) - (rest - {svrID}) == Owned(table, router) - rest + {svrID};
        dropped := dropped + [svrID];
        r := r - {svrID};
      } else {
        assert Owned(table, router) - (rest - {svrID}) == Owned(table, router) - rest;
      }
      rest := rest - {svrID};
    }
    assert Owned(table, router) - {} == Owned(table, router);
  }

  /** The second loop of RemoveSvrs: deletes a router's entries and lists the others. */
  method KeepOthers(table: Table, router: RouterId) returns (r: Table, kept: seq<ServerId>)
    ensures r == table - Owned(table, router)
    ensures Lists(kept, r.Keys)
  {
    r, kept := table, [];
    ghost var owned := Owned(table, router);
    ghost var others := table.Keys - owned;
    var rest := table.Keys;
    assert others - rest == {} && Lists(kept, {});
    hide Lists, Owned;
    while rest != {}
      invariant rest <= table.Keys
      invariant r.Keys == others + rest && forall k :: k in r ==> k in table && r[k] == table[k]
      invariant Lists(kept, others - rest)
      decreases rest
    {
      var svrId :| svrId in rest;
      OwnedMember(table, router, svrId);
      RestStep(table.Keys, owned, rest, svrId);
      if table[svrId] == router {
        r := r - {svrId};
      } else {
        ListsSnoc(kept, others - rest, svrId);
        kept := kept + [svrId];
      }
      rest := rest - {svrId};
    }
    assert others - {} == r.Keys;
    assert r == table - owned;
  }

  lemma RestStep(keys: set<ServerId>, owned: set<ServerId>, rest: set<ServerId>, k: ServerId)
    requires k in rest && rest <= keys
    ensures keys - owned - (rest - {k}) == keys - owned - rest + if k in owned then {} else {k}
    ensures keys - owned + (rest - {k}) == keys - owned + rest - if k in owned then {k} else {}
    ensures k !in owned ==> k !in keys - owned - rest
  {
  }

  lemma OwnedMember(table: Table, router: RouterId, k: ServerId)
    requires k in table
    ensures k in Owned(table, router) <==> table[k] == router
  {
  }

  /** The insertion loop. */
  method InsertAll(table: Table, svrIds: seq<int>, router: RouterId) returns (r: Table)
    ensures r == table + (map k | k in Targets(svrIds) :: router)
  {
    r := table;
    for i := 0 to |svrIds|
      invariant r == table + (map k | k in Targets(svrIds[..i]) :: router)
    {
      assert svrIds[..i + 1] == svrIds[..i] + [svrIds[i]];
      assert Targets(svrIds[..i + 1]) == Targets(svrIds[..i]) + {ToServer(svrIds[i])};
      r := r[ToServer(svrIds[i]) := router];
    }
    assert svrIds[..|svrIds|] == svrIds;
  }

  method ListKeys(table: Table) returns (keys: seq<ServerId>)
    ensures Lists(keys, table.Keys)
  {
    keys := [];
    var rest := table.Keys;
    while rest != {}
      invariant rest <= table.Keys && Lists(keys, table.Keys - rest)
      decreases rest
    {
      var k :| k in rest;
      ListsSnoc(keys, table.Keys - rest, k);
      assert table.Keys - rest + {k} == table.Keys - (rest - {k});
      keys, rest := keys + [k], rest - {k};
    }
    assert table.Keys - {} == table.Keys;
  }
}
