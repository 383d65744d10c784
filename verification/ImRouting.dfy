/** The gate's IM routing: a hash ring over every IM server ever found, and the entries it resolves to. */
module ImRouting {
  import opened Bytes
  import opened Numerals
  import opened Options
  import opened Sequences
  import opened RingSpec
  import opened RingTheorems
  import opened HashRings

  /** The names of servers on the ring. */
  function Names(ids: set<I64>): set<string> {
    set id | id in ids :: Itoa(id)
  }

  /** A well-built ring of unit weights whose nodes are the given servers. */
  predicate RingOf(digest: Hash, s: RingState, ids: set<I64>) {
    WellBuilt(digest, s) && Positive(s.weights) && Uniform(s.nodes, s.weights, 1) && ToSet(s.nodes) == Names(ids)
  }

  /** The owner of a key is unchanged, or one of the given servers. */
  ghost predicate StaysOrMovesTo(before: RingState, after: RingState, ids: set<I64>, h: HashKey) {
    Owner(after.ring, h) == Owner(before.ring, h) || exists id :: id in ids && Owner(after.ring, h) == Some(Itoa(id))
  }

  /** Every key keeps its owner or goes to one of the given servers. */
  ghost predicate MovesOnlyTo(before: RingState, after: RingState, ids: set<I64>) {
    forall h: HashKey :: StaysOrMovesTo(before, after, ids, h)
  }

  /** A ring with a node routes every key to one of its nodes. */
  lemma OwnerIsNode(digest: Hash, s: RingState, h: HashKey)
    requires WellBuilt(digest, s) && Positive(s.weights)
    ensures Owner(s.ring, h) == None <==> s.nodes == []
    ensures Owner(s.ring, h).Some? ==> Owner(s.ring, h).value in s.nodes
  {
    PointCount(digest, s.nodes, s.weights);
    if s.nodes != [] {
      var n := s.ring[Next(s.ring.Keys, h)];
      if n !in s.nodes {
        RingValues(digest, s.nodes, s.weights, n);
      }
    }
  }

  lemma OwnerIsServer(digest: Hash, s: RingState, ids: set<I64>, h: HashKey)
    requires RingOf(digest, s, ids) && ids != {}
    ensures exists id :: id in ids && Owner(s.ring, h) == Some(Itoa(id))
  {
    hide Build, Owner, Itoa;
    OwnerIsNode(digest, s, h);
    var id :| id in ids;
    assert Itoa(id) in ToSet(s.nodes);
    assert Owner(s.ring, h).value in ToSet(s.nodes);
  }

  lemma RingOfUnitWeights(digest: Hash, s: RingState, ids: set<I64>)
    requires WellBuilt(digest, s) && s.weights.Keys == Names(ids) && Lists(s.nodes, s.weights.Keys)
    requires forall n :: n in s.weights ==> s.weights[n] == 1
    ensures RingOf(digest, s, ids)
  {
    hide Build, Names;
    assert forall n :: n in s.nodes ==> n in ToSet(s.nodes);
  }

  lemma FirstRingMoves(digest: Hash, before: RingState, s: RingState, ids: set<I64>)
    requires RingOf(digest, s, ids) && ids != {}
    ensures MovesOnlyTo(before, s, ids)
  {
    hide RingOf, Owner, Itoa;
    forall h: HashKey
      ensures StaysOrMovesTo(before, s, ids, h)
    {
      OwnerIsServer(digest, s, ids, h);
    }
  }

  lemma RingOfOneMore(digest: Hash, s: RingState, ids: set<I64>, id: I64)
    requires RingOf(digest, s, ids)
    ensures RingOf(digest, WithNode(digest, s, Itoa(id), 1), ids + {id})
    ensures MovesOnlyTo(s, WithNode(digest, s, Itoa(id), 1), {id})
  {
    hide Blocks, Ring, AllKeys, Sort, Owner, Points;
    var t := WithNode(digest, s, Itoa(id), 1);
    assert Names(ids + {id}) == Names(ids) + {Itoa(id)};
    if Itoa(id) in s.nodes {
      assert Itoa(id) in ToSet(s.nodes);
    } else {
      OperationsKeepWellBuilt(digest, s, Itoa(id), 1);
      UniformWithNode(digest, s, Itoa(id), 1);
      assert ToSet(s.nodes + [Itoa(id)]) == ToSet(s.nodes) + {Itoa(id)};
      forall h: HashKey
        ensures StaysOrMovesTo(s, t, {id}, h)
      {
        AddMovesOnlyToNew(digest, s, Itoa(id), 1, h);
      }
    }
  }

  /** An entry as it was made. When its server reports READY, the source overwrites the id with the reported one. */
  class IMSvr {
    const id: U16
    const addr: string

    constructor NewIMSvr(id: U16, addr: string)
      ensures this.id == id && this.addr == addr
    {
      this.id, this.addr := id, addr;
    }
  }

  /** A server and the entry that was made for it. */
  datatype Start = Start(id: I64, entry: IMSvr)

  function Ids(started: seq<Start>): set<I64> {
    set s | s in started :: s.id
  }

  /** Entries are kept under sixteen bits of the id: a later start takes over the entry of an earlier one. */
  function LastEntries(started: seq<Start>): map<U16, IMSvr> {
    if started == [] then map[]
    else var s := started[|started| - 1]; LastEntries(started[..|started| - 1])[ToU16(s.id) := s.entry]
  }

  /** Each server was started once, with an entry of its own that carries sixteen bits of its id. */
  predicate StartedOnce(started: seq<Start>) {
    && (forall i :: 0 <= i < |started| ==> started[i].entry.id == ToU16(started[i].id))
    && forall i, j :: 0 <= i < j < |started| ==> started[i].id != started[j].id && started[i].entry != started[j].entry
  }

  /** A server started after the i-th shares its sixteen bits. */
  predicate LaterTwin(started: seq<Start>, i: nat)
    requires i < |started|
  {
    exists j :: i < j < |started| && ToU16(started[j].id) == ToU16(started[i].id)
  }

  /** The added servers were started, in this order, at their listed addresses. */
  predicate StartsAs(before: seq<Start>, after: seq<Start>, added: seq<I64>, svrList: map<I64, string>) {
    && |after| == |before| + |added| && after[..|before|] == before
    && forall i :: 0 <= i < |added| ==>
         && added[i] in svrList && after[|before| + i].id == added[i]
         && after[|before| + i].entry.addr == svrList[added[i]]
  }

  lemma NoStarts(before: seq<Start>, svrList: map<I64, string>)
    ensures StartsAs(before, before, [], svrList)
  {
  }

  lemma OneMoreStarts(before: seq<Start>, after: seq<Start>, added: seq<I64>, svrList: map<I64, string>, s: Start)
    requires StartsAs(before, after, added, svrList) && s.id in svrList && s.entry.addr == svrList[s.id]
    ensures StartsAs(before, after + [s], added + [s.id], svrList)
  {
  }

  lemma StartOneMore(started: seq<Start>, s: Start)
    ensures Ids(started + [s]) == Ids(started) + {s.id}
    ensures LastEntries(started + [s]) == LastEntries(started)[ToU16(s.id) := s.entry]
  {
    hide ToU16;
    assert (started + [s])[..|started|] == started;
  }

  lemma StartKeepsOnce(started: seq<Start>, s: Start)
    requires StartedOnce(started) && s.id !in Ids(started) && s.entry.id == ToU16(s.id)
    requires forall i :: 0 <= i < |started| ==> started[i].entry != s.entry
    ensures StartedOnce(started + [s])
  {
    hide ToU16;
    assert forall i :: 0 <= i < |started| ==> started[i].id in Ids(started);
  }

  /** What is found under a server's id is the server's own entry exactly if no later start shares its sixteen bits;
      in any case it is an entry with those sixteen bits. */
  lemma {:induction false} OwnEntryIff(started: seq<Start>, i: nat)
    requires StartedOnce(started) && i < |started|
    ensures var key := ToU16(started[i].id);
            && key in LastEntries(started) && LastEntries(started)[key].id == key
            && (LastEntries(started)[key] == started[i].entry <==> !LaterTwin(started, i))
            && exists j :: i <= j < |started| && LastEntries(started)[key] == started[j].entry
  {
    hide ToU16;
    var last := |started| - 1;
    var init := started[..last];
    var key := ToU16(started[i].id);
    if ToU16(started[last].id) == key {
      assert LastEntries(started)[key] == started[last].entry;
    } else {
      OwnEntryIff(init, i);
      assert LaterTwin(started, i) <==> LaterTwin(init, i);
      var j :| i <= j < |init| && LastEntries(init)[key] == init[j].entry;
      assert LastEntries(started)[key] == started[j].entry;
    }
  }

  /** Servers 1 and 65537 share an entry, and the earlier one loses its own. */
  lemma TwinTakesEntry(a: IMSvr, b: IMSvr)
    requires a != b
    ensures LastEntries([Start(1, a), Start(0x1_0001, b)]) == map[1 := b]
  {
    var started := [Start(1, a), Start(0x1_0001, b)];
    assert started[..1] == [Start(1, a)] && started[..1][..0] == [];
    assert LastEntries(started[..1][..0]) == map[];
    assert LastEntries(started[..1]) == map[1 := a];
  }

  /** Accounts are hashed under different names, so nothing but the digest can bring two of them together. */
  lemma AccountsDiffer(a: I64, b: I64)
    requires a != b
    ensures Itoa(a) != Itoa(b)
  {
    if Itoa(a) == Itoa(b) {
      ItoaDiffers(a, b);
    }
  }

  class IMMgr {
    const digest: Hash
    var ims: map<I64, string>
    var imMap: map<U16, IMSvr>
    var hashRing: HashRing?
    ghost var started: seq<Start>

    constructor (digest: Hash)
      ensures this.digest == digest && Valid() && ims == map[]
    {
      this.digest := digest;
      ims, imMap, hashRing, started := map[], map[], null, [];
    }

    /** The ring exists once a server was found; its nodes, all of weight 1, are the servers' decimal ids. */
    ghost predicate RingValid()
      reads this, hashRing
    {
      && (hashRing == null <==> ims == map[])
      && (hashRing != null ==>
            hashRing.digest == digest && RingOf(digest, hashRing.State(), ims.Keys))
    }

    /** The entries are those of the last starts. */
    ghost predicate Registered()
      reads this`imMap, this`started
    {
      StartedOnce(started) && imMap == LastEntries(started)
    }

    ghost predicate Valid()
      reads this, hashRing
    {
      RingValid() && Registered() && Ids(started) == ims.Keys
    }

    /** The current ring; one without nodes while there is none. */
    ghost function Current(): RingState
      reads this, hashRing
    {
      if hashRing == null then RingState([], map[], map[], []) else hashRing.State()
    }

    /** Whenever a server was ever found, every account gets an entry with sixteen bits of the id of the server that it
        is routed to. It is that server's own entry exactly if no server started later shares those bits. */
    method GetIMByAccountID(accountID: I64) returns (im: IMSvr?)
      requires Valid()
      ensures im == null <==> ims == map[]
      ensures im != null ==> exists i: nat :: RoutedTo(accountID, i, im)
    {
      if hashRing == null {
        return null;
      }
      var sid, ok := hashRing.GetNode(Itoa(accountID));
      OwnerIsServer(digest, hashRing.State(), ims.Keys, KeyOf(digest, Itoa(accountID)));
      if !ok {
        return null;
      }
      var (imID, parsed) := Atoi(sid);
      ghost var id :| id in ims && sid == Itoa(id);
      AtoiOfItoa(id);
      hide RingOf, Itoa, Atoi, Owner, ToU16, LastEntries, LaterTwin;
      assert id in Ids(started);
      ghost var i :| 0 <= i < |started| && started[i].id == id;
      OwnEntryIff(started, i);
      im := if ToU16(imID) in imMap then imMap[ToU16(imID)] else null;
      assert RoutedTo(accountID, i, im);
    }

    /** The account is routed to the i-th server, and im is what is kept under the sixteen bits of its id. */
    ghost predicate RoutedTo(accountID: I64, i: nat, im: IMSvr)
      reads this, hashRing
    {
      && i < |started| && Owner(Current().ring, KeyOf(digest, Itoa(accountID))) == Some(Itoa(started[i].id))
      && im.id == ToU16(started[i].id)
      && (im == started[i].entry <==> !LaterTwin(started, i))
    }

    /** One refresh with the servers read from the cache: unknown ones get an entry and a place on the ring.
        Every key keeps its server or moves to one found in this refresh. */
    method RefreshIMSvrList(newSvrlist: map<I64, string>)
      requires Valid()
      modifies this
      ensures Valid() && ims.Keys == old(ims.Keys) + newSvrlist.Keys
      ensures MovesOnlyTo(old(Current()), Current(), newSvrlist.Keys - old(ims.Keys))
      ensures exists added ::
                && Lists(added, newSvrlist.Keys - old(ims.Keys))
                && StartsAs(old(started), started, added, newSvrlist)
    {
      hide RingOf, MovesOnlyTo, Registered, StartsAs;
      var addNodes := StartServers(newSvrlist);
      assert ToSet(addNodes) == newSvrlist.Keys - ims.Keys && Current() == old(Current());
      if |addNodes| == 0 {
        NothingLeft(newSvrlist.Keys, ims.Keys);
        Unmoved();
        return;
      }
      if hashRing == null {
        CreateRing(addNodes);
      } else {
        ExtendRing(addNodes);
      }
    }

    static lemma NothingLeft(a: set<I64>, b: set<I64>)
      requires a - b == {}
      ensures b == b + a
    {
      assert forall x :: x in a && x !in b ==> x in a - b;
    }

    lemma Unmoved()
      ensures MovesOnlyTo(Current(), Current(), {})
    {
    }

    method StartServer(sid: I64, addr: string) returns (im: IMSvr)
      requires Registered() && sid !in Ids(started)
      modifies this`imMap, this`started
      ensures Registered() && started == old(started) + [Start(sid, im)] && im.addr == addr
      ensures Ids(started) == old(Ids(started)) + {sid}
    {
      im := new IMSvr.NewIMSvr(ToU16(sid), addr);
      StartOneMore(started, Start(sid, im));
      StartKeepsOnce(started, Start(sid, im));
      hide ToU16, LastEntries, StartedOnce, Ids;
      imMap := imMap[ToU16(sid) := im];
      started := started + [Start(sid, im)];
    }

    /** Starts a client for every unknown server, at its listed address; the ids start in no particular order. */
    method StartServers(newSvrlist: map<I64, string>) returns (addNodes: seq<I64>)
      requires Registered() && Ids(started) == ims.Keys
      modifies this`imMap, this`started
      ensures Lists(addNodes, newSvrlist.Keys - ims.Keys)
      ensures Registered() && Ids(started) == ims.Keys + ToSet(addNodes)
      ensures StartsAs(old(started), started, addNodes, newSvrlist)
    {
      hide ToU16, Lists, Registered, StartsAs;
      NoStarts(started, newSvrlist);
      ghost var known := ims.Keys;
      var rest := newSvrlist.Keys;
      addNodes := [];
      StartNone(newSvrlist.Keys, known);
      while rest != {}
        invariant rest <= newSvrlist.Keys && known == ims.Keys
        invariant Lists(addNodes, newSvrlist.Keys - rest - known)
        invariant Registered() && Ids(started) == ims.Keys + ToSet(addNodes)
        invariant StartsAs(old(started), started, addNodes, newSvrlist)
        decreases rest
      {
        var sid :| sid in rest;
        StartNext(addNodes, newSvrlist.Keys, rest, known, sid);
        if sid !in ims {
          ghost var before := started;
          var im := StartServer(sid, newSvrlist[sid]);
          OneMoreStarts(old(started), before, addNodes, newSvrlist, Start(sid, im));
          addNodes := addNodes + [sid];
        }
        rest := rest - {sid};
      }
      assert newSvrlist.Keys - {} - known == newSvrlist.Keys - known;
    }

    static lemma StartNone(keys: set<I64>, known: set<I64>)
      ensures Lists([], keys - keys - known)
    {
    }

    static lemma StartNext(added: seq<I64>, keys: set<I64>, rest: set<I64>, known: set<I64>, sid: I64)
      requires Lists(added, keys - rest - known) && rest <= keys && sid in rest
      ensures Lists(if sid in known then added else added + [sid], keys - (rest - {sid}) - known)
      ensures sid !in ToSet(added) && ToSet(added + [sid]) == ToSet(added) + {sid}
    {
      assert keys - (rest - {sid}) - known == keys - rest - known + if sid in known then {} else {sid};
      if sid !in known {
        ListsSnoc(added, keys - rest - known, sid);
      }
    }

    /** The first servers found make the ring; Go ranges over them in no particular order. */
    method CreateRing(addNodes: seq<I64>)
      requires addNodes != [] && ims == map[]
      modifies this`ims, this`hashRing
      ensures RingValid() && ims.Keys == ToSet(addNodes)
      ensures MovesOnlyTo(old(Current()), Current(), ToSet(addNodes))
    {
      hide WellBuilt, RingOf, Names, Build, ToU16, Itoa, MovesOnlyTo, Lists;
      var sNodes := RecordServers(addNodes);
      assert addNodes[0] in ToSet(addNodes);
      hashRing := new HashRing.NewHashringWithWeights(digest, sNodes);
      BuildRecords(digest, hashRing.nodes, sNodes);
      RingOfUnitWeights(digest, hashRing.State(), ims.Keys);
      FirstRingMoves(digest, old(Current()), Current(), ims.Keys);
    }

    static lemma BuildRecords(digest: Hash, nodes: seq<string>, weights: map<string, int>)
      ensures Build(digest, nodes, weights).nodes == nodes && Build(digest, nodes, weights).weights == weights
    {
    }

    method RecordServers(addNodes: seq<I64>) returns (sNodes: map<string, int>)
      requires ims == map[]
      modifies this`ims
      ensures ims.Keys == ToSet(addNodes) && sNodes.Keys == Names(ToSet(addNodes))
      ensures forall n :: n in sNodes ==> sNodes[n] == 1
    {
      hide Itoa;
      sNodes := map[];
      for i := 0 to |addNodes|
        invariant ims.Keys == ToSet(addNodes[..i]) && sNodes.Keys == Names(ToSet(addNodes[..i]))
        invariant forall n :: n in sNodes ==> sNodes[n] == 1
      {
        NamesSnoc(addNodes, i);
        sNodes := sNodes[Itoa(addNodes[i]) := 1];
        ims := ims[addNodes[i] := ""];
      }
      assert addNodes[..|addNodes|] == addNodes;
    }

    static lemma NamesSnoc(ids: seq<I64>, i: nat)
      requires i < |ids|
      ensures ToSet(ids[..i + 1]) == ToSet(ids[..i]) + {ids[i]}
      ensures Names(ToSet(ids[..i + 1])) == Names(ToSet(ids[..i])) + {Itoa(ids[i])}
    {
      assert ids[..i + 1] == ids[..i] + [ids[i]];
    }

    /** Later servers join the ring one by one. */
    method ExtendRing(addNodes: seq<I64>)
      requires RingValid() && hashRing != null
      modifies this`ims, this`hashRing
      ensures RingValid() && hashRing != null && ims.Keys == old(ims.Keys) + ToSet(addNodes)
      ensures MovesOnlyTo(old(Current()), Current(), ToSet(addNodes))
    {
      ghost var before := Current();
      Unmoved();
      assert ToSet(addNodes[..0]) == {};
      hide ToU16, Itoa, WellBuilt, MovesOnlyTo, Names, Uniform, RingOf;
      for i := 0 to |addNodes|
        invariant RingValid() && hashRing != null
        invariant ims.Keys == old(ims.Keys) + ToSet(addNodes[..i])
        invariant MovesOnlyTo(before, Current(), ToSet(addNodes[..i]))
      {
        ghost var current := Current();
        AddServer(addNodes[i]);
        NamesSnoc(addNodes, i);
        MovesChain(before, current, Current(), ToSet(addNodes[..i]), {addNodes[i]}, ToSet(addNodes[..i + 1]));
      }
      assert addNodes[..|addNodes|] == addNodes;
    }

    method AddServer(id: I64)
      requires RingValid() && hashRing != null
      modifies this`ims, this`hashRing
      ensures RingValid() && hashRing != null && ims.Keys == old(ims.Keys) + {id}
      ensures MovesOnlyTo(old(Current()), Current(), {id})
    {
      hide ToU16, Itoa, Blocks, Ring, AllKeys, Sort, MovesOnlyTo, Names, Uniform;
      RingOfOneMore(digest, hashRing.State(), ims.Keys, id);
      hashRing := hashRing.AddNode(Itoa(id));
      ims := ims[id := ""];
      assert id in ims && ims.Keys == old(ims.Keys) + {id};
    }

    /** The gate's ticker: any number of refreshes, each with whatever the cache then lists. */
    method RunRefreshes(lists: seq<map<I64, string>>)
      requires Valid()
      modifies this
      ensures Valid() && ims.Keys == old(ims.Keys) + Found(lists)
      ensures MovesOnlyTo(old(Current()), Current(), Found(lists) - old(ims.Keys))
    {
      ghost var ids, start := ims.Keys, Current();
      Unmoved();
      assert Found(lists[..0]) - ids == {};
      hide RingOf, MovesOnlyTo, Found, Current, Names, ToU16;
      for i := 0 to |lists|
        invariant Valid() && ims.Keys == ids + Found(lists[..i])
        invariant MovesOnlyTo(start, Current(), Found(lists[..i]) - ids)
      {
        FoundNext(lists, i, ids);
        ghost var middle, known := Current(), ims.Keys;
        RefreshIMSvrList(lists[i]);
        MovesChain(start, middle, Current(), Found(lists[..i]) - ids, lists[i].Keys - known,
            Found(lists[..i + 1]) - ids);
      }
      assert lists[..|lists|] == lists;
    }
  }

  /** All servers that appear in any of the lists. */
  function Found(lists: seq<map<I64, string>>): set<I64> {
    if lists == [] then {} else Found(lists[..|lists| - 1]) + lists[|lists| - 1].Keys
  }

  lemma FoundNext(lists: seq<map<I64, string>>, i: nat, ids: set<I64>)
    requires i < |lists|
    ensures ids + Found(lists[..i]) + lists[i].Keys == ids + Found(lists[..i + 1])
    ensures (Found(lists[..i]) - ids) + (lists[i].Keys - (ids + Found(lists[..i]))) <= Found(lists[..i + 1]) - ids
  {
    assert lists[..i + 1][..i] == lists[..i];
  }

  lemma MovesChain(a: RingState, b: RingState, c: RingState, ids: set<I64>, more: set<I64>, all: set<I64>)
    requires MovesOnlyTo(a, b, ids)
    requires MovesOnlyTo(b, c, more)
    requires ids + more <= all
    ensures MovesOnlyTo(a, c, all)
  {
    hide Owner;
    forall h: HashKey
      ensures StaysOrMovesTo(a, c, all, h)
    {
      assert StaysOrMovesTo(a, b, ids, h) && StaysOrMovesTo(b, c, more, h);
    }
  }
}
