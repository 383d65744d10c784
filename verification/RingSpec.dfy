/**
 The consistent hash ring, as a function of its node list and weights.

 A ring is built block by block: each node contributes the keys of its virtual points, and a later
 block overwrites the owner of a key that an earlier block already claimed. The digest (MD5 in the
 source) is a parameter of everything here; nothing is assumed about it, so two points may collide.
 */
module RingSpec {
  import opened Bytes
  import opened Numerals
  import opened Options
  import opened Sequences

  type Digest = d: seq<Byte> | |d| == 16 witness seq(16, _ => 0)
  type Hash = string -> Digest

  /** The owner of some virtual points and the ring keys of those points. */
  datatype Block = Block(node: string, keys: seq<HashKey>)

  const BASE: nat := 40

  /** Four digest bytes, least significant first; shifting and or-ing them adds them up. */
  function HashVal(b: seq<Byte>): HashKey
    requires |b| == 4
  {
    (b[3] as int * 0x100_0000 + b[2] as int * 0x1_0000 + b[1] as int * 0x100 + b[0] as int) as HashKey
  }

  function KeyOf(digest: Hash, s: string): HashKey {
    HashVal(digest(s)[0..4])
  }

  // ---- Virtual points of one node ----

  function PointName(node: string, j: nat): string {
    node + "-" + Itoa(j)
  }

  /** The i-th of the three ring keys of virtual point j. */
  function PointKey(digest: Hash, node: string, j: nat, i: nat): HashKey
    requires i < 3
  {
    HashVal(digest(PointName(node, j))[i * 4..i * 4 + 4])
  }

  function PointKeys(digest: Hash, node: string, j: nat, n: nat): (r: seq<HashKey>)
    requires n <= 3
    ensures |r| == n
  {
    if n == 0 then [] else PointKeys(digest, node, j, n - 1) + [PointKey(digest, node, j, n - 1)]
  }

  function Points(digest: Hash, node: string, factor: nat): (r: seq<HashKey>)
    ensures |r| == 3 * factor
  {
    if factor == 0 then [] else Points(digest, node, factor - 1) + PointKeys(digest, node, factor - 1, 3)
  }

  // ---- Shares of the nodes ----

  function Weight(weights: map<string, int>, node: string): int {
    if node in weights then weights[node] else 1
  }

  predicate Positive(weights: map<string, int>) {
    forall node :: node in weights ==> 0 < weights[node]
  }

  function TotalWeight(nodes: seq<string>, weights: map<string, int>): (w: int)
    ensures Positive(weights) ==> |nodes| <= w
  {
    if nodes == [] then 0 else TotalWeight(nodes[..|nodes| - 1], weights) + Weight(weights, nodes[|nodes| - 1])
  }

  /** The floor of a quotient as a loop bound: nothing below zero. A quotient by zero is an infinity or no number,
      whose conversion to an integer is taken to be the least integer. */
  function Share(a: int, b: int): nat {
    var floor := if b == 0 then 0 else if b > 0 then a / b else -a / -b;
    if floor < 0 then 0 else floor
  }

  /** How many virtual points a node gets: its share of 40 per node, rounded down. */
  function Factor(nodes: seq<string>, weights: map<string, int>, node: string): nat {
    Share(BASE * |nodes| * Weight(weights, node), TotalWeight(nodes, weights))
  }

  function Blocks(digest: Hash, nodes: seq<string>, weights: map<string, int>): (bs: seq<Block>)
    ensures |bs| == |nodes|
  {
    seq(|nodes|, i requires 0 <= i < |nodes| =>
      Block(nodes[i], Points(digest, nodes[i], Factor(nodes, weights, nodes[i]))))
  }

  // ---- The ring of a block list ----

  function Claim(ring: map<HashKey, string>, keys: seq<HashKey>, node: string): map<HashKey, string> {
    ring + (map k | k in keys :: node)
  }

  function Ring(bs: seq<Block>): map<HashKey, string> {
    if bs == [] then map[] else Claim(Ring(bs[..|bs| - 1]), bs[|bs| - 1].keys, bs[|bs| - 1].node)
  }

  function AllKeys(bs: seq<Block>): seq<HashKey> {
    if bs == [] then [] else AllKeys(bs[..|bs| - 1]) + bs[|bs| - 1].keys
  }

  /** Block i is the last one that generates k. */
  predicate LastGenerator(bs: seq<Block>, k: HashKey, i: nat) {
    i < |bs| && k in bs[i].keys && forall j :: i < j < |bs| ==> k !in bs[j].keys
  }

  /** Exactly the generated keys are on the ring, each owned by the node that generated it last. */
  lemma {:induction false} RingOwner(bs: seq<Block>, k: HashKey)
    ensures k in Ring(bs) <==> k in AllKeys(bs)
    ensures k in Ring(bs) <==> exists i: nat :: LastGenerator(bs, k, i)
    ensures forall i: nat :: LastGenerator(bs, k, i) ==> k in Ring(bs) && Ring(bs)[k] == bs[i].node
  {
    if bs != [] {
      var last := |bs| - 1;
      RingOwner(bs[..last], k);
      if k in bs[last].keys {
        assert LastGenerator(bs, k, last);
      } else {
        forall i: nat ensures LastGenerator(bs, k, i) <==> LastGenerator(bs[..last], k, i) {
        }
      }
    }
  }

  lemma RingKeys(bs: seq<Block>)
    ensures Ring(bs).Keys == ToSet(AllKeys(bs))
    ensures Ring(bs).Keys == ToSet(Sort(AllKeys(bs)))
  {
    forall k: HashKey {
      RingOwner(bs, k);
    }
    SameMembers(Sort(AllKeys(bs)), AllKeys(bs));
  }

  // ---- Whole rings and the operations on them ----

  datatype RingState = RingState(nodes: seq<string>, weights: map<string, int>,
                                 ring: map<HashKey, string>, sortedKeys: seq<HashKey>)

  function Build(digest: Hash, nodes: seq<string>, weights: map<string, int>): RingState
  {
    var bs := Blocks(digest, nodes, weights);
    RingState(nodes, weights, Ring(bs), Sort(AllKeys(bs)))
  }

  /** What every constructor and updater maintains. */
  predicate WellBuilt(digest: Hash, s: RingState) {
    s.weights.Keys <= ToSet(s.nodes) && s == Build(digest, s.nodes, s.weights)
  }

  /** Only a new node with a positive weight changes the ring. */
  function WithNode(digest: Hash, s: RingState, node: string, weight: int): RingState
  {
    if weight <= 0 || node in s.nodes then s
    else Build(digest, s.nodes + [node], s.weights[node := weight])
  }

  /** Only a known weight that really changes, to a positive one, changes the ring. */
  function Reweighted(digest: Hash, s: RingState, node: string, weight: int): RingState
  {
    if weight <= 0 || node !in s.weights || s.weights[node] == weight then s
    else Build(digest, s.nodes, s.weights[node := weight])
  }

  function WithoutNode(digest: Hash, s: RingState, node: string): RingState
  {
    if node !in s.nodes then s
    else Build(digest, Drop(s.nodes, {node}), s.weights - {node})
  }

  // ---- Lookup ----

  /** p is the first key of the circle strictly clockwise of h; a full turn leads back to the least key. */
  predicate IsNext(keys: set<HashKey>, h: HashKey, p: HashKey) {
    && p in keys
    && if h < p then forall q :: q in keys ==> q <= h || p <= q
       else forall q :: q in keys ==> p <= q <= h
  }

  lemma {:induction false} NextExists(keys: set<HashKey>, h: HashKey)
    requires keys != {}
    ensures exists p :: IsNext(keys, h, p)
  {
    var k :| k in keys;
    var rest := keys - {k};
    if rest == {} {
      assert keys == {k};
      assert IsNext(keys, h, k);
    } else {
      NextExists(rest, h);
      var p :| IsNext(rest, h, p);
      assert forall q :: q in keys ==> q == k || q in rest;
      assert IsNext(keys, h, p) || IsNext(keys, h, k);
    }
  }

  ghost function Next(keys: set<HashKey>, h: HashKey): (p: HashKey)
    requires keys != {}
    ensures IsNext(keys, h, p)
  {
    NextExists(keys, h);
    var p :| IsNext(keys, h, p);
    p
  }

  /** The owner of key h: whoever owns the first point clockwise of it. */
  ghost function Owner(ring: map<HashKey, string>, h: HashKey): Option<string> {
    if ring.Keys == {} then None else Some(ring[Next(ring.Keys, h)])
  }

  /** The sorted keys as met on a full clockwise turn from h. */
  function Clockwise(keys: seq<HashKey>, h: HashKey): (r: seq<HashKey>)
    requires Ascending(keys)
    ensures |r| == |keys|
    ensures forall k :: k in r <==> k in keys
  {
    var a := Above(keys, h);
    assert keys == keys[..a] + keys[a..];
    keys[a..] + keys[..a]
  }

  function OwnerSeq(ring: map<HashKey, string>, keys: seq<HashKey>): (r: seq<string>)
    requires forall k :: k in keys ==> k in ring
    ensures |r| == |keys|
  {
    seq(|keys|, i requires 0 <= i < |keys| => ring[keys[i]])
  }

  /** The key sequence a walk from h meets: every key of the ring, sorted, repetitions included. */
  function Turn(bs: seq<Block>, h: HashKey): (r: seq<HashKey>)
    ensures forall k :: k in r <==> k in Ring(bs)
  {
    var r := Clockwise(Sort(AllKeys(bs)), h);
    RingKeys(bs);
    assert forall k :: k in r ==> k in ToSet(Sort(AllKeys(bs)));
    r
  }

  /** All owners on the ring, in the order in which a clockwise walk from h first meets them. */
  function Walk(bs: seq<Block>, h: HashKey): seq<string> {
    Distinct(OwnerSeq(Ring(bs), Turn(bs, h)))
  }

  /** The binary search position followed by the wrap-around finds the clockwise next key. */
  lemma ClockwiseFirst(keys: seq<HashKey>, h: HashKey)
    requires Ascending(keys) && keys != []
    ensures IsNext(ToSet(keys), h, Clockwise(keys, h)[0])
  {
    var a := Above(keys, h);
    var p := Clockwise(keys, h)[0];
    assert p == if a < |keys| then keys[a] else keys[0];
    assert p in keys;
  }

  lemma NextUnique(keys: set<HashKey>, h: HashKey, p: HashKey, q: HashKey)
    requires IsNext(keys, h, p) && IsNext(keys, h, q)
    ensures p == q
  {
  }

  lemma TurnFirst(bs: seq<Block>, h: HashKey)
    requires Ring(bs).Keys != {}
    ensures Turn(bs, h) != [] && Turn(bs, h)[0] == Next(Ring(bs).Keys, h)
  {
    RingKeys(bs);
    var keys := Sort(AllKeys(bs));
    ClockwiseFirst(keys, h);
    NextUnique(Ring(bs).Keys, h, Turn(bs, h)[0], Next(Ring(bs).Keys, h));
  }

  /** The walk starts with the owner of h. */
  lemma WalkFirst(bs: seq<Block>, h: HashKey)
    requires Ring(bs).Keys != {}
    ensures Walk(bs, h) != [] && Some(Walk(bs, h)[0]) == Owner(Ring(bs), h)
  {
    TurnFirst(bs, h);
    var owners := OwnerSeq(Ring(bs), Turn(bs, h));
    DistinctGrows(owners, 1);
    assert Distinct(owners[..1]) == [owners[0]] by {
      assert owners[..1][..0] == [];
      assert Distinct(owners[..1][..0]) == [];
    }
  }

  /** The walk lists every owner on the ring exactly once. */
  lemma WalkLists(bs: seq<Block>, h: HashKey)
    ensures Lists(Walk(bs, h), Ring(bs).Values)
  {
    hide Ring, AllKeys, Sort;
    var ring, turn := Ring(bs), Turn(bs, h);
    var owners := OwnerSeq(ring, turn);
    forall n ensures n in Walk(bs, h) <==> n in ring.Values {
      if n in ring.Values {
        var k :| k in ring && ring[k] == n;
        var i :| 0 <= i < |turn| && turn[i] == k;
        assert owners[i] == n;
      }
      if n in owners {
        var i :| 0 <= i < |owners| && owners[i] == n;
        assert turn[i] in turn;
      }
    }
  }

  /** How far a walk from h goes clockwise until it reaches k. */
  function Distance(h: HashKey, k: HashKey): nat {
    if h < k then k as int - h as int else k as int - h as int + 0x1_0000_0000
  }

  lemma ClockwiseByDistance(keys: seq<HashKey>, h: HashKey, i: nat, j: nat)
    requires Ascending(keys) && i <= j < |keys|
    ensures Distance(h, Clockwise(keys, h)[i]) <= Distance(h, Clockwise(keys, h)[j])
  {
    var above := |keys| - Above(keys, h);
    var r := Clockwise(keys, h);
    if j < above {
      assert r[i] == keys[i + |keys| - above] && r[j] == keys[j + |keys| - above];
    } else if i < above {
      assert h < r[i] && r[j] == keys[j - above] <= h;
    } else {
      assert r[i] == keys[i - above] && r[j] == keys[j - above];
    }
  }

  /** A walk from h reaches point p before every point of node n. */
  ghost predicate BeforeAll(bs: seq<Block>, h: HashKey, p: HashKey, n: string) {
    forall q: HashKey :: q in Ring(bs) && Ring(bs)[q] == n ==> Distance(h, p) < Distance(h, q)
  }

  lemma TurnBefore(bs: seq<Block>, h: HashKey, t: nat, q: HashKey)
    requires t < |Turn(bs, h)| && q in Turn(bs, h)
    requires forall u :: 0 <= u <= t ==> Turn(bs, h)[u] != q
    ensures Distance(h, Turn(bs, h)[t]) < Distance(h, q)
  {
    var u :| 0 <= u < |Turn(bs, h)| && Turn(bs, h)[u] == q;
    ClockwiseByDistance(Sort(AllKeys(bs)), h, t, u);
  }

  lemma TurnBeforeAll(bs: seq<Block>, h: HashKey, t: nat, n: string)
    requires t < |Turn(bs, h)|
    requires forall u :: 0 <= u <= t ==> OwnerSeq(Ring(bs), Turn(bs, h))[u] != n
    ensures BeforeAll(bs, h, Turn(bs, h)[t], n)
  {
    hide Distance;
    var ring, turn := Ring(bs), Turn(bs, h);
    forall q: HashKey | q in ring && ring[q] == n
      ensures Distance(h, turn[t]) < Distance(h, q)
    {
      forall u | 0 <= u <= t
        ensures turn[u] != q
      {
        assert OwnerSeq(ring, turn)[u] == ring[turn[u]];
      }
      TurnBefore(bs, h, t, q);
    }
  }

  /** Clockwise order: some point of an earlier owner lies strictly nearer than every point of a later one. */
  lemma WalkOrder(bs: seq<Block>, h: HashKey, i: nat, j: nat)
    requires i < j < |Walk(bs, h)|
    ensures exists p: HashKey :: p in Ring(bs) && Ring(bs)[p] == Walk(bs, h)[i] && BeforeAll(bs, h, p, Walk(bs, h)[j])
  {
    var turn := Turn(bs, h);
    var t := DistinctOrder(OwnerSeq(Ring(bs), turn), i, j);
    TurnBeforeAll(bs, h, t, Walk(bs, h)[j]);
    assert turn[t] in turn;
  }
}
