/** The virtual points themselves: their names are different, their keys take different bytes of the digest, and as long
    as no two of them collide each node owns exactly its share of the ring. */
module RingPoints {
  import opened Bytes
  import opened Numerals
  import opened Options
  import opened Sequences
  import opened RingSpec
  import opened RingTheorems

  // ---- Names and keys of points ----

  /** Different virtual points have different names, over all nodes: the last '-' parts the node from the number. */
  lemma PointNamesDiffer(n: string, i: nat, m: string, j: nat)
    requires PointName(n, i) == PointName(m, j)
    ensures n == m && i == j
  {
    hide Digits, ParseUint;
    NoDash(i);
    NoDash(j);
    LastDash(n, Digits(i, 10), m, Digits(j, 10));
    ParseDigits(i, 10, i + j + 1);
    ParseDigits(j, 10, i + j + 1);
  }

  lemma NoDash(i: nat)
    ensures '-' !in Digits(i, 10) && Itoa(i) == Digits(i, 10)
  {
  }

  lemma LastDash(n: string, a: string, m: string, b: string)
    requires n + "-" + a == m + "-" + b && '-' !in a && '-' !in b
    ensures n == m && a == b
  {
    DashAtMost(n, a, m, b);
    DashAtMost(m, b, n, a);
    var name := n + "-" + a;
    assert n == name[..|n|] && m == (m + "-" + b)[..|n|];
    assert a == name[|n| + 1..] && b == (m + "-" + b)[|n| + 1..];
  }

  lemma DashAtMost(n: string, a: string, m: string, b: string)
    requires n + "-" + a == m + "-" + b && '-' !in a
    ensures |m| <= |n|
  {
    var name := n + "-" + a;
    assert forall k :: |n| < k < |name| ==> name[k] in a;
    assert (m + "-" + b)[|m|] == '-';
  }

  /** A key is read least byte first, and no two different groups of four bytes give the same key. */
  lemma HashValBytes(b: seq<Byte>)
    requires |b| == 4
    ensures var k := HashVal(b) as int;
            && k % 0x100 == b[0] && k / 0x100 % 0x100 == b[1]
            && k / 0x1_0000 % 0x100 == b[2] && k / 0x100_0000 == b[3]
  {
    var k := HashVal(b) as int;
    var high := b[3] as int * 0x100 + b[2];
    var middle := high * 0x100 + b[1];
    assert k == middle * 0x100 + b[0];
    assert k / 0x100 == middle && middle / 0x100 == high;
    assert k / 0x1_0000 == k / 0x100 / 0x100;
    assert k / 0x100_0000 == k / 0x1_0000 / 0x100;
  }

  lemma HashValsDiffer(a: seq<Byte>, b: seq<Byte>)
    requires |a| == |b| == 4 && HashVal(a) == HashVal(b)
    ensures a == b
  {
    HashValBytes(a);
    HashValBytes(b);
    assert forall i :: 0 <= i < 4 ==> a[i] == b[i];
  }

  /** The three keys of a point take the first twelve bytes of its digest, four each. */
  lemma PointKeysIff(digest: Hash, n: string, i: nat, m: string, j: nat)
    ensures (PointKey(digest, n, i, 0) == PointKey(digest, m, j, 0)
             && PointKey(digest, n, i, 1) == PointKey(digest, m, j, 1)
             && PointKey(digest, n, i, 2) == PointKey(digest, m, j, 2))
            <==> digest(PointName(n, i))[..12] == digest(PointName(m, j))[..12]
  {
    var a, b := digest(PointName(n, i)), digest(PointName(m, j));
    hide HashVal, PointName;
    assert a[..12] == a[0..4] + a[4..8] + a[8..12];
    assert b[..12] == b[0..4] + b[4..8] + b[8..12];
    if PointKey(digest, n, i, 0) == PointKey(digest, m, j, 0)
       && PointKey(digest, n, i, 1) == PointKey(digest, m, j, 1)
       && PointKey(digest, n, i, 2) == PointKey(digest, m, j, 2) {
      HashValsDiffer(a[0..4], b[0..4]);
      HashValsDiffer(a[4..8], b[4..8]);
      HashValsDiffer(a[8..12], b[8..12]);
    }
    if a[..12] == b[..12] {
      assert a[0..4] == a[..12][0..4] && a[4..8] == a[..12][4..8] && a[8..12] == a[..12][8..12];
      assert b[0..4] == b[..12][0..4] && b[4..8] == b[..12][4..8] && b[8..12] == b[..12][8..12];
    }
  }

  /** A lookup under the name of a point hashes to the first key of that point. */
  lemma KeyOfPoint(digest: Hash, n: string, j: nat)
    ensures KeyOf(digest, PointName(n, j)) == PointKey(digest, n, j, 0)
  {
  }

  /** Lookup is strict: a key that hashes to a point is not owned by that point but by the next one, unless there is no
      other. */
  lemma NextIsStrict(keys: set<HashKey>, h: HashKey, other: HashKey)
    requires other in keys && other != h
    ensures Next(keys, h) != h
  {
  }

  // ---- Shares of the ring ----

  /** No key is generated twice under different names, or at two places of one digest. */
  predicate NoCollision(digest: Hash, nodes: seq<string>, weights: map<string, int>) {
    forall n, m, j: nat, k: nat, i: nat, l: nat ::
      n in nodes && m in nodes && j < Factor(nodes, weights, n) && k < Factor(nodes, weights, m) && i < 3 && l < 3
      && PointKey(digest, n, j, i) == PointKey(digest, m, k, l) ==>
        PointName(n, j) == PointName(m, k) && i == l
  }

  predicate GeneratesAt(digest: Hash, node: string, j: nat, i: nat, key: HashKey) {
    i < 3 && key == PointKey(digest, node, j, i)
  }

  lemma {:induction false} PlaceOf(digest: Hash, node: string, j: nat, n: nat, key: HashKey) returns (i: nat)
    requires n <= 3 && key in PointKeys(digest, node, j, n)
    ensures i < n && GeneratesAt(digest, node, j, i, key)
  {
    if key == PointKey(digest, node, j, n - 1) {
      i := n - 1;
    } else {
      i := PlaceOf(digest, node, j, n - 1, key);
    }
  }

  /** Which point of a node, and which place of its digest, generates a key. */
  lemma {:induction false} PointOf(digest: Hash, node: string, factor: nat, key: HashKey) returns (j: nat, i: nat)
    requires key in Points(digest, node, factor)
    ensures j < factor && GeneratesAt(digest, node, j, i, key)
  {
    hide PointKeys, PointKey;
    if key in PointKeys(digest, node, factor - 1, 3) {
      j := factor - 1;
      i := PlaceOf(digest, node, j, 3, key);
    } else {
      j, i := PointOf(digest, node, factor - 1, key);
    }
  }

  /** Without collisions a key determines its node. */
  lemma OneGenerator(digest: Hash, nodes: seq<string>, weights: map<string, int>, n: string, m: string, key: HashKey)
    requires NoCollision(digest, nodes, weights) && n in nodes && m in nodes
    requires key in Points(digest, n, Factor(nodes, weights, n)) && key in Points(digest, m, Factor(nodes, weights, m))
    ensures n == m
  {
    hide Factor, PointName, PointKey, Points;
    var j, i := PointOf(digest, n, Factor(nodes, weights, n), key);
    var k, l := PointOf(digest, m, Factor(nodes, weights, m), key);
    PointNamesDiffer(n, j, m, k);
  }

  lemma {:induction false} PointKeysAt(digest: Hash, node: string, j: nat, n: nat, i: nat)
    requires i < n <= 3
    ensures PointKeys(digest, node, j, n)[i] == PointKey(digest, node, j, i)
  {
    if i < n - 1 {
      PointKeysAt(digest, node, j, n - 1, i);
    }
  }

  lemma {:induction false} PointsDistinct(
    digest: Hash, nodes: seq<string>, weights: map<string, int>, n: string, f: nat)
    requires NoCollision(digest, nodes, weights) && n in nodes && f <= Factor(nodes, weights, n)
    ensures NoDuplicates(Points(digest, n, f))
  {
    if f > 0 {
      PointsDistinct(digest, nodes, weights, n, f - 1);
      var before, last := Points(digest, n, f - 1), PointKeys(digest, n, f - 1, 3);
      ThreeDistinct(digest, nodes, weights, n, f - 1);
      forall key | key in before
        ensures key !in last
      {
        NotAgain(digest, nodes, weights, n, f - 1, key);
      }
      hide Points, PointKeys, Factor, NoCollision;
      ConcatDistinct(before, last);
    }
  }

  lemma ConcatDistinct(a: seq<HashKey>, b: seq<HashKey>)
    requires NoDuplicates(a) && NoDuplicates(b) && forall k :: k in a ==> k !in b
    ensures NoDuplicates(a + b)
  {
    var all := a + b;
    forall i, j | 0 <= i < j < |all|
      ensures all[i] != all[j]
    {
      if i < |a| <= j {
        assert a[i] in a && b[j - |a|] in b;
      }
    }
  }

  lemma ThreeDistinct(digest: Hash, nodes: seq<string>, weights: map<string, int>, n: string, j: nat)
    requires NoCollision(digest, nodes, weights) && n in nodes && j < Factor(nodes, weights, n)
    ensures NoDuplicates(PointKeys(digest, n, j, 3))
  {
    PointKeysAt(digest, n, j, 3, 0);
    PointKeysAt(digest, n, j, 3, 1);
    PointKeysAt(digest, n, j, 3, 2);
    hide Factor, PointKey, PointKeys;
    assert PointKey(digest, n, j, 0) != PointKey(digest, n, j, 1);
    assert PointKey(digest, n, j, 0) != PointKey(digest, n, j, 2);
    assert PointKey(digest, n, j, 1) != PointKey(digest, n, j, 2);
  }

  lemma NotAgain(digest: Hash, nodes: seq<string>, weights: map<string, int>, n: string, f: nat, key: HashKey)
    requires NoCollision(digest, nodes, weights) && n in nodes && f < Factor(nodes, weights, n)
    requires key in Points(digest, n, f)
    ensures key !in PointKeys(digest, n, f, 3)
  {
    hide Factor, PointKey, PointKeys, PointName, Points;
    var j, i := PointOf(digest, n, f, key);
    if key in PointKeys(digest, n, f, 3) {
      var l := PlaceOf(digest, n, f, 3, key);
      PointNamesDiffer(n, j, n, f);
    }
  }

  /** The keys that a node owns. */
  function OwnedKeys(ring: map<HashKey, string>, node: string): set<HashKey> {
    set k | k in ring && ring[k] == node
  }

  lemma OwnsItsPoints(digest: Hash, nodes: seq<string>, weights: map<string, int>, i: nat)
    requires NoCollision(digest, nodes, weights) && NoDuplicates(nodes) && i < |nodes|
    ensures OwnedKeys(Ring(Blocks(digest, nodes, weights)), nodes[i])
            == ToSet(Points(digest, nodes[i], Factor(nodes, weights, nodes[i])))
  {
    var bs := Blocks(digest, nodes, weights);
    forall k: HashKey
      ensures k in OwnedKeys(Ring(bs), nodes[i]) <==> k in bs[i].keys
    {
      hide Ring, Factor, Points, NoCollision;
      if k in bs[i].keys {
        MineIsOwned(digest, nodes, weights, i, k);
      }
      if k in OwnedKeys(Ring(bs), nodes[i]) {
        OwnedIsMine(digest, nodes, weights, i, k);
      }
    }
  }

  lemma OwnedIsMine(digest: Hash, nodes: seq<string>, weights: map<string, int>, i: nat, k: HashKey)
    requires NoDuplicates(nodes) && i < |nodes|
    requires var ring := Ring(Blocks(digest, nodes, weights)); k in ring && ring[k] == nodes[i]
    ensures k in Blocks(digest, nodes, weights)[i].keys
  {
    var bs := Blocks(digest, nodes, weights);
    RingOwner(bs, k);
    hide Ring, Factor, Points;
    var j: nat :| LastGenerator(bs, k, j);
    assert bs[j].node == nodes[j];
  }

  lemma MineIsOwned(digest: Hash, nodes: seq<string>, weights: map<string, int>, i: nat, k: HashKey)
    requires NoCollision(digest, nodes, weights) && NoDuplicates(nodes) && i < |nodes|
    requires k in Blocks(digest, nodes, weights)[i].keys
    ensures var ring := Ring(Blocks(digest, nodes, weights)); k in ring && ring[k] == nodes[i]
  {
    var bs := Blocks(digest, nodes, weights);
    RingOwner(bs, k);
    hide Ring, Factor, Points, NoCollision;
    forall j | i < j < |bs|
      ensures k !in bs[j].keys
    {
      NotInTwo(digest, nodes, weights, i, j, k);
    }
    assert LastGenerator(bs, k, i);
  }

  lemma NotInTwo(digest: Hash, nodes: seq<string>, weights: map<string, int>, i: nat, j: nat, k: HashKey)
    requires NoCollision(digest, nodes, weights) && NoDuplicates(nodes) && i < j < |nodes|
    ensures var bs := Blocks(digest, nodes, weights); !(k in bs[i].keys && k in bs[j].keys)
  {
    hide Factor, Points, NoCollision;
    var bs := Blocks(digest, nodes, weights);
    if k in bs[i].keys && k in bs[j].keys {
      OneGenerator(digest, nodes, weights, nodes[i], nodes[j], k);
    }
  }

  lemma {:induction false} BlockOf(bs: seq<Block>, i: nat, k: HashKey) returns (j: nat)
    requires i <= |bs| && k in AllKeys(bs[..i])
    ensures j < i && k in bs[j].keys
  {
    assert bs[..i][..i - 1] == bs[..i - 1];
    if k in bs[i - 1].keys {
      j := i - 1;
    } else {
      j := BlockOf(bs, i - 1, k);
    }
  }

  lemma {:induction false} AllKeysDistinct(digest: Hash, nodes: seq<string>, weights: map<string, int>, i: nat)
    requires NoCollision(digest, nodes, weights) && NoDuplicates(nodes) && i <= |nodes|
    ensures NoDuplicates(AllKeys(Blocks(digest, nodes, weights)[..i]))
  {
    var bs := Blocks(digest, nodes, weights);
    if i > 0 {
      AllKeysDistinct(digest, nodes, weights, i - 1);
      assert bs[..i][..i - 1] == bs[..i - 1];
      var n := nodes[i - 1];
      PointsDistinct(digest, nodes, weights, n, Factor(nodes, weights, n));
      assert bs[i - 1].keys == Points(digest, n, Factor(nodes, weights, n));
      hide Blocks, Factor, Points, NoCollision;
      var before := AllKeys(bs[..i - 1]);
      forall k | k in before
        ensures k !in bs[i - 1].keys
      {
        var j := BlockOf(bs, i - 1, k);
        NotInTwo(digest, nodes, weights, j, i - 1, k);
      }
      ConcatDistinct(before, bs[i - 1].keys);
    }
  }

  /** Without collisions every node owns exactly three keys for each of its points, and the ring has no others. */
  lemma SharesOfRing(digest: Hash, nodes: seq<string>, weights: map<string, int>)
    requires NoCollision(digest, nodes, weights) && NoDuplicates(nodes)
    ensures var ring := Build(digest, nodes, weights).ring;
            && (forall n :: n in nodes ==> |OwnedKeys(ring, n)| == 3 * Factor(nodes, weights, n))
            && |ring.Keys| == |Build(digest, nodes, weights).sortedKeys| == 3 * FactorSum(nodes, weights, |nodes|)
  {
    var bs := Blocks(digest, nodes, weights);
    assert bs[..|nodes|] == bs;
    AllKeysDistinct(digest, nodes, weights, |nodes|);
    KeyCount(digest, nodes, weights, |nodes|);
    RingKeys(bs);
    ListsCount(AllKeys(bs), Ring(bs).Keys);
    hide Blocks, Factor, FactorSum, NoCollision, Ring, AllKeys;
    forall n | n in nodes
      ensures |OwnedKeys(Ring(bs), n)| == 3 * Factor(nodes, weights, n)
    {
      var i :| 0 <= i < |nodes| && nodes[i] == n;
      OwnsItsPoints(digest, nodes, weights, i);
      PointsDistinct(digest, nodes, weights, n, Factor(nodes, weights, n));
      ListsCount(Points(digest, n, Factor(nodes, weights, n)), OwnedKeys(Ring(bs), n));
    }
  }

  /** A uniform ring of n nodes has 120n keys then, 120 of them owned by each node. */
  lemma UniformSharesOfRing(digest: Hash, nodes: seq<string>, weights: map<string, int>, w: int)
    requires NoCollision(digest, nodes, weights) && NoDuplicates(nodes) && Uniform(nodes, weights, w)
    ensures var ring := Build(digest, nodes, weights).ring;
            |ring.Keys| == 120 * |nodes| && forall n :: n in nodes ==> |OwnedKeys(ring, n)| == 120
  {
    SharesOfRing(digest, nodes, weights);
    UniformTotal(nodes, weights, w);
    hide Build, NoCollision, TotalWeight;
    if nodes != [] {
      EqualShare(|nodes|, w);
      forall n | n in nodes
        ensures Factor(nodes, weights, n) == 40
      {
      }
    }
    UniformSum(nodes, weights, |nodes|);
  }

  lemma {:induction false} UniformSum(nodes: seq<string>, weights: map<string, int>, i: nat)
    requires i <= |nodes| && forall n :: n in nodes ==> Factor(nodes, weights, n) == 40
    ensures FactorSum(nodes, weights, i) == 40 * i
  {
    hide Factor;
    if i > 0 {
      UniformSum(nodes, weights, i - 1);
      assert nodes[i - 1] in nodes;
    }
  }

  /** A node's number of points is its weighted share of 40 points per node, rounded down. */
  lemma FactorIsShare(nodes: seq<string>, weights: map<string, int>, node: string)
    requires node in nodes && Positive(weights)
    ensures var w := if node in weights then weights[node] else 1;
            var total := TotalWeight(nodes, weights);
            Factor(nodes, weights, node) * total <= 40 * |nodes| * w < (Factor(nodes, weights, node) + 1) * total
  {
    var w, total := Weight(weights, node), TotalWeight(nodes, weights);
    MulMonotone(40 * |nodes|, 0, w);
    ShareBounds(40 * |nodes| * w, total);
    hide Share, TotalWeight;
    Distribute(total, Factor(nodes, weights, node), 1);
  }

  lemma {:induction false} TotalIsSum(nodes: seq<string>, weights: map<string, int>, node: string)
    ensures TotalWeight(nodes + [node], weights)
            == TotalWeight(nodes, weights) + (if node in weights then weights[node] else 1)
  {
    assert (nodes + [node])[..|nodes|] == nodes;
  }

  // ---- When the operations change anything ----

  /** Adding changes the ring exactly for an absent node and a positive weight, reweighting exactly for a recorded
      weight that differs from the positive new one, and removing exactly for a node that is there. */
  lemma ChangesIff(digest: Hash, s: RingState, node: string, weight: int)
    requires WellBuilt(digest, s)
    ensures WithNode(digest, s, node, weight) != s <==> node !in s.nodes && weight > 0
    ensures Reweighted(digest, s, node, weight) != s <==> node in s.weights && s.weights[node] != weight && weight > 0
    ensures WithoutNode(digest, s, node) != s <==> node in s.nodes
    ensures WithNode(digest, s, node, weight) != s ==>
              var t := WithNode(digest, s, node, weight);
              t.nodes == s.nodes + [node] && t.weights == s.weights[node := weight]
    ensures Reweighted(digest, s, node, weight) != s ==>
              var t := Reweighted(digest, s, node, weight);
              t.nodes == s.nodes && t.weights == s.weights[node := weight]
    ensures WithoutNode(digest, s, node) != s ==>
              var t := WithoutNode(digest, s, node);
              multiset(t.nodes) == multiset(s.nodes)[node := 0] && t.weights == s.weights - {node}
  {
    hide Blocks, Ring, AllKeys, Sort;
    if weight > 0 && node !in s.nodes {
      assert |WithNode(digest, s, node, weight).nodes| != |s.nodes|;
    }
    if node in s.weights && s.weights[node] != weight && weight > 0 {
      assert Reweighted(digest, s, node, weight).weights[node] != s.weights[node];
    }
    if node in s.nodes {
      DropLength(s.nodes, {node});
      forall x: string
        ensures multiset(Drop(s.nodes, {node}))[x] == multiset(s.nodes)[node := 0][x]
      {
        DropCount(s.nodes, {node}, x);
      }
    }
  }
}
