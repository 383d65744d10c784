/** What the hash ring is for: shares in proportion, few moved keys, stable replicas, exact rebuilds. */
module RingTheorems {
  import opened Bytes
  import opened Options
  import opened Sequences
  import opened RingSpec

  // ---- Every operation keeps the ring well built; undoing one restores it exactly ----

  lemma OperationsKeepWellBuilt(digest: Hash, s: RingState, node: string, weight: int)
    requires WellBuilt(digest, s)
    ensures WellBuilt(digest, WithNode(digest, s, node, weight))
    ensures WellBuilt(digest, Reweighted(digest, s, node, weight))
    ensures WellBuilt(digest, WithoutNode(digest, s, node))
  {
    hide Blocks, Ring, AllKeys, Sort;
    assert forall x :: x in s.nodes ==> x in s.nodes + [node];
    assert node in s.nodes + [node];
    assert ToSet(Drop(s.nodes, {node})) == ToSet(s.nodes) - {node};
  }

  /** Adding an absent node and removing it again restores nodes, weights, ring and sorted keys. */
  lemma AddRemoveRestores(digest: Hash, s: RingState, node: string, weight: int)
    requires WellBuilt(digest, s) && node !in s.nodes && 0 < weight
    ensures WithoutNode(digest, WithNode(digest, s, node, weight), node) == s
  {
    hide Blocks, Ring, AllKeys, Sort;
    OperationsKeepWellBuilt(digest, s, node, weight);
    assert Drop(s.nodes + [node], {node}) == s.nodes by {
      assert (s.nodes + [node])[..|s.nodes|] == s.nodes;
      DropLength(s.nodes, {node});
    }
    assert s.weights[node := weight] - {node} == s.weights;
  }

  /** Changing a weight and changing it back restores the ring, exactly if the old weight is one that can be set. */
  lemma ReweightRestores(digest: Hash, s: RingState, node: string, weight: int)
    requires WellBuilt(digest, s) && node in s.weights && 0 < weight
    ensures Reweighted(digest, Reweighted(digest, s, node, weight), node, s.weights[node]) == s <==> 0 < s.weights[node]
  {
    hide Blocks, Ring, AllKeys, Sort;
    OperationsKeepWellBuilt(digest, s, node, weight);
    assert s.weights[node := weight][node := s.weights[node]] == s.weights;
  }

  // ---- Number of points ----

  /** The factors of the first i nodes, added up. */
  function FactorSum(nodes: seq<string>, weights: map<string, int>, i: nat): nat
    requires i <= |nodes|
  {
    if i == 0 then 0 else FactorSum(nodes, weights, i - 1) + Factor(nodes, weights, nodes[i - 1])
  }

  lemma ShareBounds(a: int, b: int)
    requires 0 <= a && 0 < b
    ensures b * Share(a, b) <= a <= b * Share(a, b) + b - 1
  {
  }

  lemma {:induction false} FactorSumBounds(nodes: seq<string>, weights: map<string, int>, i: nat)
    requires nodes != [] && Positive(weights) && i <= |nodes|
    ensures TotalWeight(nodes, weights) * FactorSum(nodes, weights, i)
         <= BASE * |nodes| * TotalWeight(nodes[..i], weights)
    ensures BASE * |nodes| * TotalWeight(nodes[..i], weights)
         <= TotalWeight(nodes, weights) * FactorSum(nodes, weights, i) + i * (TotalWeight(nodes, weights) - 1)
  {
    hide Share;
    if i != 0 {
      FactorSumBounds(nodes, weights, i - 1);
      assert nodes[..i][..i - 1] == nodes[..i - 1];
      var total, share := TotalWeight(nodes, weights), BASE * |nodes|;
      var w := Weight(weights, nodes[i - 1]);
      MulMonotone(share, 0, w);
      ShareBounds(share * w, total);
      Distribute(total, FactorSum(nodes, weights, i - 1), Factor(nodes, weights, nodes[i - 1]));
      Distribute(share, TotalWeight(nodes[..i - 1], weights), w);
      Distribute(total - 1, i - 1, 1);
    }
  }

  lemma Distribute(a: int, b: int, c: int)
    ensures a * (b + c) == a * b + a * c && (b + c) * a == b * a + c * a
  {
  }

  lemma MulMonotone(a: nat, b: int, c: int)
    requires b <= c
    ensures a * b <= a * c
  {
  }

  lemma MulCancel(a: nat, b: int, c: int)
    requires a * b < a * c + a
    ensures b <= c
  {
    if c + 1 <= b {
      MulMonotone(a, c + 1, b);
    }
  }

  lemma QuotientBounds(n: nat, total: int, f: nat)
    requires 1 <= n && 1 <= total
    requires total * f <= 40 * n * total <= total * f + n * (total - 1)
    ensures 39 * n + 1 <= f <= 40 * n
  {
    MulCancel(total, f, 40 * n);
    assert n * (total - 1) == n * total - n;
    assert total * (39 * n) == 40 * n * total - n * total;
    MulCancel(total, 39 * n + 1, f);
  }

  /** The virtual points of n nodes number at least 39n + 1 and at most 40n, whatever the weights. */
  lemma FactorTotal(nodes: seq<string>, weights: map<string, int>)
    requires nodes != [] && Positive(weights)
    ensures 39 * |nodes| + 1 <= FactorSum(nodes, weights, |nodes|) <= 40 * |nodes|
  {
    hide FactorSum, TotalWeight;
    FactorSumBounds(nodes, weights, |nodes|);
    assert nodes[..|nodes|] == nodes;
    QuotientBounds(|nodes|, TotalWeight(nodes, weights), FactorSum(nodes, weights, |nodes|));
  }

  lemma {:induction false} KeyCount(digest: Hash, nodes: seq<string>, weights: map<string, int>, i: nat)
    requires i <= |nodes|
    ensures |AllKeys(Blocks(digest, nodes, weights)[..i])| == 3 * FactorSum(nodes, weights, i)
  {
    var bs := Blocks(digest, nodes, weights);
    if i != 0 {
      KeyCount(digest, nodes, weights, i - 1);
      hide TotalWeight, PointKeys, Share;
      var f := Factor(nodes, weights, nodes[i - 1]);
      hide Factor;
      assert bs[i - 1] == Block(nodes[i - 1], Points(digest, nodes[i - 1], f));
      assert bs[..i][..i - 1] == bs[..i - 1];
    }
  }

  /** The sorted index holds between 117n + 3 and 120n keys, so exactly a ring without nodes is empty. */
  lemma PointCount(digest: Hash, nodes: seq<string>, weights: map<string, int>)
    requires Positive(weights)
    ensures nodes != [] ==> 117 * |nodes| + 3 <= |Build(digest, nodes, weights).sortedKeys| <= 120 * |nodes|
    ensures Build(digest, nodes, weights).ring == map[] <==> nodes == []
  {
    hide Share, Factor, TotalWeight, FactorSum;
    var bs := Blocks(digest, nodes, weights);
    RingKeys(bs);
    if nodes != [] {
      FactorTotal(nodes, weights);
      KeyCount(digest, nodes, weights, |nodes|);
      assert bs[..|nodes|] == bs;
      var k := Sort(AllKeys(bs))[0];
      assert k in ToSet(Sort(AllKeys(bs)));
      assert k in Ring(bs);
    }
  }

  // ---- Rings whose nodes all weigh the same ----

  predicate Uniform(nodes: seq<string>, weights: map<string, int>, w: int) {
    0 < w && forall node :: node in nodes ==> Weight(weights, node) == w
  }

  /** With equal weights every node gets exactly 40 virtual points. */
  function UniformBlocks(digest: Hash, nodes: seq<string>): seq<Block> {
    seq(|nodes|, i requires 0 <= i < |nodes| => Block(nodes[i], Points(digest, nodes[i], BASE)))
  }

  lemma {:induction false} UniformTotal(nodes: seq<string>, weights: map<string, int>, w: int)
    requires Uniform(nodes, weights, w)
    ensures TotalWeight(nodes, weights) == |nodes| * w
  {
    if nodes != [] {
      UniformTotal(nodes[..|nodes| - 1], weights, w);
      Distribute(w, |nodes| - 1, 1);
    }
  }

  lemma EqualShare(n: nat, w: int)
    requires 1 <= n && 0 < w
    ensures 0 < n * w && BASE * n * w / (n * w) == BASE
  {
    MulMonotone(w, 1, n);
    assert BASE * n * w == BASE * (n * w);
  }

  lemma UniformShares(digest: Hash, nodes: seq<string>, weights: map<string, int>, w: int)
    requires Uniform(nodes, weights, w)
    ensures Blocks(digest, nodes, weights) == UniformBlocks(digest, nodes)
  {
    UniformTotal(nodes, weights, w);
    hide TotalWeight, Points;
    forall i | 0 <= i < |nodes|
      ensures Factor(nodes, weights, nodes[i]) == BASE
    {
      EqualShare(|nodes|, w);
    }
  }

  function Keep(bs: seq<Block>, node: string): seq<Block> {
    if bs == [] then []
    else
      var r := Keep(bs[..|bs| - 1], node);
      if bs[|bs| - 1].node == node then r else r + [bs[|bs| - 1]]
  }

  lemma {:induction false} UniformKeep(digest: Hash, nodes: seq<string>, node: string)
    ensures UniformBlocks(digest, Drop(nodes, {node})) == Keep(UniformBlocks(digest, nodes), node)
  {
    if nodes != [] {
      var init := nodes[..|nodes| - 1];
      UniformKeep(digest, init, node);
      assert UniformBlocks(digest, nodes)[..|init|] == UniformBlocks(digest, init);
    }
  }

  lemma UniformWithNode(digest: Hash, s: RingState, node: string, w: int)
    requires WellBuilt(digest, s) && Uniform(s.nodes, s.weights, w) && node !in s.nodes
    ensures var t := WithNode(digest, s, node, w);
            var bs, b := UniformBlocks(digest, s.nodes), Block(node, Points(digest, node, BASE));
            && Uniform(t.nodes, t.weights, w)
            && s.ring == Ring(bs) && s.sortedKeys == Sort(AllKeys(bs))
            && t.ring == Ring(bs + [b]) && t.sortedKeys == Sort(AllKeys(bs + [b]))
            && Blocks(digest, s.nodes, s.weights) == bs && Blocks(digest, t.nodes, t.weights) == bs + [b]
  {
    hide Blocks, Ring, AllKeys, Sort, Points;
    var t := WithNode(digest, s, node, w);
    UniformShares(digest, s.nodes, s.weights, w);
    UniformShares(digest, t.nodes, t.weights, w);
    var bs, b := UniformBlocks(digest, s.nodes), Block(node, Points(digest, node, BASE));
    assert UniformBlocks(digest, t.nodes) == bs + [b];
  }

  lemma UniformWithoutNode(digest: Hash, s: RingState, node: string, w: int)
    requires WellBuilt(digest, s) && Uniform(s.nodes, s.weights, w)
    ensures var t := WithoutNode(digest, s, node);
            var bs := UniformBlocks(digest, s.nodes);
            && Uniform(t.nodes, t.weights, w)
            && s.ring == Ring(bs) && t.ring == Ring(Keep(bs, node))
  {
    hide Blocks, Ring, AllKeys, Sort, Points, UniformBlocks, Keep;
    var t := WithoutNode(digest, s, node);
    OperationsKeepWellBuilt(digest, s, node, w);
    UniformKeep(digest, s.nodes, node);
    DropLength(s.nodes, {node});
    UniformShares(digest, s.nodes, s.weights, w);
    UniformShares(digest, t.nodes, t.weights, w);
  }

  // ---- Minimal movement ----

  lemma NextIsNearest(keys: set<HashKey>, h: HashKey, p: HashKey)
    requires IsNext(keys, h, p)
    ensures forall q :: q in keys ==> Distance(h, p) <= Distance(h, q)
  {
  }

  lemma NearestIsNext(keys: set<HashKey>, h: HashKey, p: HashKey)
    requires p in keys && forall q :: q in keys ==> Distance(h, p) <= Distance(h, q)
    ensures IsNext(keys, h, p)
  {
  }

  /** One of the given keys is met on a clockwise walk from h no later than the ring's next point. */
  ghost predicate Reaches(ring: map<HashKey, string>, keys: seq<HashKey>, h: HashKey) {
    exists k: HashKey :: k in keys && (ring.Keys != {} ==> Distance(h, k) <= Distance(h, Next(ring.Keys, h)))
  }

  /** Claiming further points moves exactly the keys whose next point is one of them. */
  lemma ClaimMoves(ring: map<HashKey, string>, keys: seq<HashKey>, node: string, h: HashKey)
    ensures Owner(Claim(ring, keys, node), h) == if Reaches(ring, keys, h) then Some(node) else Owner(ring, h)
  {
    var after := Claim(ring, keys, node);
    assert after.Keys == ring.Keys + ToSet(keys);
    if after.Keys == {} {
      assert forall k: HashKey :: k in keys ==> k in after.Keys;
    } else {
      var p := Next(after.Keys, h);
      NextIsNearest(after.Keys, h, p);
      if p in keys {
        assert after[p] == node;
        assert ring.Keys != {} ==> Next(ring.Keys, h) in after.Keys;
        assert Reaches(ring, keys, h);
      } else {
        NearestIsNext(ring.Keys, h, p);
        NextUnique(ring.Keys, h, p, Next(ring.Keys, h));
        forall k: HashKey | k in keys
          ensures Distance(h, p) < Distance(h, k)
        {
          assert k in after.Keys && k != p;
        }
      }
    }
  }

  /** Adding a node to a uniform ring moves exactly the keys that now meet one of its points first; all others keep
      their owner. */
  lemma AddMovesOnlyToNew(digest: Hash, s: RingState, node: string, w: int, h: HashKey)
    requires WellBuilt(digest, s) && Uniform(s.nodes, s.weights, w) && node !in s.nodes
    ensures Owner(WithNode(digest, s, node, w).ring, h)
         == if Reaches(s.ring, Points(digest, node, BASE), h) then Some(node) else Owner(s.ring, h)
  {
    UniformWithNode(digest, s, node, w);
    var bs, b := UniformBlocks(digest, s.nodes), Block(node, Points(digest, node, BASE));
    assert (bs + [b])[..|bs|] == bs;
    ClaimMoves(s.ring, b.keys, node, h);
  }

  lemma {:induction false} KeepOwners(bs: seq<Block>, node: string, k: HashKey)
    ensures k in Ring(Keep(bs, node)) ==> k in Ring(bs)
    ensures k in Ring(bs) && Ring(bs)[k] != node ==> k in Ring(Keep(bs, node)) && Ring(Keep(bs, node))[k] == Ring(bs)[k]
  {
    if bs != [] {
      var init, b := bs[..|bs| - 1], bs[|bs| - 1];
      KeepOwners(init, node, k);
      if b.node != node {
        assert (Keep(init, node) + [b])[..|Keep(init, node)|] == Keep(init, node);
      }
    }
  }

  /** Removing a node from a uniform ring leaves every key that it did not own where it was. */
  lemma RemoveKeepsOthers(digest: Hash, s: RingState, node: string, w: int, h: HashKey)
    requires WellBuilt(digest, s) && Uniform(s.nodes, s.weights, w)
    requires Owner(s.ring, h) != Some(node)
    ensures Owner(WithoutNode(digest, s, node).ring, h) == Owner(s.ring, h)
  {
    UniformWithoutNode(digest, s, node, w);
    var bs := UniformBlocks(digest, s.nodes);
    var kept := Ring(Keep(bs, node));
    forall k: HashKey {
      KeepOwners(bs, node, k);
    }
    if s.ring.Keys != {} {
      var p := Next(s.ring.Keys, h);
      assert p in kept && kept[p] == s.ring[p];
      NextIsNearest(s.ring.Keys, h, p);
      NearestIsNext(kept.Keys, h, p);
      NextUnique(kept.Keys, h, p, Next(kept.Keys, h));
    } else {
      assert kept.Keys == {};
    }
  }

  // ---- Replica stability ----

  /** The source's answer for a replica list of the given size, out of all owners in clockwise order. */
  function Replicas(walk: seq<string>, nodeCount: nat, size: nat): (seq<string>, bool) {
    if walk == [] || nodeCount < size then ([], false)
    else if size == 0 then (walk, false)
    else if size <= |walk| then (walk[..size], true)
    else (walk, false)
  }

  /** What is answered is the beginning of the walk: nothing for more than the nodes, all of it for size 0 or for more
      than there are owners, and else exactly the size, which alone counts as success. */
  lemma ReplicasExact(walk: seq<string>, nodeCount: nat, size: nat)
    ensures var (answer, ok) := Replicas(walk, nodeCount, size);
            && answer <= walk
            && |answer| == (if nodeCount < size then 0 else if 0 < size <= |walk| then size else |walk|)
            && (ok <==> 0 < size <= |walk| && size <= nodeCount)
  {
  }

  lemma MergedDropCount(s: seq<HashKey>, t: seq<HashKey>, b: seq<HashKey>, x: HashKey)
    requires multiset(s) == multiset(t) + multiset(b)
    requires x in t ==> x !in b
    ensures multiset(Drop(s, ToSet(b)))[x] == multiset(t)[x]
  {
    DropCount(s, ToSet(b), x);
    assert x in multiset(t) <==> x in t;
    assert x in multiset(b) <==> x in b;
  }

  lemma MergedDrop(s: seq<HashKey>, t: seq<HashKey>, b: seq<HashKey>)
    requires Ascending(s) && Ascending(t) && multiset(s) == multiset(t) + multiset(b)
    requires forall x :: x in t ==> x !in b
    ensures Drop(s, ToSet(b)) == t
  {
    var r := Drop(s, ToSet(b));
    DropAscending(s, ToSet(b));
    forall x: HashKey
      ensures multiset(r)[x] == multiset(t)[x]
    {
      MergedDropCount(s, t, b, x);
    }
    SortUnique(r, t);
  }

  lemma SortDrop(a: seq<HashKey>, b: seq<HashKey>)
    requires ToSet(a) !! ToSet(b)
    ensures Drop(Sort(a + b), ToSet(b)) == Sort(a)
  {
    SameMembers(Sort(a), a);
    forall x | x in Sort(a)
      ensures x !in b
    {
      assert x in ToSet(a);
    }
    MergedDrop(Sort(a + b), Sort(a), b);
  }

  lemma ClockwiseDrop(keys: seq<HashKey>, h: HashKey, out: set<HashKey>)
    requires Ascending(keys)
    ensures Ascending(Drop(keys, out))
    ensures Drop(Clockwise(keys, h), out) == Clockwise(Drop(keys, out), h)
  {
    DropAscending(keys, out);
    var a := Above(keys, h);
    var low, high := Drop(keys[..a], out), Drop(keys[a..], out);
    assert keys == keys[..a] + keys[a..];
    DropConcat(keys[..a], keys[a..], out);
    DropConcat(keys[a..], keys[..a], out);
    assert Drop(keys, out) == low + high;
    SplitOf(low, high, h);
  }

  lemma SplitUnique(s: seq<HashKey>, h: HashKey, a: nat, b: nat)
    requires SplitsAt(s, h, a) && SplitsAt(s, h, b)
    ensures a == b
  {
    var x, y := if a < |s| then s[a] else h, if b < |s| then s[b] else h;
  }

  lemma SplitOf(low: seq<HashKey>, high: seq<HashKey>, h: HashKey)
    requires Ascending(low + high)
    requires forall k :: k in low ==> k <= h
    requires forall k :: k in high ==> h < k
    ensures Clockwise(low + high, h) == high + low
  {
    var s := low + high;
    var a := Above(s, h);
    assert forall i :: 0 <= i < |low| ==> s[i] == low[i] && low[i] in low;
    assert forall i :: |low| <= i < |s| ==> s[i] == high[i - |low|] && high[i - |low|] in high;
    SplitUnique(s, h, a, |low|);
    assert s[..|low|] == low && s[|low|..] == high;
  }

  lemma OwnerSeqSnoc(ring: map<HashKey, string>, keys: seq<HashKey>, k: HashKey)
    requires forall x :: x in keys + [k] ==> x in ring
    ensures forall x :: x in keys ==> x in keys + [k]
    ensures k in keys + [k]
    ensures OwnerSeq(ring, keys + [k]) == OwnerSeq(ring, keys) + [ring[k]]
    ensures OwnerSeq(ring, keys + [k])[..|keys|] == OwnerSeq(ring, keys)
  {
    assert (keys + [k])[|keys|] == k;
    forall x | x in keys
      ensures x in keys + [k]
    {
    }
  }

  lemma NoOwners(ring: map<HashKey, string>)
    ensures OwnerSeq(ring, []) == []
  {
  }

  lemma ClaimAt(ring: map<HashKey, string>, keys: seq<HashKey>, node: string)
    ensures forall k :: k in Claim(ring, keys, node) <==> k in ring || k in keys
    ensures forall k :: k in Claim(ring, keys, node) ==>
            Claim(ring, keys, node)[k] == if k in keys then node else ring[k]
  {
  }

  lemma {:induction false} OwnerSeqDrop(before: map<HashKey, string>, keys: seq<HashKey>, node: string,
      turn: seq<HashKey>)
    requires before.Keys !! ToSet(keys) && node !in before.Values
    requires forall k :: k in turn ==> k in before || k in keys
    ensures Drop(OwnerSeq(Claim(before, keys, node), turn), {node}) == OwnerSeq(before, Drop(turn, ToSet(keys)))
  {
    hide Claim, OwnerSeq;
    var after, out := Claim(before, keys, node), ToSet(keys);
    ClaimAt(before, keys, node);
    if turn == [] {
      NoOwners(after);
      NoOwners(before);
    } else {
      var init, k := turn[..|turn| - 1], turn[|turn| - 1];
      assert turn == init + [k] && k in turn;
      OwnerSeqDrop(before, keys, node, init);
      OwnerSeqSnoc(after, init, k);
      DropSnoc(OwnerSeq(after, init), after[k], {node});
      KeySnoc(init, k, out);
      if k !in out {
        assert before[k] in before.Values;
        OwnerSeqSnoc(before, Drop(init, out), k);
      }
    }
  }

  lemma DropSnoc(s: seq<string>, x: string, out: set<string>)
    ensures Drop(s + [x], out) == if x in out then Drop(s, out) else Drop(s, out) + [x]
  {
    assert (s + [x])[..|s|] == s;
  }

  lemma KeySnoc(s: seq<HashKey>, x: HashKey, out: set<HashKey>)
    ensures Drop(s + [x], out) == if x in out then Drop(s, out) else Drop(s, out) + [x]
  {
    assert (s + [x])[..|s|] == s;
  }

  /** Erasing a freshly added, non-colliding node from the new walk gives back the old walk. */
  lemma WalkDrop(bs: seq<Block>, b: Block, h: HashKey)
    requires Ring(bs).Keys !! ToSet(b.keys) && b.node !in Ring(bs).Values
    ensures Drop(Walk(bs + [b], h), {b.node}) == Walk(bs, h)
  {
    assert (bs + [b])[..|bs|] == bs;
    RingKeys(bs);
    SortDrop(AllKeys(bs), b.keys);
    ClockwiseDrop(Sort(AllKeys(bs + [b])), h, ToSet(b.keys));
    var turn := Turn(bs + [b], h);
    assert Drop(turn, ToSet(b.keys)) == Turn(bs, h);
    OwnerSeqDrop(Ring(bs), b.keys, b.node, turn);
    DistinctOfDrop(OwnerSeq(Ring(bs + [b]), turn), {b.node});
  }

  lemma RingValues(digest: Hash, nodes: seq<string>, weights: map<string, int>, node: string)
    requires node !in nodes
    ensures node !in Build(digest, nodes, weights).ring.Values
  {
    var bs := Blocks(digest, nodes, weights);
    forall k | k in Ring(bs)
      ensures Ring(bs)[k] != node
    {
      RingOwner(bs, k);
      var i: nat :| LastGenerator(bs, k, i);
      assert Ring(bs)[k] == nodes[i];
    }
  }

  /** A list without repetitions loses at most one element to the removal of one value. */
  lemma {:induction false} DropOne(s: seq<string>, x: string)
    requires NoDuplicates(s)
    ensures |Drop(s, {x})| == if x in s then |s| - 1 else |s|
  {
    if s != [] {
      DropOne(s[..|s| - 1], x);
      assert s == s[..|s| - 1] + [s[|s| - 1]];
    }
  }

  lemma DropOfPrefix(s: seq<string>, n: nat, x: string)
    requires NoDuplicates(s) && n <= |s|
    ensures Drop(s[..n], {x}) <= Drop(s, {x})
    ensures |Drop(s[..n], {x})| == n || |Drop(s[..n], {x})| == n - 1
  {
    assert s == s[..n] + s[n..];
    DropConcat(s[..n], s[n..], {x});
    DropOne(s[..n], x);
  }

  lemma ReplicasDrop(before: seq<string>, after: seq<string>, nodeCount: nat, node: string, size: nat)
    requires NoDuplicates(after) && Drop(after, {node}) == before && size <= nodeCount
    ensures var old', new' := Replicas(before, nodeCount, size), Replicas(after, nodeCount + 1, size);
            var rest := Drop(new'.0, {node});
            && rest <= old'.0
            && |old'.0| - 1 <= |rest|
            && (|rest| == |new'.0| || |rest| == |new'.0| - 1)
            && (old'.1 ==> new'.1 && |new'.0| == size)
  {
    DropOne(after, node);
    DropOfPrefix(after, if 0 < size <= |after| then size else |after|, node);
    assert after[..|after|] == after;
  }

  /** Adding a node to a uniform ring without colliding points changes every replica list by at most its own insertion:
      erasing the node from the new answer leaves the old answer, short of at most its last entry. */
  lemma ReplicaStability(digest: Hash, s: RingState, node: string, w: int, h: HashKey, size: nat)
    requires WellBuilt(digest, s) && Uniform(s.nodes, s.weights, w) && node !in s.nodes
    requires s.ring.Keys !! ToSet(Points(digest, node, BASE))
    requires size <= |s.nodes|
    ensures var t := WithNode(digest, s, node, w);
            var before := Replicas(Walk(Blocks(digest, s.nodes, s.weights), h), |s.nodes|, size);
            var after := Replicas(Walk(Blocks(digest, t.nodes, t.weights), h), |t.nodes|, size);
            var rest := Drop(after.0, {node});
            && rest <= before.0
            && |before.0| - 1 <= |rest|
            && (|rest| == |after.0| || |rest| == |after.0| - 1)
            && (before.1 ==> after.1 && |after.0| == size)
  {
    hide Blocks, Ring, AllKeys, Sort, Walk, UniformBlocks, Replicas, Points;
    UniformWithNode(digest, s, node, w);
    RingValues(digest, s.nodes, s.weights, node);
    var bs, b := UniformBlocks(digest, s.nodes), Block(node, Points(digest, node, BASE));
    WalkDrop(bs, b, h);
    WalkLists(bs + [b], h);
    ReplicasDrop(Walk(bs, h), Walk(bs + [b], h), |s.nodes|, node, size);
  }

  /** A built ring has no more owners than nodes. */
  lemma OwnersAreNodes(digest: Hash, nodes: seq<string>, weights: map<string, int>)
    ensures var owners := Ring(Blocks(digest, nodes, weights)).Values; owners <= ToSet(nodes) && |owners| <= |nodes|
  {
    hide Blocks, Ring, AllKeys, Sort;
    var owners := Build(digest, nodes, weights).ring.Values;
    forall n | n in owners
      ensures n in nodes
    {
      if n !in nodes {
        RingValues(digest, nodes, weights, n);
      }
    }
    SetOfSize(nodes);
    SubsetSize(owners, ToSet(nodes));
  }

  lemma {:induction false} SetOfSize(s: seq<string>)
    ensures |ToSet(s)| <= |s|
  {
    if s != [] {
      var init := s[..|s| - 1];
      SetOfSize(init);
      assert ToSet(s) == ToSet(init) + {s[|s| - 1]} by {
        assert s == init + [s[|s| - 1]];
      }
    }
  }

  lemma SubsetSize(a: set<string>, b: set<string>)
    requires a <= b
    ensures |a| <= |b|
  {
    assert b == a + (b - a);
  }

  /** On any built ring replica requests succeed exactly for sizes from 1 to the number of owners on it, and shorter
      ones are answered with prefixes of longer ones. */
  lemma ReplicasByWalk(digest: Hash, nodes: seq<string>, weights: map<string, int>, h: HashKey, size: nat)
    ensures var bs := Blocks(digest, nodes, weights); var walk := Walk(bs, h);
            && (Replicas(walk, |nodes|, size).1 <==> 1 <= size <= |Ring(bs).Values|)
            && forall n: nat :: 1 <= n <= size <= |nodes| ==>
                Replicas(walk, |nodes|, n).0 <= Replicas(walk, |nodes|, size).0
  {
    hide Walk, Ring, Blocks;
    var bs := Blocks(digest, nodes, weights);
    OwnersAreNodes(digest, nodes, weights);
    WalkLists(bs, h);
    ListsCount(Walk(bs, h), Ring(bs).Values);
  }
}
