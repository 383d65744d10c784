/** The hash ring as the source runs it: a map and a sorted index, filled in place and searched in place. */
module HashRings {
  import opened Bytes
  import opened Options
  import opened Sequences
  import opened RingSpec
  import RingTheorems

  /** Go's sort.Search for the first key above h. */
  method SearchAbove(keys: seq<HashKey>, h: HashKey) returns (pos: nat)
    requires Ascending(keys)
    ensures pos == Above(keys, h)
  {
    var i, j := 0, |keys|;
    while i < j
      invariant 0 <= i <= j <= |keys|
      invariant forall t :: 0 <= t < i ==> keys[t] <= h
      invariant forall t :: j <= t < |keys| ==> h < keys[t]
    {
      var m := i + (j - i) / 2;
      if h < keys[m] {
        j := m;
      } else {
        i := m + 1;
      }
    }
    RingTheorems.SplitUnique(keys, h, i, Above(keys, h));
    pos := i;
  }

  class HashRing {
    const digest: Hash
    var ring: map<HashKey, string>
    var sortedKeys: seq<HashKey>
    var nodes: seq<string>
    var weights: map<string, int>

    ghost function State(): RingState
      reads this
    {
      RingState(nodes, weights, ring, sortedKeys)
    }

    ghost predicate Valid()
      reads this
    {
      WellBuilt(digest, State())
    }

    constructor Literal(digest: Hash, nodes: seq<string>, weights: map<string, int>)
      ensures this.digest == digest && State() == RingState(nodes, weights, map[], [])
    {
      this.digest := digest;
      this.nodes, this.weights := nodes, weights;
      ring, sortedKeys := map[], [];
    }

    constructor NewHashring(digest: Hash, nodes: seq<string>)
      ensures this.digest == digest && Valid() && State() == Build(digest, nodes, map[])
    {
      hide Blocks, Ring, AllKeys, Sort, Factor;
      this.digest := digest;
      this.nodes, this.weights := nodes, map[];
      ring, sortedKeys := map[], [];
      new;
      GenerateCircle();
    }

    /** Go ranges over the weights in no particular order, so the node order is any listing of their keys. */
    constructor NewHashringWithWeights(digest: Hash, weights: map<string, int>)
      ensures this.digest == digest && Valid()
      ensures Lists(nodes, weights.Keys) && State() == Build(digest, nodes, weights)
    {
      hide Blocks, Ring, AllKeys, Sort, Factor;
      this.digest := digest;
      this.nodes, this.weights := [], weights;
      ring, sortedKeys := map[], [];
      new;
      var rest := weights.Keys;
      while rest != {}
        invariant rest <= weights.Keys && Lists(nodes, weights.Keys - rest)
        invariant this.weights == weights && ring == map[] && sortedKeys == []
        decreases rest
      {
        var node :| node in rest;
        ListsSnoc(nodes, weights.Keys - rest, node);
        assert weights.Keys - rest + {node} == weights.Keys - (rest - {node});
        nodes, rest := nodes + [node], rest - {node};
      }
      GenerateCircle();
    }

    /** Places every virtual point of every node, in node order, and sorts the index. */
    method GenerateCircle()
      requires ring == map[] && sortedKeys == []
      modifies this`ring, this`sortedKeys
      ensures State() == Build(digest, nodes, weights)
    {
      var totalWeight := 0;
      for i := 0 to |nodes|
        invariant totalWeight == TotalWeight(nodes[..i], weights)
      {
        assert nodes[..i + 1][..i] == nodes[..i];
        if nodes[i] in weights {
          totalWeight := totalWeight + weights[nodes[i]];
        } else {
          totalWeight := totalWeight + 1;
        }
      }
      assert nodes[..|nodes|] == nodes;

      PlaceNodes(totalWeight);
      sortedKeys := Sort(sortedKeys);
    }

    /** The second loop of GenerateCircle: every node gets its share of the points. */
    method PlaceNodes(totalWeight: int)
      requires ring == map[] && sortedKeys == [] && totalWeight == TotalWeight(nodes, weights)
      modifies this`ring, this`sortedKeys
      ensures ring == Ring(Blocks(digest, nodes, weights))
      ensures sortedKeys == AllKeys(Blocks(digest, nodes, weights))
    {
      hide Blocks, Ring, AllKeys, Points, TotalWeight, Claim, Share;
      ghost var bs := Blocks(digest, nodes, weights);
      NoBlocks(bs);
      for i := 0 to |nodes|
        invariant |bs| == |nodes| && ring == Ring(bs[..i])
        invariant sortedKeys == AllKeys(bs[..i])
      {
        var weight := 1;
        if nodes[i] in weights {
          weight := weights[nodes[i]];
        }
        var factor := Share(BASE * |nodes| * weight, totalWeight);
        BlockAt(digest, nodes, weights, i);
        PlacePoints(nodes[i], factor);
      }
      assert bs[..|nodes|] == bs;
    }

    static lemma NoBlocks(bs: seq<Block>)
      ensures Ring(bs[..0]) == map[] && AllKeys(bs[..0]) == []
    {
    }

    static lemma BlockAt(digest: Hash, nodes: seq<string>, weights: map<string, int>, i: nat)
      requires i < |nodes|
      ensures var bs := Blocks(digest, nodes, weights);
              var points := Points(digest, nodes[i], Factor(nodes, weights, nodes[i]));
              && |bs| == |nodes|
              && Ring(bs[..i + 1]) == Claim(Ring(bs[..i]), points, nodes[i])
              && AllKeys(bs[..i + 1]) == AllKeys(bs[..i]) + points
    {
      hide Points, Claim, Factor;
      var bs := Blocks(digest, nodes, weights);
      assert bs[..i + 1][..i] == bs[..i];
    }

    /** The inner loops of GenerateCircle: the virtual points of one node, three keys each. */
    method PlacePoints(node: string, factor: nat)
      modifies this`ring, this`sortedKeys
      ensures ring == Claim(old(ring), Points(digest, node, factor), node)
      ensures sortedKeys == old(sortedKeys) + Points(digest, node, factor)
    {
      for j := 0 to factor
        invariant ring == Claim(old(ring), Points(digest, node, j), node)
        invariant sortedKeys == old(sortedKeys) + Points(digest, node, j)
      {
        hide Claim;
        PlaceTriple(node, j, Points(digest, node, j), old(ring), old(sortedKeys));
      }
    }

    /** The three keys of one virtual point, next to those placed before it. */
    method PlaceTriple(
      node: string, j: nat, ghost before: seq<HashKey>, ghost ring0: map<HashKey, string>, ghost keys0: seq<HashKey>)
      requires ring == Claim(ring0, before, node) && sortedKeys == keys0 + before
      modifies this`ring, this`sortedKeys
      ensures ring == Claim(ring0, before + PointKeys(digest, node, j, 3), node)
      ensures sortedKeys == keys0 + (before + PointKeys(digest, node, j, 3))
    {
      hide Claim;
      var bKey := digest(PointName(node, j));
      assert before == before + PointKeys(digest, node, j, 0);
      hide PointKeys;
      for i := 0 to 3
        invariant ring == Claim(ring0, before + PointKeys(digest, node, j, i), node)
        invariant sortedKeys == keys0 + (before + PointKeys(digest, node, j, i))
      {
        var key := HashVal(bKey[i * 4..i * 4 + 4]);
        NextPointKey(node, j, i, before, keys0);
        ClaimSnoc(ring0, before + PointKeys(digest, node, j, i), node, key);
        ring := ring[key := node];
        sortedKeys := sortedKeys + [key];
      }
    }

    lemma NextPointKey(node: string, j: nat, i: nat, before: seq<HashKey>, keys0: seq<HashKey>)
      requires i < 3
      ensures var key := HashVal(digest(PointName(node, j))[i * 4..i * 4 + 4]);
              var all := before + PointKeys(digest, node, j, i + 1);
              && all == before + PointKeys(digest, node, j, i) + [key]
              && keys0 + all == keys0 + (before + PointKeys(digest, node, j, i)) + [key]
    {
    }

    static lemma ClaimSnoc(ring: map<HashKey, string>, keys: seq<HashKey>, node: string, key: HashKey)
      ensures Claim(ring, keys + [key], node) == Claim(ring, keys, node)[key := node]
    {
    }

    function GenKey(stringKey: string): HashKey
    {
      KeyOf(digest, stringKey)
    }

    /** The index of the first point clockwise of the key, wrapping to 0; fails exactly on an empty ring, which with
        positive weights is one without nodes. */
    method GetNodePos(stringKey: string) returns (pos: nat, ok: bool)
      requires Valid()
      ensures ok <==> ring != map[]
      ensures Positive(weights) ==> (ok <==> nodes != [])
      ensures ok ==>
                && pos < |sortedKeys|
                && sortedKeys[pos..] + sortedKeys[..pos] == Turn(Blocks(digest, nodes, weights), GenKey(stringKey))
      ensures !ok ==> pos == 0
    {
      hide Blocks, Turn, WellBuilt, Above, Positive;
      EmptyRing();
      TurnOfKeys(GenKey(stringKey));
      if |ring| == 0 {
        return 0, false;
      }
      var key := GenKey(stringKey);
      pos := SearchAbove(sortedKeys, key);
      AboveInside(sortedKeys, key);
      if pos == |sortedKeys| {
        assert sortedKeys[0..] + sortedKeys[..0] == sortedKeys[pos..] + sortedKeys[..pos];
        return 0, true;
      }
      return pos, true;
    }

    static lemma AboveInside(keys: seq<HashKey>, h: HashKey)
      requires Ascending(keys)
      ensures Above(keys, h) <= |keys|
    {
    }

    lemma TurnOfKeys(h: HashKey)
      requires Valid()
      ensures Ascending(sortedKeys) && Above(sortedKeys, h) <= |sortedKeys|
      ensures Turn(Blocks(digest, nodes, weights), h)
              == sortedKeys[Above(sortedKeys, h)..] + sortedKeys[..Above(sortedKeys, h)]
    {
      hide Blocks, Ring, AllKeys, Sort, Above;
    }

    lemma EmptyRing()
      requires Valid()
      ensures ring != map[] ==> sortedKeys != []
      ensures Positive(weights) ==> (ring == map[] <==> nodes == [])
    {
      hide Blocks, Ring, AllKeys, Sort;
      RingKeys(Blocks(digest, nodes, weights));
      if Positive(weights) {
        RingTheorems.PointCount(digest, nodes, weights);
      }
    }

    /** The owner of the first point clockwise of the key. */
    method GetNode(stringKey: string) returns (node: string, ok: bool)
      requires Valid()
      ensures ok <==> ring != map[]
      ensures Positive(weights) ==> (ok <==> nodes != [])
      ensures (if ok then Some(node) else None) == Owner(ring, GenKey(stringKey))
      ensures !ok ==> node == ""
    {
      var pos;
      pos, ok := GetNodePos(stringKey);
      if !ok {
        return "", false;
      }
      TurnFirst(Blocks(digest, nodes, weights), GenKey(stringKey));
      assert (sortedKeys[pos..] + sortedKeys[..pos])[0] == sortedKeys[pos];
      return ring[sortedKeys[pos]], true;
    }

    /** The owners of the next points clockwise, each once, until `size` of them are found. */
    method GetNodes(stringKey: string, size: nat) returns (result: seq<string>, ok: bool)
      requires Valid()
      ensures (result, ok)
           == RingTheorems.Replicas(Walk(Blocks(digest, nodes, weights), GenKey(stringKey)), |nodes|, size)
    {
      hide Blocks, Ring, AllKeys, Sort, Factor;
      ghost var bs, h := Blocks(digest, nodes, weights), GenKey(stringKey);
      var pos;
      pos, ok := GetNodePos(stringKey);
      if !ok {
        EmptyWalk(bs, h);
        return [], false;
      }
      WalkFirst(bs, h);
      if size > |nodes| {
        return [], false;
      }
      TurnFirst(bs, h);
      TurnMeets(ring, sortedKeys, Turn(bs, h), pos);
      result := Collect(pos, size, OwnerSeq(ring, Turn(bs, h)));
      ok := |result| == size;
    }

    static lemma ModWrap(a: nat, n: nat)
      requires a < 2 * n
      ensures a % n == if a < n then a else a - n
    {
    }

    static lemma RotationAt(keys: seq<HashKey>, pos: nat, i: nat)
      requires pos < |keys| && pos <= i < pos + |keys|
      ensures (keys[pos..] + keys[..pos])[i - pos] == keys[i % |keys|]
    {
      ModWrap(i, |keys|);
    }

    /** owners are those of the points met on a full walk from index pos. */
    static predicate Meets(ring: map<HashKey, string>, keys: seq<HashKey>, pos: nat, owners: seq<string>) {
      pos < |keys| == |owners| && forall n :: 0 <= n < |owners| ==> MeetsAt(ring, keys, pos, owners, n)
    }

    static predicate MeetsAt(ring: map<HashKey, string>, keys: seq<HashKey>, pos: nat, owners: seq<string>, n: nat)
      requires n < |owners| && keys != []
    {
      var at := Wrap(pos + n, |keys|);
      at < |keys| && keys[at] in ring && owners[n] == ring[keys[at]]
    }

    /** The walk of GetNodes from index pos. */
    method Collect(pos: nat, size: nat, ghost owners: seq<string>) returns (result: seq<string>)
      requires Meets(ring, sortedKeys, pos, owners)
      ensures result == FirstOwners(Distinct(owners), size)
    {
      var returned: set<string> := {};
      result := [];
      NothingCollected(owners);
      hide Collected, Lists, Distinct, ToSet, FirstOwners, Wrap;
      var i := pos;
      ghost var n := 0;
      while i < pos + |sortedKeys|
        invariant 0 <= n <= |owners| == |sortedKeys| && i == pos + n
        invariant Collected(owners, n, result, returned)
        invariant size != 0 ==> |returned| < size
        decreases |owners| - n
      {
        var at := Wrap(i, |sortedKeys|);
        assert MeetsAt(ring, sortedKeys, pos, owners, n);
        CollectStep(owners, n, result, returned);
        var key := sortedKeys[at];
        var val := ring[key];
        if val !in returned {
          returned := returned + {val};
          result := result + [val];
        }
        i, n := i + 1, n + 1;
        if |returned| == size {
          break;
        }
      }
      CollectDone(owners, n, size, result, returned);
    }

    /** The owners met in the first n steps, once each, as a list and as a set. */
    static predicate Collected(owners: seq<string>, n: nat, result: seq<string>, returned: set<string>)
      requires n <= |owners|
    {
      result == Distinct(owners[..n]) && Lists(result, returned)
    }

    static function Wrap(i: nat, n: nat): nat
      requires n > 0
    {
      i % n
    }

    static lemma NothingCollected(owners: seq<string>)
      ensures Collected(owners, 0, [], {})
    {
    }

    static lemma TurnMeets(ring: map<HashKey, string>, keys: seq<HashKey>, turn: seq<HashKey>, pos: nat)
      requires pos < |keys| && turn == keys[pos..] + keys[..pos] && forall k :: k in turn ==> k in ring
      ensures Meets(ring, keys, pos, OwnerSeq(ring, turn))
    {
      forall n | 0 <= n < |keys|
        ensures MeetsAt(ring, keys, pos, OwnerSeq(ring, turn), n)
      {
        RotationAt(keys, pos, pos + n);
        assert turn[n] in turn;
      }
    }

    static lemma CollectDone(owners: seq<string>, n: nat, size: nat, result: seq<string>, returned: set<string>)
      requires n <= |owners| && Collected(owners, n, result, returned)
      requires (0 < n && |returned| == size) || (n == |owners| && (size != 0 ==> |returned| < size))
      ensures result == FirstOwners(Distinct(owners), size)
    {
      ListsCount(result, returned);
      DistinctGrows(owners, n);
      assert owners[..|owners|] == owners;
      if 0 < n {
        assert owners[0] in owners[..n];
        assert result != [];
      }
    }

    static lemma CollectStep(owners: seq<string>, n: nat, result: seq<string>, returned: set<string>)
      requires n < |owners| && Collected(owners, n, result, returned)
      ensures owners[n] in returned ==> Collected(owners, n + 1, result, returned)
      ensures owners[n] !in returned ==>
                && Collected(owners, n + 1, result + [owners[n]], returned + {owners[n]})
                && |returned + {owners[n]}| == |returned| + 1
    {
      DistinctSnoc(owners, n);
      if owners[n] !in returned {
        ListsSnoc(result, returned, owners[n]);
      }
    }

    static function FirstOwners(walk: seq<string>, size: nat): seq<string> {
      if 0 < size <= |walk| then walk[..size] else walk
    }

    /** Replaces the ring unless the weights are what they were. */
    method UpdateWithWeights(newWeights: map<string, int>)
      requires Valid()
      modifies this
      ensures Valid() && weights == newWeights
      ensures newWeights == old(weights) ==> State() == old(State())
      ensures newWeights != old(weights) ==>
              Lists(nodes, newWeights.Keys) && State() == Build(digest, nodes, newWeights)
      ensures ToSet(nodes) == newWeights.Keys <==> newWeights != old(weights) || ToSet(old(nodes)) == old(weights).Keys
    {
      hide Blocks, Ring, AllKeys, Sort, Factor;
      var changed := false;
      if |newWeights| != |weights| {
        changed := true;
      } else {
        var rest := newWeights.Keys;
        while rest != {}
          invariant rest <= newWeights.Keys
          invariant !changed
          invariant forall n :: n in newWeights.Keys - rest ==> n in weights && weights[n] == newWeights[n]
          decreases rest
        {
          var node :| node in rest;
          rest := rest - {node};
          if node !in weights || weights[node] != newWeights[node] {
            changed := true;
            break;
          }
        }
        if !changed {
          SameSizeSubset(newWeights.Keys, weights.Keys);
          assert newWeights == weights;
        }
      }
      if changed {
        var fresh' := new HashRing.NewHashringWithWeights(digest, newWeights);
        weights := fresh'.weights;
        nodes := fresh'.nodes;
        ring := fresh'.ring;
        sortedKeys := fresh'.sortedKeys;
      }
    }

    static lemma SameSizeSubset(a: set<string>, b: set<string>)
      requires a <= b && |a| == |b|
      ensures a == b
    {
      assert |b - a| == 0;
    }

    method AddNode(node: string) returns (r: HashRing)
      requires Valid()
      ensures r == this || fresh(r)
      ensures r.digest == digest && r.Valid() && r.State() == WithNode(digest, State(), node, 1)
    {
      r := AddWeightedNode(node, 1);
    }

    /** A ring with one more node, or this ring if the node is known or weighs nothing. */
    method AddWeightedNode(node: string, weight: int) returns (r: HashRing)
      requires Valid()
      ensures r == this || fresh(r)
      ensures r.digest == digest && r.Valid() && r.State() == WithNode(digest, State(), node, weight)
    {
      hide Blocks, Ring, AllKeys, Sort, Factor;
      RingTheorems.OperationsKeepWellBuilt(digest, State(), node, weight);
      if weight <= 0 {
        return this;
      }
      for i := 0 to |nodes|
        invariant node !in nodes[..i]
      {
        if nodes[i] == node {
          return this;
        }
        assert nodes[..i + 1] == nodes[..i] + [nodes[i]];
      }
      assert nodes[..|nodes|] == nodes;
      r := new HashRing.Literal(digest, nodes + [node], weights[node := weight]);
      r.GenerateCircle();
    }

    /** A ring in which a node with a recorded weight weighs something else. */
    method UpdateWeightedNode(node: string, weight: int) returns (r: HashRing)
      requires Valid()
      ensures r == this || fresh(r)
      ensures r.digest == digest && r.Valid() && r.State() == Reweighted(digest, State(), node, weight)
    {
      hide Blocks, Ring, AllKeys, Sort, Factor;
      RingTheorems.OperationsKeepWellBuilt(digest, State(), node, weight);
      if weight <= 0 {
        return this;
      }
      if node !in weights || weights[node] == weight {
        return this;
      }
      r := new HashRing.Literal(digest, nodes, weights[node := weight]);
      r.GenerateCircle();
    }

    /** A ring without the node, every occurrence of it dropped. */
    method RemoveNode(node: string) returns (r: HashRing)
      requires Valid()
      ensures r == this || fresh(r)
      ensures r.digest == digest && r.Valid() && r.State() == WithoutNode(digest, State(), node)
    {
      hide Blocks, Ring, AllKeys, Sort, Factor;
      RingTheorems.OperationsKeepWellBuilt(digest, State(), node, 1);
      var rest: seq<string> := [];
      for i := 0 to |nodes|
        invariant rest == Drop(nodes[..i], {node})
      {
        assert nodes[..i + 1][..i] == nodes[..i];
        if nodes[i] != node {
          rest := rest + [nodes[i]];
        }
      }
      assert nodes[..|nodes|] == nodes;
      DropLength(nodes, {node});
      if |rest| == |nodes| {
        return this;
      }
      r := new HashRing.Literal(digest, rest, weights - {node});
      r.GenerateCircle();
    }
  }

  lemma EmptyWalk(bs: seq<Block>, h: HashKey)
    requires Ring(bs) == map[]
    ensures Walk(bs, h) == []
  {
    if Turn(bs, h) != [] {
      HasMember(Turn(bs, h));
    }
  }
}
