/** Ordered sequences of 32-bit keys and order-preserving selections from a sequence. */
module Sequences {
  import opened Bytes

  predicate Ascending(s: seq<HashKey>) {
    forall i, j :: 0 <= i < j < |s| ==> s[i] <= s[j]
  }

  predicate NoDuplicates<T(==)>(s: seq<T>) {
    forall i, j :: 0 <= i < j < |s| ==> s[i] != s[j]
  }

  function ToSet<T>(s: seq<T>): set<T> {
    set x | x in s
  }

  /** s lists every element of keys exactly once, in some order. */
  predicate Lists<T(==)>(s: seq<T>, keys: set<T>) {
    NoDuplicates(s) && ToSet(s) == keys
  }

  lemma {:induction false} ListsCount<T>(s: seq<T>, keys: set<T>)
    requires Lists(s, keys)
    ensures |s| == |keys|
  {
    if s == [] {
      assert keys == {};
    } else {
      var last := s[|s| - 1];
      assert s == s[..|s| - 1] + [last];
      ListsCount(s[..|s| - 1], keys - {last});
    }
  }

  lemma ListsSnoc<T>(s: seq<T>, keys: set<T>, x: T)
    requires Lists(s, keys) && x !in keys
    ensures Lists(s + [x], keys + {x})
  {
    assert forall i :: 0 <= i < |s| ==> s[i] in ToSet(s);
  }

  /** Every finite set can be listed. */
  lemma {:induction false} SomeListing<T>(keys: set<T>) returns (s: seq<T>)
    ensures Lists(s, keys)
  {
    if keys == {} {
      s := [];
    } else {
      var x :| x in keys;
      s := SomeListing(keys - {x});
      ListsSnoc(s, keys - {x}, x);
      assert keys - {x} + {x} == keys;
      s := s + [x];
    }
  }

  lemma HasMember<T>(s: seq<T>)
    requires s != []
    ensures exists x :: x in s
  {
    assert s[0] in s;
  }

  /** The members of s up to index a are at most h, those from a on are above it. */
  predicate SplitsAt(s: seq<HashKey>, h: HashKey, a: nat) {
    a <= |s| && (forall i :: 0 <= i < a ==> s[i] <= h) && (forall i :: a <= i < |s| ==> h < s[i])
  }

  /** The least index of a member above h, or the length if there is none. */
  function Above(s: seq<HashKey>, h: HashKey): (a: nat)
    requires Ascending(s)
    ensures SplitsAt(s, h, a)
  {
    if s == [] || s[|s| - 1] <= h then |s| else Above(s[..|s| - 1], h)
  }

  function Insert(k: HashKey, s: seq<HashKey>): (r: seq<HashKey>)
    requires Ascending(s)
    ensures Ascending(r) && multiset(r) == multiset(s) + multiset{k}
  {
    var a := Above(s, k);
    assert s == s[..a] + s[a..];
    s[..a] + [k] + s[a..]
  }

  /** The ascending arrangement of s, repetitions kept. */
  function Sort(s: seq<HashKey>): (r: seq<HashKey>)
    ensures Ascending(r) && multiset(r) == multiset(s) && |r| == |s|
  {
    if s == [] then []
    else
      assert s == s[..|s| - 1] + [s[|s| - 1]];
      var r := Insert(s[|s| - 1], Sort(s[..|s| - 1]));
      assert |multiset(r)| == |multiset(s)|;
      r
  }

  lemma SameMembers<T>(a: seq<T>, b: seq<T>)
    requires multiset(a) == multiset(b)
    ensures forall x :: x in a <==> x in b
  {
    forall x ensures x in a <==> x in b {
      assert x in a <==> x in multiset(a);
      assert x in b <==> x in multiset(b);
    }
  }

  lemma WithoutLast<T>(s: seq<T>)
    requires s != []
    ensures multiset(s[..|s| - 1]) == multiset(s) - multiset{s[|s| - 1]}
  {
    assert s == s[..|s| - 1] + [s[|s| - 1]];
  }

  lemma SameGreatest(a: seq<HashKey>, b: seq<HashKey>)
    requires Ascending(a) && Ascending(b) && multiset(a) == multiset(b) && a != []
    ensures |a| == |b| && a[|a| - 1] == b[|b| - 1]
    ensures Ascending(a[..|a| - 1]) && Ascending(b[..|b| - 1])
    ensures multiset(a[..|a| - 1]) == multiset(b[..|b| - 1])
  {
    assert |multiset(a)| == |a| && |multiset(b)| == |b|;
    SameMembers(a, b);
    assert a[|a| - 1] in b && b[|b| - 1] in a;
    WithoutLast(a);
    WithoutLast(b);
  }

  /** There is only one ascending arrangement. */
  lemma {:induction false} SortUnique(a: seq<HashKey>, b: seq<HashKey>)
    requires Ascending(a) && Ascending(b) && multiset(a) == multiset(b)
    ensures a == b
    decreases |a|
  {
    if a == [] {
      assert |multiset(b)| == 0;
    } else {
      SameGreatest(a, b);
      SortUnique(a[..|a| - 1], b[..|b| - 1]);
    }
  }

  /** s without the members of out. */
  function Drop<T(==,!new)>(s: seq<T>, out: set<T>): (r: seq<T>)
    ensures forall x :: x in r <==> x in s && x !in out
  {
    if s == [] then []
    else
      var r := Drop(s[..|s| - 1], out);
      assert s == s[..|s| - 1] + [s[|s| - 1]];
      if s[|s| - 1] in out then r else r + [s[|s| - 1]]
  }

  lemma {:induction false} DropCount<T(!new)>(s: seq<T>, out: set<T>, x: T)
    ensures multiset(Drop(s, out))[x] == if x in out then 0 else multiset(s)[x]
  {
    if s != [] {
      DropCount(s[..|s| - 1], out, x);
      assert s == s[..|s| - 1] + [s[|s| - 1]];
    }
  }

  lemma {:induction false} DropLength<T(!new)>(s: seq<T>, out: set<T>)
    ensures |Drop(s, out)| <= |s|
    ensures |Drop(s, out)| == |s| <==> forall x :: x in s ==> x !in out
    ensures |Drop(s, out)| == |s| ==> Drop(s, out) == s
  {
    if s != [] {
      DropLength(s[..|s| - 1], out);
      assert s == s[..|s| - 1] + [s[|s| - 1]];
      assert s[|s| - 1] in s;
    }
  }

  lemma {:induction false} DropConcat<T(!new)>(a: seq<T>, b: seq<T>, out: set<T>)
    ensures Drop(a + b, out) == Drop(a, out) + Drop(b, out)
  {
    if b == [] {
      assert a + b == a;
    } else {
      assert (a + b)[..|a + b| - 1] == a + b[..|b| - 1];
      DropConcat(a, b[..|b| - 1], out);
    }
  }

  lemma {:induction false} DropAscending(s: seq<HashKey>, out: set<HashKey>)
    requires Ascending(s)
    ensures Ascending(Drop(s, out))
  {
    if s != [] {
      DropAscending(s[..|s| - 1], out);
      var r := Drop(s[..|s| - 1], out);
      assert forall i :: 0 <= i < |r| ==> r[i] in r;
    }
  }

  /** The members of s in the order of their first appearance. */
  function Distinct<T(==,!new)>(s: seq<T>): (r: seq<T>)
    ensures forall x :: x in r <==> x in s
    ensures NoDuplicates(r)
    ensures |r| <= |s|
  {
    if s == [] then []
    else
      var r := Distinct(s[..|s| - 1]);
      assert s == s[..|s| - 1] + [s[|s| - 1]];
      if s[|s| - 1] in r then r else r + [s[|s| - 1]]
  }

  lemma DistinctSnoc<T(!new)>(s: seq<T>, n: nat)
    requires n < |s|
    ensures Distinct(s[..n + 1]) == if s[n] in Distinct(s[..n]) then Distinct(s[..n]) else Distinct(s[..n]) + [s[n]]
  {
    assert s[..n + 1][..n] == s[..n];
  }

  lemma {:induction false} DistinctOfDrop<T(!new)>(s: seq<T>, out: set<T>)
    ensures Distinct(Drop(s, out)) == Drop(Distinct(s), out)
  {
    if s != [] {
      var init, x := s[..|s| - 1], s[|s| - 1];
      DistinctOfDrop(init, out);
      if x !in out {
        assert (Drop(init, out) + [x])[..|Drop(init, out)|] == Drop(init, out);
      }
      if x !in Distinct(init) {
        assert (Distinct(init) + [x])[..|Distinct(init)|] == Distinct(init);
      }
    }
  }

  lemma {:induction false} DistinctGrows<T(!new)>(s: seq<T>, n: nat)
    requires n <= |s|
    ensures Distinct(s[..n]) <= Distinct(s)
  {
    if n == |s| {
      assert s[..n] == s;
    } else {
      assert s[..|s| - 1][..n] == s[..n];
      DistinctGrows(s[..|s| - 1], n);
    }
  }

  /** An earlier member of Distinct(s) appears in s before any later member does. */
  lemma {:induction false} DistinctOrder<T(!new)>(s: seq<T>, i: nat, j: nat) returns (t: nat)
    requires i < j < |Distinct(s)|
    ensures t < |s| && s[t] == Distinct(s)[i] && forall u :: 0 <= u <= t ==> s[u] != Distinct(s)[j]
  {
    var init, x := s[..|s| - 1], s[|s| - 1];
    if j < |Distinct(init)| {
      t := DistinctOrder(init, i, j);
    } else {
      assert Distinct(init)[i] in init;
      t :| 0 <= t < |init| && init[t] == Distinct(init)[i];
      assert forall u :: 0 <= u <= t ==> s[u] == init[u] && init[u] in init;
    }
  }

  lemma SmallerSet<T>(a: set<T>, b: set<T>, x: T)
    requires a <= b && x in b && x !in a
    ensures |a| < |b|
  {
    assert |b - a| > 0;
  }
}
