/** Sorting whose contract leaves the order of equal keys open, as the
    library sort the program uses does. */
module Sorting {

  ghost predicate Ascending<T>(s: seq<T>, key: T -> int) {
    forall i, j :: 0 <= i < j < |s| ==> key(s[i]) <= key(s[j])
  }

  method InsertSorted<T>(s: seq<T>, x: T, key: T -> int) returns (r: seq<T>)
    requires Ascending(s, key)
    ensures Ascending(r, key) && |r| == |s| + 1
    ensures multiset(r) == multiset(s) + multiset{x}
  {
    var p := |s|;
    while p > 0 && key(s[p - 1]) > key(x)
      invariant 0 <= p <= |s|
      invariant forall i :: p <= i < |s| ==> key(s[i]) > key(x)
    {
      p := p - 1;
    }
    r := s[..p] + [x] + s[p..];
    InsertedAt(s, p, x);
    InsertedInOrder(s, p, x, key);
  }

  lemma InsertedAt<T>(s: seq<T>, p: nat, x: T)
    requires p <= |s|
    ensures multiset(s[..p] + [x] + s[p..]) == multiset(s) + multiset{x}
  {
    assert s == s[..p] + s[p..];
  }

  lemma InsertedInOrder<T>(s: seq<T>, p: nat, x: T, key: T -> int)
    requires p <= |s| && Ascending(s, key)
    requires p > 0 ==> key(s[p - 1]) <= key(x)
    requires forall i :: p <= i < |s| ==> key(s[i]) > key(x)
    ensures Ascending(s[..p] + [x] + s[p..], key)
  {
    var r := s[..p] + [x] + s[p..];
    assert forall i :: 0 <= i < |r| ==> r[i] == if i < p then s[i] else if i == p then x else s[i - 1];
    assert forall i :: 0 <= i < p ==> key(s[i]) <= key(s[p - 1]);
  }

  method SortBy<T>(s: seq<T>, key: T -> int) returns (r: seq<T>)
    ensures multiset(r) == multiset(s) && |r| == |s|
    ensures Ascending(r, key)
  {
    r := [];
    for n := 0 to |s|
      invariant |r| == n && multiset(r) == multiset(s[..n]) && Ascending(r, key)
    {
      assert s[..n + 1] == s[..n] + [s[n]];
      r := InsertSorted(r, s[n], key);
    }
    assert s[..|s|] == s;
  }

  /** No two elements have the same key. */
  ghost predicate DistinctKeys<T, K>(s: seq<T>, key: T -> K) {
    forall i, j :: 0 <= i < j < |s| ==> key(s[i]) != key(s[j])
  }

  lemma WithoutOne<T>(s: seq<T>, i: nat)
    requires i < |s|
    ensures multiset(s[..i] + s[i + 1..]) == multiset(s) - multiset{s[i]}
  {
    assert s == s[..i] + [s[i]] + s[i + 1..];
  }

  lemma RestIsDistinct<T, K>(s: seq<T>, i: nat, key: T -> K)
    requires i < |s| && DistinctKeys(s, key)
    ensures var rest := s[..i] + s[i + 1..];
      DistinctKeys(rest, key) && forall x :: x in multiset(rest) ==> key(x) != key(s[i])
  {
    var rest := s[..i] + s[i + 1..];
    assert forall l :: 0 <= l < |rest| ==> rest[l] == if l < i then s[l] else s[l + 1];
    forall x | x in multiset(rest) ensures key(x) != key(s[i]) {
      var l :| 0 <= l < |rest| && rest[l] == x;
    }
  }

  /** Distinctness does not depend on the order. */
  lemma {:induction false} DistinctKeysPermute<T, K>(s: seq<T>, t: seq<T>, key: T -> K)
    requires multiset(s) == multiset(t) && DistinctKeys(s, key)
    ensures DistinctKeys(t, key)
    decreases |t|
  {
    hide DistinctKeys;
    if t == [] {
      EmptyIsDistinct(t, key);
    } else {
      var n := |t| - 1;
      assert t[n] in multiset(t);
      var i :| 0 <= i < |s| && s[i] == t[n];
      RestIsDistinct(s, i, key);
      WithoutOne(s, i);
      WithoutOne(t, n);
      assert t[..n] + t[n + 1..] == t[..n];
      DistinctKeysPermute(s[..i] + s[i + 1..], t[..n], key);
      ExtendDistinct(t[..n], t[n], key);
      assert t == t[..n] + [t[n]];
    }
  }

  lemma EmptyIsDistinct<T, K>(s: seq<T>, key: T -> K)
    requires s == []
    ensures DistinctKeys(s, key)
  {
  }

  lemma ExtendDistinct<T, K>(s: seq<T>, x: T, key: T -> K)
    requires DistinctKeys(s, key) && forall y :: y in multiset(s) ==> key(y) != key(x)
    ensures DistinctKeys(s + [x], key)
  {
    forall i | 0 <= i < |s| ensures key(s[i]) != key(x) {
      assert s[i] in multiset(s);
    }
  }
}
