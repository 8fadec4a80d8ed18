/** Order, filtering and permutation facts about sequences that several components need. */
module Sequences {
  import opened Wrappers

  function Map<T, U>(f: T -> U, s: seq<T>): (r: seq<U>)
    ensures |r| == |s|
    ensures forall i | 0 <= i < |s| :: r[i] == f(s[i])
  {
    seq(|s|, i requires 0 <= i < |s| => f(s[i]))
  }

  function Filter<T>(keep: T -> bool, s: seq<T>): (r: seq<T>)
    ensures |r| <= |s|
    ensures forall i | 0 <= i < |r| :: keep(r[i])
  {
    if s == [] then []
    else if keep(s[0]) then [s[0]] + Filter(keep, s[1..])
    else Filter(keep, s[1..])
  }

  lemma FilterAll<T>(keep: T -> bool, s: seq<T>)
    requires forall i | 0 <= i < |s| :: keep(s[i])
    ensures Filter(keep, s) == s
  {
    if s != [] {
      FilterAll(keep, s[1..]);
    }
  }

  lemma FilterKeeps<T>(keep: T -> bool, s: seq<T>, x: T)
    ensures x in Filter(keep, s) <==> x in s && keep(x)
  {
    if s != [] {
      FilterKeeps(keep, s[1..], x);
    }
  }

  /** No element occurs twice. */
  predicate Distinct<T(==)>(s: seq<T>) {
    forall i, j | 0 <= i < j < |s| :: s[i] != s[j]
  }

  /** JavaScript's `[...new Set(s)]`: first occurrences, in order. */
  function Unique<T(==,!new)>(s: seq<T>): (r: seq<T>)
    ensures forall x :: x in r <==> x in s
  {
    if s == [] then []
    else
      var front := Unique(s[..|s| - 1]);
      assert forall x :: x in s <==> x in s[..|s| - 1] || x == s[|s| - 1] by {
        assert s == s[..|s| - 1] + [s[|s| - 1]];
      }
      if s[|s| - 1] in front then front else front + [s[|s| - 1]]
  }

  lemma {:induction false} UniqueHolds<T(!new)>(s: seq<T>, x: T)
    ensures x in Unique(s) <==> x in s
  {
    if s != [] { UniqueHolds(s[..|s| - 1], x); }
  }

  lemma {:induction false} UniqueIsDistinct<T(!new)>(s: seq<T>)
    ensures Distinct(Unique(s))
  {
    if s != [] {
      UniqueIsDistinct(s[..|s| - 1]);
    }
  }

  lemma FilterAppend<T>(keep: T -> bool, a: seq<T>, b: seq<T>)
    ensures Filter(keep, a + b) == Filter(keep, a) + Filter(keep, b)
  {
    if a == [] {
      assert a + b == b;
    } else {
      assert (a + b)[1..] == a[1..] + b;
      FilterAppend(keep, a[1..], b);
    }
  }

  /** `s` without the element at position `j`. */
  function Without<T>(s: seq<T>, j: nat): (r: seq<T>)
    requires j < |s|
    ensures |r| == |s| - 1
  {
    s[..j] + s[j + 1..]
  }

  lemma MapWithout<T, U>(f: T -> U, s: seq<T>, j: nat)
    requires j < |s|
    ensures multiset(Map(f, s)) == multiset(Map(f, Without(s, j))) + multiset{f(s[j])}
  {
    assert Map(f, s) == Map(f, s[..j]) + [f(s[j])] + Map(f, s[j + 1..]);
    assert Map(f, Without(s, j)) == Map(f, s[..j]) + Map(f, s[j + 1..]);
  }

  lemma {:induction false} FilterWithout<T>(keep: T -> bool, s: seq<T>, j: nat)
    requires j < |s|
    ensures multiset(Filter(keep, s)) ==
            multiset(Filter(keep, Without(s, j))) + (if keep(s[j]) then multiset{s[j]} else multiset{})
  {
    hide Filter;
    FilterHead(keep, s);
    if j == 0 {
      assert Without(s, 0) == s[1..];
    } else {
      FilterWithout(keep, s[1..], j - 1);
      assert Without(s, j)[0] == s[0] && Without(s, j)[1..] == Without(s[1..], j - 1);
      FilterHead(keep, Without(s, j));
    }
  }

  lemma FilterHead<T>(keep: T -> bool, s: seq<T>)
    requires s != []
    ensures Filter(keep, s) == (if keep(s[0]) then [s[0]] else []) + Filter(keep, s[1..])
  {
  }

  lemma MapHead<T, U>(f: T -> U, x: T, s: seq<T>)
    ensures Map(f, [x] + s) == [f(x)] + Map(f, s)
  {
  }

  /** Permuting a list permutes its image. */
  lemma {:induction false} MapMultiset<T, U>(f: T -> U, a: seq<T>, b: seq<T>)
    requires multiset(a) == multiset(b)
    ensures multiset(Map(f, a)) == multiset(Map(f, b))
    decreases |a|
  {
    SameSize(a, b);
    if a != [] {
      var j := Pair(a, b);
      MapMultiset(f, Without(a, 0), Without(b, j));
      MapWithout(f, a, 0);
      MapWithout(f, b, j);
    }
  }

  /** Permuting a list permutes what a filter keeps of it. */
  lemma {:induction false} FilterMultiset<T>(keep: T -> bool, a: seq<T>, b: seq<T>)
    requires multiset(a) == multiset(b)
    ensures multiset(Filter(keep, a)) == multiset(Filter(keep, b))
    decreases |a|
  {
    SameSize(a, b);
    if a != [] {
      var j := Pair(a, b);
      FilterMultiset(keep, Without(a, 0), Without(b, j));
      FilterWithout(keep, a, 0);
      FilterWithout(keep, b, j);
    }
  }

  lemma SameSize<T>(a: seq<T>, b: seq<T>)
    requires multiset(a) == multiset(b)
    ensures |a| == |b|
  {
    assert |a| == |multiset(a)| == |multiset(b)| == |b|;
  }

  /** Where the head of `a` sits in its permutation `b`. */
  lemma Pair<T>(a: seq<T>, b: seq<T>) returns (j: nat)
    requires a != [] && multiset(a) == multiset(b)
    ensures j < |b| && b[j] == a[0]
    ensures multiset(Without(a, 0)) == multiset(Without(b, j))
  {
    assert a[0] in multiset(a);
    assert a[0] in multiset(b);
    j :| 0 <= j < |b| && b[j] == a[0];
    WithoutMultiset(a, 0);
    WithoutMultiset(b, j);
  }

  lemma WithoutMultiset<T>(s: seq<T>, j: nat)
    requires j < |s|
    ensures multiset(Without(s, j)) == multiset(s) - multiset{s[j]}
  {
    assert s == s[..j] + [s[j]] + s[j + 1..];
  }

  predicate Descending(s: seq<real>) {
    forall i, j | 0 <= i < j < |s| :: s[i] >= s[j]
  }

  /** A descending list is determined by its multiset. */
  lemma {:induction false} DescendingIsUnique(a: seq<real>, b: seq<real>)
    requires Descending(a) && Descending(b)
    requires multiset(a) == multiset(b)
    ensures a == b
    decreases |a|
  {
    SameSize(a, b);
    if a != [] {
      SameHead(a, b);
      TailMultiset(a);
      TailMultiset(b);
      var a', b' := a[1..], b[1..];
      assert Descending(a') && Descending(b');
      DescendingIsUnique(a', b');
      assert a == [a[0]] + a' && b == [b[0]] + b';
    }
  }

  lemma TailMultiset<T>(s: seq<T>)
    requires s != []
    ensures multiset(s[1..]) == multiset(s) - multiset{s[0]}
  {
    assert s == [s[0]] + s[1..];
  }

  lemma SameHead(a: seq<real>, b: seq<real>)
    requires Descending(a) && Descending(b)
    requires multiset(a) == multiset(b) && a != [] && b != []
    ensures a[0] == b[0]
  {
    assert a[0] in multiset(b) && b[0] in multiset(a);
  }

  /** The position of the first element with the key `k`, or `|s|`: looking up a JavaScript Map kept in insertion
      order. */
  function Position<T>(key: T -> string, s: seq<T>, k: string): (n: nat)
    ensures n <= |s| && (n < |s| ==> key(s[n]) == k)
    ensures forall i | 0 <= i < n :: key(s[i]) != k
  {
    if s == [] || key(s[0]) == k then 0 else 1 + Position(key, s[1..], k)
  }

  /** `map.set(key(x), x)`: a known key keeps its place. */
  function Put<T>(key: T -> string, s: seq<T>, x: T): (r: seq<T>)
    ensures |s| <= |r| <= |s| + 1
    ensures forall i | 0 <= i < |s| :: key(r[i]) == key(s[i])
  {
    var n := Position(key, s, key(x));
    if n < |s| then s[n := x] else s + [x]
  }

  /** `map.get(k)` */
  function Lookup<T>(key: T -> string, s: seq<T>, k: string): Option<T> {
    var n := Position(key, s, k);
    if n < |s| then Some(s[n]) else None
  }

  lemma LookupPut<T>(key: T -> string, s: seq<T>, x: T, k: string)
    ensures Lookup(key, Put(key, s, x), k) == if k == key(x) then Some(x) else Lookup(key, s, k)
  {
    var r := Put(key, s, x);
    var n, m := Position(key, r, k), Position(key, s, k);
    if k == key(x) {
      assert key(r[m]) == k;
      assert !(n < m) && !(n > m);
    } else {
      assert n < |r| ==> n < |s| && key(s[n]) == k;
      assert m < |s| ==> r[m] == s[m];
      assert !(n < m) && !(m < n && m < |s|);
    }
  }
}
