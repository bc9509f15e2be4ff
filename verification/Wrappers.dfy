/** Small shared vocabulary: optional values and facts about finite collections. */
module Wrappers {
  datatype Option<+T> = None | Some(value: T)
}

module Collections {
  /** No element occurs twice. */
  ghost predicate Distinct<T>(s: seq<T>) {
    forall i, j :: 0 <= i < j < |s| ==> s[i] != s[j]
  }

  function Elements<T>(s: seq<T>): set<T> {
    set x | x in s
  }

  function Map<T, U>(f: T -> U, s: seq<T>): (r: seq<U>)
    ensures |r| == |s| && forall k :: 0 <= k < |s| ==> r[k] == f(s[k])
  {
    seq(|s|, k requires 0 <= k < |s| => f(s[k]))
  }

  lemma MapTakeOut<T, U>(f: T -> U, s: seq<T>, k: nat)
    requires k < |s|
    ensures multiset(Map(f, s[..k] + s[k + 1..])) == multiset(Map(f, s)) - multiset{f(s[k])}
    ensures f(s[k]) in multiset(Map(f, s))
  {
    TakeOutOf(Map(f, s), k);
    assert Map(f, s[..k] + s[k + 1..]) == Map(f, s)[..k] + Map(f, s)[k + 1..];
  }

  lemma PlaceOfFirst<T>(a: seq<T>, b: seq<T>) returns (k: nat)
    requires a != [] && multiset(a) == multiset(b)
    ensures k < |b| && b[k] == a[0]
    ensures multiset(a[..0] + a[1..]) == multiset(b[..k] + b[k + 1..])
  {
    assert a[0] in multiset(b);
    k :| 0 <= k < |b| && b[k] == a[0];
    TakeOutOf(a, 0);
    TakeOutOf(b, k);
  }

  lemma PutBack<T>(m: multiset<T>, n: multiset<T>, x: T)
    requires x in m && x in n && m - multiset{x} == n - multiset{x}
    ensures m == n
  {
    assert m == (m - multiset{x}) + multiset{x};
    assert n == (n - multiset{x}) + multiset{x};
  }

  /** Mapping commutes with reordering. */
  lemma {:induction false} MapPermutes<T, U>(f: T -> U, a: seq<T>, b: seq<T>)
    requires multiset(a) == multiset(b)
    ensures multiset(Map(f, a)) == multiset(Map(f, b))
    decreases |a|
  {
    if a == [] {
      assert |multiset(b)| == 0;
    } else {
      var k := PlaceOfFirst(a, b);
      MapPermutes(f, a[..0] + a[1..], b[..k] + b[k + 1..]);
      MapTakeOut(f, a, 0);
      MapTakeOut(f, b, k);
      PutBack(multiset(Map(f, a)), multiset(Map(f, b)), f(a[0]));
    }
  }

  lemma TakeOutOf<T>(s: seq<T>, k: nat)
    requires k < |s|
    ensures multiset(s[..k] + s[k + 1..]) == multiset(s) - multiset{s[k]}
    ensures s[k] in multiset(s)
  {
    assert s == s[..k] + [s[k]] + s[k + 1..];
  }

  /** The positions marked in a sequence of marks. */
  function Marked(marks: seq<bool>): set<nat> {
    set k: nat | k < |marks| && marks[k]
  }

  lemma MarkedGrows(marks: seq<bool>)
    requires marks != []
    ensures var last := |marks| - 1;
            |Marked(marks)| == |Marked(marks[..last])| + (if marks[last] then 1 else 0)
  {
    var last := |marks| - 1;
    var rest := Marked(marks[..last]);
    assert last !in rest;
    assert Marked(marks) == if marks[last] then rest + {last} else rest;
  }

  /** A duplicate-free sequence has as many entries as elements. */
  lemma {:induction false} DistinctCardinality<T>(s: seq<T>)
    requires Distinct(s)
    ensures |Elements(s)| == |s|
  {
    if s == [] {
      assert Elements(s) == {};
    } else {
      var rest := s[..|s| - 1];
      DistinctCardinality(rest);
      assert s == rest + [s[|s| - 1]];
      assert Elements(s) == Elements(rest) + {s[|s| - 1]};
    }
  }

  lemma SubsetCardinality<T>(a: set<T>, b: set<T>)
    requires a <= b
    ensures |a| <= |b|
    ensures |a| == |b| ==> a == b
  {
    assert b == a + (b - a);
  }

  /** The Cartesian product of two finite sets has the product of their sizes. */
  lemma {:induction false} ProductCardinality<A, B>(a: set<A>, b: set<B>, product: set<(A, B)>)
    requires product == set x, y | x in a && y in b :: (x, y)
    ensures |product| == |a| * |b|
  {
    if a == {} {
      assert product == {};
    } else {
      var x :| x in a;
      var rest := set x', y | x' in a - {x} && y in b :: (x', y);
      ProductCardinality(a - {x}, b, rest);
      ProductSplit(x, a, b, product, rest);
      Successor(|a - {x}|, |b|);
      assert a == (a - {x}) + {x};
    }
  }

  lemma ProductSplit<A, B>(x: A, a: set<A>, b: set<B>, product: set<(A, B)>, rest: set<(A, B)>)
    requires x in a
    requires product == set x', y | x' in a && y in b :: (x', y)
    requires rest == set x', y | x' in a - {x} && y in b :: (x', y)
    ensures |product| == |rest| + |b|
  {
    var row := set y | y in b :: (x, y);
    RowCardinality(x, b, row);
    assert product == row + rest;
    assert row !! rest;
  }

  lemma Successor(n: nat, m: nat)
    ensures (n + 1) * m == n * m + m
  {
  }

  lemma {:induction false} RowCardinality<A, B>(x: A, b: set<B>, row: set<(A, B)>)
    requires row == set y | y in b :: (x, y)
    ensures |row| == |b|
  {
    if b == {} {
      assert row == {};
    } else {
      var y :| y in b;
      var rest := set z | z in b - {y} :: (x, z);
      RowCardinality(x, b - {y}, rest);
      assert row == rest + {(x, y)};
    }
  }
}
