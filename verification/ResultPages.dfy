/** Result pages in a total order, and the client's loop that collects them all. */
module ResultPages {
  import opened Wrappers

  /** A stored result, as far as ordering looks at it; ids are compared as numbers. */
  datatype Result = Result(id: nat, item: nat, variant: nat, quality: Option<real>, latency: Option<real>,
          tokens: Option<int>)

  datatype Sort = Default | Quality(descending: bool) | Latency(descending: bool) | Tokens(descending: bool)

  function Key(sort: Sort, r: Result): Option<real> {
    match sort
    case Default => None
    case Quality(_) => r.quality
    case Latency(_) => r.latency
    case Tokens(_) => if r.tokens.Some? then Some(r.tokens.value as real) else None
  }

  /** Missing keys last whatever the direction; ties by id. */
  predicate KeyBefore(a: Option<real>, b: Option<real>, descending: bool, tie: bool) {
    match (a, b)
    case (Some(x), Some(y)) => if x == y then tie else (x < y) != descending
    case (Some(_), None) => true
    case (None, Some(_)) => false
    case (None, None) => tie
  }

  predicate Before(sort: Sort, a: Result, b: Result) {
    match sort
    case Default => a.item < b.item ||
        (a.item == b.item && (a.variant < b.variant || (a.variant == b.variant && a.id < b.id)))
    case _ => KeyBefore(Key(sort, a), Key(sort, b), sort.descending, a.id < b.id)
  }

  /** In all seven orders: strict, and total on results with different ids. */
  lemma StrictTotalOrder(sort: Sort, a: Result, b: Result, c: Result)
    ensures !(Before(sort, a, b) && Before(sort, b, a))
    ensures Before(sort, a, b) && Before(sort, b, c) ==> Before(sort, a, c)
    ensures a.id != b.id ==> Before(sort, a, b) || Before(sort, b, a)
  {
  }

  /** Ids are the primary key. */
  ghost predicate DistinctIds(rows: set<Result>) {
    forall a, b :: a in rows && b in rows && a.id == b.id ==> a == b
  }

  ghost predicate Sorted(sort: Sort, s: seq<Result>) {
    forall i, j :: 0 <= i < j < |s| ==> Before(sort, s[i], s[j])
  }

  /** Exactly the rows, in order. */
  ghost predicate Lists(s: seq<Result>, rows: set<Result>, sort: Sort) {
    Sorted(sort, s) && (forall r :: r in rows <==> r in s)
  }

  predicate IsFirst(rows: set<Result>, sort: Sort, first: Result) {
    first in rows && forall r :: r in rows ==> r == first || Before(sort, first, r)
  }

  lemma {:induction false} FirstExists(rows: set<Result>, sort: Sort)
    requires rows != {} && DistinctIds(rows)
    ensures exists first :: IsFirst(rows, sort, first)
    decreases |rows|
  {
    var some :| some in rows;
    var rest := rows - {some};
    if rest == {} {
      assert rows == {some};
      assert IsFirst(rows, sort, some);
    } else {
      FirstExists(rest, sort);
      var first :| IsFirst(rest, sort, first);
      forall r | r in rows ensures Before(sort, some, first) && r != some ==> Before(sort, some, r) {
        StrictTotalOrder(sort, some, first, r);
      }
      StrictTotalOrder(sort, some, first, first);
      assert IsFirst(rows, sort, if Before(sort, some, first) then some else first);
    }
  }

  /** `ORDER BY` with the id last: a list of the rows in order. */
  method OrderResults(rows: set<Result>, sort: Sort) returns (s: seq<Result>)
    requires DistinctIds(rows)
    ensures Lists(s, rows, sort) && |s| == |rows|
  {
    s := [];
    var rest := rows;
    while rest != {}
      invariant rest <= rows && |s| + |rest| == |rows|
      invariant Sorted(sort, s)
      invariant forall r :: r in rows <==> r in s || r in rest
      invariant forall k, r :: 0 <= k < |s| && r in rest ==> Before(sort, s[k], r)
      decreases |rest|
    {
      FirstExists(rest, sort);
      var first :| IsFirst(rest, sort, first);
      rest := rest - {first};
      s := s + [first];
    }
  }

  /** The order leaves no freedom: equal sets are listed equally. */
  lemma {:induction false} ListingUnique(a: seq<Result>, b: seq<Result>, rows: set<Result>, sort: Sort)
    requires Lists(a, rows, sort) && Lists(b, rows, sort)
    ensures a == b
    decreases |a|
  {
    EmptyIff(a, rows, sort);
    EmptyIff(b, rows, sort);
    if a != [] {
      SameFirst(a, b, rows, sort);
      DropFirst(a, rows, sort);
      DropFirst(b, rows, sort);
      ListingUnique(a[1..], b[1..], rows - {a[0]}, sort);
    }
  }

  lemma EmptyIff(s: seq<Result>, rows: set<Result>, sort: Sort)
    requires Lists(s, rows, sort)
    ensures s == [] <==> rows == {}
  {
    assert s != [] ==> s[0] in rows;
    assert forall r :: r in rows ==> r in s;
  }

  lemma SameFirst(a: seq<Result>, b: seq<Result>, rows: set<Result>, sort: Sort)
    requires Lists(a, rows, sort) && Lists(b, rows, sort) && a != [] && b != []
    ensures a[0] == b[0]
  {
    assert a[0] in rows && b[0] in rows;
    var i :| 0 <= i < |b| && b[i] == a[0];
    var j :| 0 <= j < |a| && a[j] == b[0];
    StrictTotalOrder(sort, a[0], b[0], b[0]);
  }

  lemma DropFirst(s: seq<Result>, rows: set<Result>, sort: Sort)
    requires Lists(s, rows, sort) && s != []
    ensures Lists(s[1..], rows - {s[0]}, sort)
  {
    RemoveAt(s, 0, rows, sort);
    assert s[..0] + s[1..] == s[1..];
  }

  lemma RemoveAt(s: seq<Result>, p: nat, rows: set<Result>, sort: Sort)
    requires Lists(s, rows, sort) && p < |s|
    ensures Lists(s[..p] + s[p + 1..], rows - {s[p]}, sort)
  {
    forall r ensures r in rows - {s[p]} <==> r in s[..p] + s[p + 1..] {
      RemainsIff(s, p, r, sort);
    }
    var t := s[..p] + s[p + 1..];
    assert forall k :: 0 <= k < |t| ==> t[k] == s[if k < p then k else k + 1];
  }

  lemma RemainsIff(s: seq<Result>, p: nat, r: Result, sort: Sort)
    requires Sorted(sort, s) && p < |s|
    ensures r in s[..p] + s[p + 1..] <==> r in s && r != s[p]
  {
    forall i | 0 <= i < |s| && i != p ensures s[i] != s[p] {
      StrictTotalOrder(sort, s[i], s[p], s[p]);
    }
    assert s == s[..p] + [s[p]] + s[p + 1..];
  }

  /** Two keys in a listing: missing ones last in both directions, the others the way the sort runs. */
  ghost predicate InOrder(a: Option<real>, b: Option<real>, descending: bool) {
    && (b.Some? ==> a.Some?)
    && (a.Some? && b.Some? ==> if descending then a.value >= b.value else a.value <= b.value)
  }

  /** The default order runs by item, then variant, then id. */
  lemma DefaultListingReads(s: seq<Result>, rows: set<Result>, i: nat, j: nat)
    requires Lists(s, rows, Default) && i < j < |s|
    ensures s[i].item <= s[j].item
    ensures s[i].item == s[j].item ==> s[i].variant <= s[j].variant
    ensures s[i].item == s[j].item && s[i].variant == s[j].variant ==> s[i].id < s[j].id
  {
    assert Before(Default, s[i], s[j]);
  }

  /** The three keyed orders in both directions run by quality, latency and tokens; ties by id. */
  lemma KeyedListingReads(s: seq<Result>, rows: set<Result>, descending: bool, i: nat, j: nat)
    requires i < j < |s|
    ensures Lists(s, rows, Quality(descending)) ==>
              InOrder(s[i].quality, s[j].quality, descending) && (s[i].quality == s[j].quality ==> s[i].id < s[j].id)
    ensures Lists(s, rows, Latency(descending)) ==>
              InOrder(s[i].latency, s[j].latency, descending) && (s[i].latency == s[j].latency ==> s[i].id < s[j].id)
    ensures Lists(s, rows, Tokens(descending)) ==>
              && (s[j].tokens.Some? ==> s[i].tokens.Some?)
              && (s[i].tokens.Some? && s[j].tokens.Some? && descending ==> s[i].tokens.value >= s[j].tokens.value)
              && (s[i].tokens.Some? && s[j].tokens.Some? && !descending ==> s[i].tokens.value <= s[j].tokens.value)
              && (s[i].tokens == s[j].tokens ==> s[i].id < s[j].id)
  {
    assert Lists(s, rows, Quality(descending)) ==> Before(Quality(descending), s[i], s[j]);
    assert Lists(s, rows, Latency(descending)) ==> Before(Latency(descending), s[i], s[j]);
    assert Lists(s, rows, Tokens(descending)) ==> Before(Tokens(descending), s[i], s[j]);
  }

  // ---------------------------------------------------------------- pages

  datatype Page = Page(items: seq<Result>, total: nat, hasMore: bool)

  /** `OFFSET` and `LIMIT` on a list. */
  function Slice(s: seq<Result>, offset: nat, limit: nat): seq<Result> {
    if |s| <= offset then []
    else if |s| <= offset + limit then s[offset..]
    else s[offset..offset + limit]
  }

  method GetPage(rows: set<Result>, sort: Sort, offset: nat, limit: nat) returns (page: Page)
    requires DistinctIds(rows)
    ensures page.total == |rows|
    ensures forall s :: Lists(s, rows, sort) ==> page.items == Slice(s, offset, limit)
    ensures |page.items| <= limit
    ensures |rows| <= offset ==> page.items == []
    ensures offset < |rows| <= offset + limit ==> |page.items| == |rows| - offset
    ensures offset + limit < |rows| ==> |page.items| == limit
    ensures forall s, k :: Lists(s, rows, sort) && 0 <= k < |page.items| ==>
              offset + k < |s| && page.items[k] == s[offset + k]
    ensures page.hasMore <==> offset + limit < |rows|
  {
    var s := OrderResults(rows, sort);
    forall s' | Lists(s', rows, sort) ensures s' == s {
      ListingUnique(s', s, rows, sort);
    }
    var items := Slice(s, offset, limit);
    page := Page(items, |rows|, offset + |items| < |rows|);
  }

  /**
   The export loop on a fixed set of results, for any page size: it stops, its error is never
   raised, and what it collects is the whole list in order.
   */
  method FetchAllRunResults(rows: set<Result>, sort: Sort, limit: nat) returns (results: seq<Result>, raised: bool)
    requires DistinctIds(rows) && limit >= 1
    ensures !raised
    ensures Lists(results, rows, sort) && |results| == |rows|
  {
    ghost var listing := OrderResults(rows, sort);
    results := [];
    var offset := 0;
    while true
      invariant offset <= |listing| && results == listing[..offset]
      decreases |rows| - offset
    {
      var page := GetPage(rows, sort, offset, limit);
      results := results + page.items;
      if !page.hasMore {
        return results, false;
      }
      offset := offset + |page.items|;
      if page.items == [] {
        return results, true;
      }
    }
  }

  /**
   A result stored while the export runs: everything from its place on moves down by one, so the
   next page begins with a row already collected exactly when the new row sorts before the offset.
   */
  lemma ArrivalShifts(s: seq<Result>, s': seq<Result>, rows: set<Result>, p: nat, offset: nat, sort: Sort)
    requires p < |s'| && s'[p] !in rows
    requires Lists(s, rows, sort) && Lists(s', rows + {s'[p]}, sort)
    requires 0 < offset < |s'|
    ensures |s'| == |s| + 1 && s' == s[..p] + [s'[p]] + s[p..]
    ensures s'[offset] in s[..offset] <==> p < offset
  {
    var x := s'[p];
    RemoveAt(s', p, rows + {x}, sort);
    assert rows + {x} - {x} == rows;
    ListingUnique(s, s'[..p] + s'[p + 1..], rows, sort);
    if p < offset {
      assert s'[offset] == s[offset - 1];
      assert s[..offset][offset - 1] == s[offset - 1];
    } else {
      forall k | 0 <= k < offset ensures s[k] != s'[offset] {
        assert s'[k] == s[k];
        StrictTotalOrder(sort, s'[k], s'[offset], s'[offset]);
      }
    }
  }
}
