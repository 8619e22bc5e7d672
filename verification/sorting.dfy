/**
 * The in-place `data.sort((a, b) => a.marginal_Abatement_Cost - b.marginal_Abatement_Cost)`
 * of `render()`, as a pure function. ECMA-262 (10th edition, section
 * 22.1.3.27, Array.prototype.sort) requires the sort to be stable, so the
 * result is the ascending-by-cost order in which rows of equal cost keep
 * their input order; this module proves that such an order is unique.
 */
module Sorting {
  import opened Rows

  /** Every row costs no more than every row after it. */
  ghost predicate SortedByCost(s: seq<Row>) {
    forall i, j :: 0 <= i < j < |s| ==> s[i].marginalAbatementCost <= s[j].marginalAbatementCost
  }

  /** The rows of `s` whose cost is `c`, in the order `s` lists them. */
  function WithCost(s: seq<Row>, c: real): (w: seq<Row>)
  {
    if |s| == 0 then []
    else (if s[0].marginalAbatementCost == c then [s[0]] else []) + WithCost(s[1..], c)
  }

  /** WithCost keeps exactly the rows of cost `c`. */
  lemma {:induction false} WithCostMembers(s: seq<Row>, c: real, x: Row)
    ensures x in WithCost(s, c) <==> x in s && x.marginalAbatementCost == c
  {
    if |s| > 0 {
      WithCostMembers(s[1..], c, x);
      assert s == [s[0]] + s[1..];
    }
  }

  /** WithCost of a sequence with a given first row. */
  lemma WithCostCons(r: Row, s: seq<Row>, c: real)
    ensures WithCost([r] + s, c) == (if r.marginalAbatementCost == c then [r] else []) + WithCost(s, c)
  {
    assert ([r] + s)[1..] == s;
  }

  /**
   * A stable ascending sort: ascending by cost, and for every cost the rows of
   * that cost appear in the same relative order as in the input.
   */
  ghost predicate IsStableSortOf(t: seq<Row>, s: seq<Row>) {
    && SortedByCost(t)
    && forall c :: WithCost(t, c) == WithCost(s, c)
  }

  /**
   * Inserts `r` into the sorted `s` in front of every row that costs at least
   * as much, which keeps `r` ahead of the rows it preceded in the input.
   */
  function Insert(r: Row, s: seq<Row>): (t: seq<Row>)
    requires SortedByCost(s)
    ensures SortedByCost(t)
    ensures multiset(t) == multiset(s) + multiset{r}
    ensures forall c :: WithCost(t, c) == (if r.marginalAbatementCost == c then [r] else []) + WithCost(s, c)
  {
    if |s| == 0 || r.marginalAbatementCost <= s[0].marginalAbatementCost then
      InsertFrontKeepsWithCost(r, s);
      [r] + s
    else
      var rest := Insert(r, s[1..]);
      InsertBehindKeepsSorted(r, s, rest);
      InsertBehindKeepsWithCost(r, s, rest);
      assert s == [s[0]] + s[1..];
      [s[0]] + rest
  }

  lemma InsertFrontKeepsWithCost(r: Row, s: seq<Row>)
    ensures forall c :: WithCost([r] + s, c) == (if r.marginalAbatementCost == c then [r] else []) + WithCost(s, c)
  {
    forall c {
      WithCostCons(r, s, c);
    }
  }

  /** Putting the cheapest row `s[0]` in front of `rest` keeps the order sorted. */
  lemma InsertBehindKeepsSorted(r: Row, s: seq<Row>, rest: seq<Row>)
    requires SortedByCost(s) && |s| > 0 && s[0].marginalAbatementCost < r.marginalAbatementCost
    requires SortedByCost(rest) && multiset(rest) == multiset(s[1..]) + multiset{r}
    ensures SortedByCost([s[0]] + rest)
  {
    forall j | 0 <= j < |rest|
      ensures s[0].marginalAbatementCost <= rest[j].marginalAbatementCost
    {
      assert rest[j] in multiset(rest);
      if rest[j] != r {
        assert rest[j] in multiset(s[1..]);
        var k :| 0 <= k < |s[1..]| && s[1..][k] == rest[j];
        assert s[k + 1] == rest[j];
      }
    }
  }

  /** A row cheaper than `r` and `r` itself never share a cost, so their order is free. */
  lemma InsertBehindKeepsWithCost(r: Row, s: seq<Row>, rest: seq<Row>)
    requires |s| > 0 && s[0].marginalAbatementCost < r.marginalAbatementCost
    requires forall c :: WithCost(rest, c) == (if r.marginalAbatementCost == c then [r] else []) + WithCost(s[1..], c)
    ensures forall c :: WithCost([s[0]] + rest, c) == (if r.marginalAbatementCost == c then [r] else []) + WithCost(s, c)
  {
    forall c
      ensures WithCost([s[0]] + rest, c) == (if r.marginalAbatementCost == c then [r] else []) + WithCost(s, c)
    {
      InsertBehindStep(r, s, rest, c, WithCost(rest, c));
    }
  }

  lemma InsertBehindStep(r: Row, s: seq<Row>, rest: seq<Row>, c: real, restWithCost: seq<Row>)
    requires |s| > 0 && s[0].marginalAbatementCost < r.marginalAbatementCost
    requires restWithCost == WithCost(rest, c)
    requires restWithCost == (if r.marginalAbatementCost == c then [r] else []) + WithCost(s[1..], c)
    ensures WithCost([s[0]] + rest, c) == (if r.marginalAbatementCost == c then [r] else []) + WithCost(s, c)
  {
    WithCostCons(s[0], rest, c);
    WithCostCons(s[0], s[1..], c);
    assert s == [s[0]] + s[1..];
  }

  /** The sorted array `render()` lays out, as a stable insertion sort. */
  function SortByCost(s: seq<Row>): (t: seq<Row>)
    ensures IsStableSortOf(t, s)
    ensures multiset(t) == multiset(s)
    ensures |t| == |s|
  {
    if |s| == 0 then []
    else
      var rest := SortByCost(s[1..]);
      InsertFirstKeepsStable(s, rest);
      assert s == [s[0]] + s[1..];
      Insert(s[0], rest)
  }

  /** Inserting the first input row into a stable sort of the others gives a stable sort of all. */
  lemma InsertFirstKeepsStable(s: seq<Row>, rest: seq<Row>)
    requires |s| > 0 && IsStableSortOf(rest, s[1..])
    ensures IsStableSortOf(Insert(s[0], rest), s)
  {
    var t := Insert(s[0], rest);
    forall c ensures WithCost(t, c) == WithCost(s, c) {
      WithCostCons(s[0], s[1..], c);
      assert s == [s[0]] + s[1..];
    }
  }

  /**
   * There is only one stable ascending order: two sorted sequences whose
   * rows of each cost agree, in order, are equal.
   */
  lemma {:induction false} StableSortIsUnique(a: seq<Row>, b: seq<Row>)
    requires SortedByCost(a) && SortedByCost(b)
    requires forall c :: WithCost(a, c) == WithCost(b, c)
    ensures a == b
    decreases |a|
  {
    if |a| > 0 {
      WithCostMembers(a, a[0].marginalAbatementCost, a[0]);
      WithCostMembers(b, a[0].marginalAbatementCost, a[0]);
    }
    if |b| > 0 {
      WithCostMembers(a, b[0].marginalAbatementCost, b[0]);
      WithCostMembers(b, b[0].marginalAbatementCost, b[0]);
    }
    if |a| > 0 && |b| > 0 {
      HeadsOfStableSortsAgree(a, b);
      WithCostOfTails(a, b);
      StableSortIsUnique(a[1..], b[1..]);
      assert a == [a[0]] + a[1..];
      assert b == [b[0]] + b[1..];
    }
  }

  /** Two ascending sequences with the same per-cost subsequences start with the same row. */
  lemma HeadsOfStableSortsAgree(a: seq<Row>, b: seq<Row>)
    requires |a| > 0 && |b| > 0
    requires SortedByCost(a) && SortedByCost(b)
    requires forall c :: WithCost(a, c) == WithCost(b, c)
    ensures a[0] == b[0]
  {
    var ma, mb := a[0].marginalAbatementCost, b[0].marginalAbatementCost;
    WithCostMembers(a, ma, a[0]);
    WithCostMembers(b, ma, a[0]);
    WithCostMembers(a, mb, b[0]);
    WithCostMembers(b, mb, b[0]);
    var k :| 0 <= k < |b| && b[k] == a[0];
    var m :| 0 <= m < |a| && a[m] == b[0];
    assert mb <= ma && ma <= mb;
    assert WithCost(a, ma)[0] == a[0];
    assert WithCost(b, ma)[0] == b[0];
  }

  /** Two sequences with the same head and the same per-cost subsequences have tails with the same per-cost subsequences. */
  lemma WithCostOfTails(a: seq<Row>, b: seq<Row>)
    requires |a| > 0 && |b| > 0 && a[0] == b[0]
    requires forall c :: WithCost(a, c) == WithCost(b, c)
    ensures forall c :: WithCost(a[1..], c) == WithCost(b[1..], c)
  {
    forall c ensures WithCost(a[1..], c) == WithCost(b[1..], c) {
      var head := if a[0].marginalAbatementCost == c then [a[0]] else [];
      assert WithCost(a, c) == head + WithCost(a[1..], c);
      assert WithCost(b, c) == head + WithCost(b[1..], c);
      assert WithCost(a[1..], c) == (head + WithCost(a[1..], c))[|head|..];
      assert WithCost(b[1..], c) == (head + WithCost(b[1..], c))[|head|..];
    }
  }

  /**
   * Any stable ascending sort of `s` (such as the engine's Array.prototype.sort)
   * returns exactly SortByCost(s).
   */
  lemma AnyStableSortIsSortByCost(t: seq<Row>, s: seq<Row>)
    requires IsStableSortOf(t, s)
    ensures t == SortByCost(s)
  {
    StableSortIsUnique(t, SortByCost(s));
  }

  /**
   * Sorting an already sorted sequence changes nothing, so the second
   * `data.sort` of `render()` returns the array the first one produced.
   */
  lemma SortTwiceIsSortOnce(s: seq<Row>)
    ensures SortByCost(SortByCost(s)) == SortByCost(s)
  {
    var once := SortByCost(s);
    StableSortIsUnique(SortByCost(once), once);
  }
}
