/**
 * The quantities `render()` derives from the sorted rows before drawing:
 * the total capacity (`d3.sum`), the padded cost domain of the vertical scale
 * (`d3.min`/`d3.max` with 40 units either side) and the running sum of scaled
 * capacities of `getPreviousXLength`. The d3 scales themselves are parameters:
 * `xA` is characterised by IsXScale and `y` by NonIncreasing.
 */
module Scales {
  import opened Wrappers
  import opened Rows
  import opened Sorting

  /** `d3.sum(sorted, d => d.abatement_Capacity)`: a left-to-right running sum from 0. */
  function TotalCapacity(rows: seq<Row>): (total: real)
  {
    if |rows| == 0 then 0.0
    else TotalCapacity(rows[..|rows| - 1]) + rows[|rows| - 1].abatementCapacity
  }

  /** The total of a concatenation is the sum of the totals. */
  lemma {:induction false} TotalCapacityAppend(a: seq<Row>, b: seq<Row>)
    ensures TotalCapacity(a + b) == TotalCapacity(a) + TotalCapacity(b)
    decreases |b|
  {
    if |b| == 0 {
      assert a + b == a;
    } else {
      var init := b[..|b| - 1];
      TotalCapacityAppend(a, init);
      assert (a + b)[..|a + b| - 1] == a + init;
    }
  }

  /** Inserting a row into the sorted sequence adds its capacity to the total. */
  lemma {:induction false} TotalCapacityOfInsert(r: Row, s: seq<Row>)
    requires SortedByCost(s)
    ensures TotalCapacity(Insert(r, s)) == r.abatementCapacity + TotalCapacity(s)
    decreases |s|
  {
    TotalCapacityAppend([r], s);
    assert TotalCapacity([r]) == TotalCapacity([r][..0]) + r.abatementCapacity;
    if |s| > 0 && s[0].marginalAbatementCost < r.marginalAbatementCost {
      TotalCapacityOfInsert(r, s[1..]);
      TotalCapacityAppend([s[0]], Insert(r, s[1..]));
      TotalCapacityAppend([s[0]], s[1..]);
      assert s == [s[0]] + s[1..];
      assert TotalCapacity([s[0]]) == TotalCapacity([s[0]][..0]) + s[0].abatementCapacity;
    }
  }

  /** Sorting does not change the total capacity. */
  lemma {:induction false} TotalCapacityOfSort(s: seq<Row>)
    ensures TotalCapacity(SortByCost(s)) == TotalCapacity(s)
    decreases |s|
  {
    if |s| > 0 {
      TotalCapacityOfSort(s[1..]);
      TotalCapacityOfInsert(s[0], SortByCost(s[1..]));
      TotalCapacityAppend([s[0]], s[1..]);
      assert s == [s[0]] + s[1..];
      assert TotalCapacity([s[0]]) == TotalCapacity([s[0]][..0]) + s[0].abatementCapacity;
    }
  }

  /** The reduce of `getPreviousXLength`: the scaled capacities of `rows` summed left to right from 0. */
  function ScaledWidth(xA: real -> real, rows: seq<Row>): (width: real)
  {
    if |rows| == 0 then 0.0
    else ScaledWidth(xA, rows[..|rows| - 1]) + xA(rows[|rows| - 1].abatementCapacity)
  }

  /**
   * `getPreviousXLength(xA, rows, index)`: the scaled width of the rows strictly
   * before `index`. `slice(0, index)` clamps an index past the end.
   */
  function PreviousXLength(xA: real -> real, rows: seq<Row>, index: nat): (length: real)
  {
    ScaledWidth(xA, rows[..if index <= |rows| then index else |rows|])
  }

  /** Each step of the running sum adds exactly the scaled width of one more row. */
  lemma PreviousXLengthStep(xA: real -> real, rows: seq<Row>, index: nat)
    requires index < |rows|
    ensures PreviousXLength(xA, rows, 0) == 0.0
    ensures PreviousXLength(xA, rows, index + 1)
         == PreviousXLength(xA, rows, index) + xA(rows[index].abatementCapacity)
  {
    assert rows[..index + 1][..index] == rows[..index];
  }

  /** The pixels per unit of capacity of `xA`: the range `[0, svgWidth - 50]` over the domain `[0, total]`. */
  function XScaleFactor(total: real, svgWidth: int): (factor: real)
    requires total != 0.0
  {
    (svgWidth - 50) as real / total
  }

  /**
   * `d3.scaleLinear().domain([0, total]).range([0, svgWidth - 50])` for a
   * positive total. What d3 does with a zero-width domain is not modelled.
   */
  ghost predicate IsXScale(xA: real -> real, total: real, svgWidth: int) {
    && total > 0.0
    && forall c :: xA(c) == c * XScaleFactor(total, svgWidth)
  }

  /** Sorting the rows leaves the horizontal scale's domain, the total capacity, unchanged. */
  lemma XScaleOfSorted(xA: real -> real, data: seq<Row>, svgWidth: int)
    requires IsXScale(xA, TotalCapacity(data), svgWidth)
    ensures IsXScale(xA, TotalCapacity(SortByCost(data)), svgWidth)
  {
    TotalCapacityOfSort(data);
  }

  /** A vertical scale whose range runs from the bottom (`svgHeight - 65`) up to 0. */
  ghost predicate NonIncreasing(y: real -> int) {
    forall a, b :: a <= b ==> y(b) <= y(a)
  }

  /** Over a range at least 0 px wide, the linear `xA` is monotone and keeps non-negative capacities non-negative. */
  lemma XScaleIsMonotone(xA: real -> real, total: real, svgWidth: int, a: real, b: real)
    requires IsXScale(xA, total, svgWidth) && svgWidth >= 50
    requires a <= b
    ensures xA(a) <= xA(b)
    ensures a >= 0.0 ==> xA(a) >= 0.0
  {
    var k := XScaleFactor(total, svgWidth);
    assert k >= 0.0;
    assert a * k <= b * k;
  }

  /** A linear `xA` scales the summed capacity by the same factor as each row. */
  lemma {:induction false} ScaledWidthIsLinear(xA: real -> real, total: real, svgWidth: int, rows: seq<Row>)
    requires IsXScale(xA, total, svgWidth)
    ensures ScaledWidth(xA, rows) == TotalCapacity(rows) * XScaleFactor(total, svgWidth)
    decreases |rows|
  {
    if |rows| > 0 {
      ScaledWidthIsLinear(xA, total, svgWidth, rows[..|rows| - 1]);
    }
  }

  /** With a linear `xA`, the running sum before `index` is the scaled capacity of the rows before it. */
  lemma PreviousXLengthIsScaledPrefix(xA: real -> real, total: real, svgWidth: int, rows: seq<Row>, index: nat)
    requires IsXScale(xA, total, svgWidth) && index <= |rows|
    ensures PreviousXLength(xA, rows, index) == xA(TotalCapacity(rows[..index]))
  {
    ScaledWidthIsLinear(xA, total, svgWidth, rows[..index]);
  }

  /** A sum of non-negative capacities is non-negative. */
  lemma {:induction false} TotalCapacityNonNegative(rows: seq<Row>)
    requires forall i :: 0 <= i < |rows| ==> rows[i].abatementCapacity >= 0.0
    ensures TotalCapacity(rows) >= 0.0
    decreases |rows|
  {
    if |rows| > 0 {
      TotalCapacityNonNegative(rows[..|rows| - 1]);
    }
  }

  /** With a linear `xA` over the total capacity, the last row's scaled width ends at the range end `svgWidth - 50`. */
  lemma ScaledRowsFillRange(xA: real -> real, rows: seq<Row>, svgWidth: int)
    requires IsXScale(xA, TotalCapacity(rows), svgWidth) && |rows| > 0
    ensures PreviousXLength(xA, rows, |rows| - 1) + xA(rows[|rows| - 1].abatementCapacity) == (svgWidth - 50) as real
  {
    var total, n := TotalCapacity(rows), |rows|;
    PreviousXLengthStep(xA, rows, n - 1);
    PreviousXLengthIsScaledPrefix(xA, total, svgWidth, rows, n);
    assert rows[..n] == rows;
    ScaleOfTotalIsRangeEnd(xA, total, svgWidth);
  }

  /** A linear scale sends the total capacity to the end of its range. */
  lemma ScaleOfTotalIsRangeEnd(xA: real -> real, total: real, svgWidth: int)
    requires IsXScale(xA, total, svgWidth)
    ensures xA(total) == (svgWidth - 50) as real
  {
    assert xA(total) == total * XScaleFactor(total, svgWidth);
  }

  /** With a linear `xA` over a range at least 0 px wide and non-negative capacities, the running sum never decreases. */
  lemma PreviousXLengthIsMonotone(xA: real -> real, rows: seq<Row>, svgWidth: int, i: nat, j: nat)
    requires IsXScale(xA, TotalCapacity(rows), svgWidth) && svgWidth >= 50
    requires forall k :: 0 <= k < |rows| ==> rows[k].abatementCapacity >= 0.0
    requires i <= j <= |rows|
    ensures PreviousXLength(xA, rows, i) <= PreviousXLength(xA, rows, j)
  {
    var total := TotalCapacity(rows);
    assert rows[..j] == rows[..i] + rows[i..j];
    TotalCapacityAppend(rows[..i], rows[i..j]);
    TotalCapacityNonNegative(rows[i..j]);
    PreviousXLengthIsScaledPrefix(xA, total, svgWidth, rows, i);
    PreviousXLengthIsScaledPrefix(xA, total, svgWidth, rows, j);
    XScaleIsMonotone(xA, total, svgWidth, TotalCapacity(rows[..i]), TotalCapacity(rows[..j]));
  }

  /** The least cost among the rows (`d3.min`). */
  function MinCost(rows: seq<Row>): (m: real)
    requires |rows| > 0
    ensures forall i :: 0 <= i < |rows| ==> m <= rows[i].marginalAbatementCost
  {
    if |rows| == 1 then rows[0].marginalAbatementCost
    else
      var rest := MinCost(rows[1..]);
      assert forall i :: 1 <= i < |rows| ==> rows[i] == rows[1..][i - 1];
      if rows[0].marginalAbatementCost <= rest then rows[0].marginalAbatementCost else rest
  }

  /** The greatest cost among the rows (`d3.max`). */
  function MaxCost(rows: seq<Row>): (m: real)
    requires |rows| > 0
    ensures forall i :: 0 <= i < |rows| ==> rows[i].marginalAbatementCost <= m
  {
    if |rows| == 1 then rows[0].marginalAbatementCost
    else
      var rest := MaxCost(rows[1..]);
      assert forall i :: 1 <= i < |rows| ==> rows[i] == rows[1..][i - 1];
      if rest <= rows[0].marginalAbatementCost then rows[0].marginalAbatementCost else rest
  }

  /** The least cost is the cost of some row. */
  lemma {:induction false} MinCostAttained(rows: seq<Row>)
    requires |rows| > 0
    ensures exists i :: 0 <= i < |rows| && MinCost(rows) == rows[i].marginalAbatementCost
  {
    if |rows| == 1 {
      assert MinCost(rows) == rows[0].marginalAbatementCost;
    } else {
      MinCostAttained(rows[1..]);
      var j :| 0 <= j < |rows[1..]| && MinCost(rows[1..]) == rows[1..][j].marginalAbatementCost;
      assert rows[1..][j] == rows[j + 1];
      if MinCost(rows) != rows[0].marginalAbatementCost {
        assert MinCost(rows) == rows[j + 1].marginalAbatementCost;
      }
    }
  }

  /** The greatest cost is the cost of some row. */
  lemma {:induction false} MaxCostAttained(rows: seq<Row>)
    requires |rows| > 0
    ensures exists i :: 0 <= i < |rows| && MaxCost(rows) == rows[i].marginalAbatementCost
  {
    if |rows| == 1 {
      assert MaxCost(rows) == rows[0].marginalAbatementCost;
    } else {
      MaxCostAttained(rows[1..]);
      var j :| 0 <= j < |rows[1..]| && MaxCost(rows[1..]) == rows[1..][j].marginalAbatementCost;
      assert rows[1..][j] == rows[j + 1];
      if MaxCost(rows) != rows[0].marginalAbatementCost {
        assert MaxCost(rows) == rows[j + 1].marginalAbatementCost;
      }
    }
  }

  /** The least and greatest cost depend only on which rows there are, not on their order. */
  lemma CostBoundsOfPermutation(a: seq<Row>, b: seq<Row>)
    requires |a| > 0 && multiset(a) == multiset(b)
    ensures |b| > 0
    ensures MinCost(a) == MinCost(b) && MaxCost(a) == MaxCost(b)
  {
    assert a[0] in multiset(b);
    MinCostAttained(a); MinCostAttained(b);
    MaxCostAttained(a); MaxCostAttained(b);
    var ia :| 0 <= ia < |a| && a[ia].marginalAbatementCost == MinCost(a);
    var ib :| 0 <= ib < |b| && b[ib].marginalAbatementCost == MinCost(b);
    var ja :| 0 <= ja < |a| && a[ja].marginalAbatementCost == MaxCost(a);
    var jb :| 0 <= jb < |b| && b[jb].marginalAbatementCost == MaxCost(b);
    assert a[ia] in multiset(b) && a[ja] in multiset(b);
    assert b[ib] in multiset(a) && b[jb] in multiset(a);
  }

  datatype Interval = Interval(lo: real, hi: real)

  /**
   * The domain given to `y`: `[min cost - 40, max cost + 40]`. With no rows
   * `d3.min` and `d3.max` are `undefined` and the domain is NaN, modelled as None.
   */
  function YDomain(rows: seq<Row>): (d: Option<Interval>)
    ensures d.None? <==> |rows| == 0
    ensures d.Some? ==> forall i :: 0 <= i < |rows| ==>
      d.value.lo + 40.0 <= rows[i].marginalAbatementCost <= d.value.hi - 40.0
    ensures d.Some? ==> d.value.hi - d.value.lo >= 80.0
    ensures d.Some? ==> exists i :: 0 <= i < |rows| && d.value.lo == rows[i].marginalAbatementCost - 40.0
    ensures d.Some? ==> exists i :: 0 <= i < |rows| && d.value.hi == rows[i].marginalAbatementCost + 40.0
  {
    if |rows| == 0 then None
    else
      MinCostAttained(rows);
      MaxCostAttained(rows);
      Some(Interval(MinCost(rows) - 40.0, MaxCost(rows) + 40.0))
  }

  /**
   * The domain's ends, read off YDomain's contract alone: the least cost
   * minus 40 and the greatest cost plus 40.
   */
  lemma YDomainEnds(rows: seq<Row>)
    requires |rows| > 0
    ensures YDomain(rows) == Some(Interval(MinCost(rows) - 40.0, MaxCost(rows) + 40.0))
  {
    var d := YDomain(rows);
    var i :| 0 <= i < |rows| && d.value.lo == rows[i].marginalAbatementCost - 40.0;
    var j :| 0 <= j < |rows| && d.value.hi == rows[j].marginalAbatementCost + 40.0;
    MinCostAttained(rows);
    MaxCostAttained(rows);
    var m :| 0 <= m < |rows| && MinCost(rows) == rows[m].marginalAbatementCost;
    var n :| 0 <= n < |rows| && MaxCost(rows) == rows[n].marginalAbatementCost;
    assert d.value.lo + 40.0 <= rows[m].marginalAbatementCost <= rows[i].marginalAbatementCost;
    assert d.value.hi - 40.0 >= rows[n].marginalAbatementCost >= rows[j].marginalAbatementCost;
    assert d.value == Interval(MinCost(rows) - 40.0, MaxCost(rows) + 40.0);
  }

  /** Reordering the rows leaves the padded vertical domain unchanged. */
  lemma YDomainOfPermutation(a: seq<Row>, b: seq<Row>)
    requires |a| > 0 && multiset(a) == multiset(b)
    ensures YDomain(b) == Some(Interval(MinCost(a) - 40.0, MaxCost(a) + 40.0))
  {
    CostBoundsOfPermutation(a, b);
    YDomainEnds(b);
  }


  /** Every row of a reordering lies strictly inside the padded domain of the original rows. */
  lemma PermutationInsidePaddedDomain(a: seq<Row>, b: seq<Row>)
    requires |a| > 0 && multiset(a) == multiset(b)
    ensures forall i :: 0 <= i < |b| ==>
      MinCost(a) - 40.0 < b[i].marginalAbatementCost < MaxCost(a) + 40.0
  {
    forall i | 0 <= i < |b|
      ensures MinCost(a) - 40.0 < b[i].marginalAbatementCost < MaxCost(a) + 40.0
    {
      assert b[i] in multiset(a);
      var j :| 0 <= j < |a| && a[j] == b[i];
    }
  }
}
