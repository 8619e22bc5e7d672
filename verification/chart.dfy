/**
 * The geometry `render()` hands to the SVG: one bar and one bar label per
 * sorted row, and a legend container, one swatch and one legend label per
 * distinct category. Render is the whole layout pass as a pure function of
 * the rows, the surface size and the two d3 scales.
 */
module Chart {
  import opened Wrappers
  import opened Rows
  import opened Sorting
  import opened Categories
  import opened Scales

  datatype Bar = Bar(x: real, y: int, width: real, height: int, fill: Option<Color>)
  datatype BarLabel = BarLabel(x: real, y: int, text: string)
  datatype LegendBox = LegendBox(x: int, y: int, width: int, height: real)
  datatype Swatch = Swatch(x: int, y: int, width: int, height: int, fill: Option<Color>)
  datatype LegendLabel = LegendLabel(x: int, y: int, text: string)

  datatype Layout = Layout(
    svgWidth: int,
    svgHeight: int,
    sorted: seq<Row>,
    uniqueCategories: seq<string>,
    categories: seq<CategoryColor>,
    totalCapacity: real,
    yDomain: Option<Interval>,
    bars: seq<Bar>,
    labels: seq<BarLabel>,
    legendBox: LegendBox,
    swatches: seq<Swatch>,
    legendLabels: seq<LegendLabel>)

  const MarginTop: int := 15
  const MarginRight: int := 30
  const MarginBottom: int := 50
  const MarginLeft: int := 40
  /** The vertical pitch of the legend rows (`size`). */
  const LegendPitch: int := 12

  function MaxReal(a: real, b: real): (m: real) { if a < b then b else a }
  function MinInt(a: int, b: int): (m: int) { if a < b then a else b }
  function MaxInt(a: int, b: int): (m: int) { if a < b then b else a }
  function Abs(a: int): (m: int) { if a < 0 then -a else a }

  /** The rect of the bar for `sorted[i]`. */
  function BarOf(sorted: seq<Row>, i: nat, xA: real -> real, y: real -> int, cats: seq<CategoryColor>): (bar: Bar)
    requires i < |sorted|
  {
    var d := sorted[i];
    Bar(
      60.0 + PreviousXLength(xA, sorted, i),
      15 + y(MaxReal(0.0, d.marginalAbatementCost)),
      xA(d.abatementCapacity),
      Abs(y(d.marginalAbatementCost) - y(0.0)),
      GetColor(cats, d.category))
  }

  /** The text of the label for `sorted[i]`; its y omits the bar's 15 px offset. */
  function LabelOf(sorted: seq<Row>, i: nat, xA: real -> real, y: real -> int): (barLabel: BarLabel)
    requires i < |sorted|
  {
    var d := sorted[i];
    var labelY :=
      if d.marginalAbatementCost < 0.0 then
        y(MaxReal(0.0, d.marginalAbatementCost)) + Abs(y(d.marginalAbatementCost) - y(0.0)) + 25
      else
        y(MaxReal(0.0, d.marginalAbatementCost)) + 5;
    BarLabel(60.0 + PreviousXLength(xA, sorted, i) + 3.0, labelY, d.abatementAlternative)
  }

  function Bars(sorted: seq<Row>, xA: real -> real, y: real -> int, cats: seq<CategoryColor>): (bars: seq<Bar>)
  {
    seq(|sorted|, i requires 0 <= i < |sorted| => BarOf(sorted, i, xA, y, cats))
  }

  function Labels(sorted: seq<Row>, xA: real -> real, y: real -> int): (labels: seq<BarLabel>)
  {
    seq(|sorted|, i requires 0 <= i < |sorted| => LabelOf(sorted, i, xA, y))
  }

  /** The bordered legend container, 12.5 px of height per category. */
  function LegendBoxFor(cats: seq<CategoryColor>): (box: LegendBox)
  {
    LegendBox(65, 15, 80, (|cats| as real) * 12.5)
  }

  function Swatches(cats: seq<CategoryColor>): (swatches: seq<Swatch>)
  {
    seq(|cats|, i requires 0 <= i < |cats| => Swatch(70, 18 + i * LegendPitch, 20, 7, cats[i].color))
  }

  function LegendLabels(unique: seq<string>): (labels: seq<LegendLabel>)
  {
    seq(|unique|, i requires 0 <= i < |unique| => LegendLabel(95, 23 + i * LegendPitch, unique[i]))
  }

  /**
   * The layout pass of `render()` for the rows `data` on a `width` x `height`
   * surface, with the horizontal scale `xA`, the vertical scale `y` and the
   * category palette `palette` (`colorArray`, which is ColorArray).
   */
  function Render(data: seq<Row>, width: int, height: int, xA: real -> real, y: real -> int, palette: seq<Color>): (c: Layout)
    ensures IsStableSortOf(c.sorted, data) && multiset(c.sorted) == multiset(data)
    ensures |c.bars| == |data| && |c.labels| == |data|
    ensures |c.categories| == |c.uniqueCategories|
    ensures |c.swatches| == |c.uniqueCategories| && |c.legendLabels| == |c.uniqueCategories|
    ensures NoDuplicates(c.uniqueCategories)
    ensures forall i :: 0 <= i < |data| ==> data[i].category in c.uniqueCategories
    ensures forall k :: 0 <= k < |c.uniqueCategories| ==>
      exists i :: 0 <= i < |data| && data[i].category == c.uniqueCategories[k]
    ensures c.totalCapacity == TotalCapacity(data)
  {
    var svgWidth := width - MarginLeft - MarginRight;
    var svgHeight := height - MarginTop - MarginBottom;
    var sorted := SortByCost(data);
    var unique := UniqueCategories(sorted);
    var cats := AssignColors(unique, palette);
    TotalCapacityOfSort(data);
    CategoriesOfSortedRows(data, sorted, unique);
    Layout(
      svgWidth, svgHeight, sorted, unique, cats,
      TotalCapacity(sorted), YDomain(sorted),
      Bars(sorted, xA, y, cats), Labels(sorted, xA, y),
      LegendBoxFor(cats), Swatches(cats), LegendLabels(unique))
  }

  /** The category list built from the sorted rows lists exactly the categories of the input rows. */
  lemma CategoriesOfSortedRows(data: seq<Row>, sorted: seq<Row>, unique: seq<string>)
    requires sorted == SortByCost(data) && unique == UniqueCategories(sorted)
    ensures forall i :: 0 <= i < |data| ==> data[i].category in unique
    ensures forall k :: 0 <= k < |unique| ==> exists i :: 0 <= i < |data| && data[i].category == unique[k]
  {
    SortedListsSameCategories(data, sorted, unique);
  }

  /** The categories of the sorted rows are those of the input rows. */
  lemma SortedListsSameCategories(data: seq<Row>, sorted: seq<Row>, unique: seq<string>)
    requires multiset(sorted) == multiset(data)
    requires forall i :: 0 <= i < |sorted| ==> sorted[i].category in unique
    requires forall c :: c in unique ==> exists i :: 0 <= i < |sorted| && sorted[i].category == c
    ensures forall i :: 0 <= i < |data| ==> data[i].category in unique
    ensures forall k :: 0 <= k < |unique| ==> exists i :: 0 <= i < |data| && data[i].category == unique[k]
  {
    forall i | 0 <= i < |data| ensures data[i].category in unique {
      assert data[i] in multiset(sorted);
      var j :| 0 <= j < |sorted| && sorted[j] == data[i];
    }
    forall k | 0 <= k < |unique|
      ensures exists i :: 0 <= i < |data| && data[i].category == unique[k]
    {
      assert unique[k] in unique;
      var j :| 0 <= j < |sorted| && sorted[j].category == unique[k];
      assert sorted[j] in multiset(data);
      var i :| 0 <= i < |data| && data[i] == sorted[j];
      assert data[i].category == unique[k];
    }
  }

  /** The first bar starts at x = 60 and every further bar starts where the one before it ends. */
  lemma BarsStack(sorted: seq<Row>, xA: real -> real, y: real -> int, cats: seq<CategoryColor>)
    ensures var bars := Bars(sorted, xA, y, cats);
      |bars| > 0 ==> bars[0].x == 60.0
    ensures var bars := Bars(sorted, xA, y, cats);
      forall i :: 0 <= i < |bars| - 1 ==> bars[i + 1].x == bars[i].x + bars[i].width
  {
    var bars := Bars(sorted, xA, y, cats);
    forall i | 0 <= i < |bars| - 1
      ensures bars[i + 1].x == bars[i].x + bars[i].width
    {
      PreviousXLengthStep(xA, sorted, i);
    }
    if |bars| > 0 {
      PreviousXLengthStep(xA, sorted, 0);
    }
  }

  /** Reordering rows keeps their capacities non-negative. */
  lemma PermutationKeepsCapacitiesNonNegative(a: seq<Row>, b: seq<Row>)
    requires multiset(a) == multiset(b)
    requires forall i :: 0 <= i < |a| ==> a[i].abatementCapacity >= 0.0
    ensures forall i :: 0 <= i < |b| ==> b[i].abatementCapacity >= 0.0
  {
    forall i | 0 <= i < |b| ensures b[i].abatementCapacity >= 0.0 {
      assert b[i] in multiset(a);
    }
  }

  /** With the linear horizontal scale, bar i starts at 60 plus the scaled capacity of the rows before it. */
  lemma BarOrigins(sorted: seq<Row>, xA: real -> real, y: real -> int, cats: seq<CategoryColor>, svgWidth: int)
    requires IsXScale(xA, TotalCapacity(sorted), svgWidth)
    ensures var bars := Bars(sorted, xA, y, cats);
      forall i :: 0 <= i < |bars| ==> bars[i].x == 60.0 + xA(TotalCapacity(sorted[..i]))
  {
    var bars := Bars(sorted, xA, y, cats);
    forall i | 0 <= i < |bars|
      ensures bars[i].x == 60.0 + xA(TotalCapacity(sorted[..i]))
    {
      PreviousXLengthIsScaledPrefix(xA, TotalCapacity(sorted), svgWidth, sorted, i);
    }
  }

  /**
   * With the linear horizontal scale over the total capacity, the last bar
   * ends at 60 + svgWidth - 50: the bars fill the scale's range exactly.
   */
  lemma BarsFillRange(sorted: seq<Row>, xA: real -> real, y: real -> int, cats: seq<CategoryColor>, svgWidth: int)
    requires IsXScale(xA, TotalCapacity(sorted), svgWidth)
    ensures var bars := Bars(sorted, xA, y, cats);
      |bars| > 0 ==> bars[|bars| - 1].x + bars[|bars| - 1].width == 60.0 + (svgWidth - 50) as real
  {
    if |sorted| > 0 {
      ScaledRowsFillRange(xA, sorted, svgWidth);
    }
  }

  /** With non-negative capacities and a range at least 0 wide, x never decreases from left to right. */
  lemma BarsLeftToRight(sorted: seq<Row>, xA: real -> real, y: real -> int, cats: seq<CategoryColor>, svgWidth: int)
    requires IsXScale(xA, TotalCapacity(sorted), svgWidth)
    requires svgWidth >= 50
    requires forall i :: 0 <= i < |sorted| ==> sorted[i].abatementCapacity >= 0.0
    ensures var bars := Bars(sorted, xA, y, cats);
      forall i :: 0 <= i < |bars| ==> bars[i].width >= 0.0
    ensures var bars := Bars(sorted, xA, y, cats);
      forall i, j :: 0 <= i <= j < |bars| ==> bars[i].x <= bars[j].x
  {
    var bars := Bars(sorted, xA, y, cats);
    var total := TotalCapacity(sorted);
    forall i | 0 <= i < |bars| ensures bars[i].width >= 0.0 {
      XScaleIsMonotone(xA, total, svgWidth, sorted[i].abatementCapacity, sorted[i].abatementCapacity);
    }
    forall i, j | 0 <= i <= j < |bars|
      ensures bars[i].x <= bars[j].x
    {
      PreviousXLengthIsMonotone(xA, sorted, svgWidth, i, j);
    }
  }

  /** Drawing the rows in ascending order of cost, with non-negative capacities, bars run left to right. */
  lemma SortedBarsLeftToRight(data: seq<Row>, sorted: seq<Row>, xA: real -> real, y: real -> int, cats: seq<CategoryColor>, svgWidth: int)
    requires sorted == SortByCost(data)
    requires IsXScale(xA, TotalCapacity(data), svgWidth)
    requires svgWidth >= 50
    requires forall i :: 0 <= i < |data| ==> data[i].abatementCapacity >= 0.0
    ensures var bars := Bars(sorted, xA, y, cats);
      forall i :: 0 <= i < |bars| ==> bars[i].width >= 0.0
    ensures var bars := Bars(sorted, xA, y, cats);
      forall i, j :: 0 <= i <= j < |bars| ==> bars[i].x <= bars[j].x
  {
    XScaleOfSorted(xA, data, svgWidth);
    PermutationKeepsCapacitiesNonNegative(data, sorted);
    BarsLeftToRight(sorted, xA, y, cats, svgWidth);
  }

  /**
   * With a vertical scale that grows downwards, each bar spans from the zero
   * baseline `15 + y(0)` to its cost level `15 + y(cost)`.
   */
  lemma BarsSpanBaselineToCost(sorted: seq<Row>, xA: real -> real, y: real -> int, cats: seq<CategoryColor>)
    requires NonIncreasing(y)
    ensures var bars := Bars(sorted, xA, y, cats);
      forall i :: 0 <= i < |bars| ==>
        && bars[i].height >= 0
        && bars[i].y == 15 + MinInt(y(0.0), y(sorted[i].marginalAbatementCost))
        && bars[i].y + bars[i].height == 15 + MaxInt(y(0.0), y(sorted[i].marginalAbatementCost))
  {
  }

  /**
   * Each label starts 3 px right of its bar and carries the row's alternative;
   * for a negative cost it sits 10 px below the bar's bottom, otherwise 10 px
   * above the bar's top.
   */
  lemma LabelsBesideBars(sorted: seq<Row>, xA: real -> real, y: real -> int, cats: seq<CategoryColor>)
    ensures var bars, labels := Bars(sorted, xA, y, cats), Labels(sorted, xA, y);
      forall i :: 0 <= i < |labels| ==>
        && labels[i].x == bars[i].x + 3.0
        && labels[i].text == sorted[i].abatementAlternative
        && (sorted[i].marginalAbatementCost < 0.0 ==> labels[i].y == bars[i].y + bars[i].height + 10)
        && (sorted[i].marginalAbatementCost >= 0.0 ==> labels[i].y == bars[i].y - 10)
  {
  }

  /**
   * A bar's category is listed and its fill is the palette colour at that
   * category's position in the list, so the legend swatch labelled with the
   * category shows the bar's fill.
   */
  lemma FillsFollowCategories(sorted: seq<Row>, xA: real -> real, y: real -> int, unique: seq<string>, palette: seq<Color>)
    requires NoDuplicates(unique)
    requires forall i :: 0 <= i < |sorted| ==> sorted[i].category in unique
    ensures var bars := Bars(sorted, xA, y, AssignColors(unique, palette));
      forall i :: 0 <= i < |bars| ==>
        bars[i].fill == PaletteColor(palette, FirstIndex(unique, sorted[i].category))
    ensures var bars := Bars(sorted, xA, y, AssignColors(unique, palette));
      var swatches, legendLabels := Swatches(AssignColors(unique, palette)), LegendLabels(unique);
      forall i, k :: 0 <= i < |bars| && 0 <= k < |legendLabels| && legendLabels[k].text == sorted[i].category ==>
        swatches[k].fill == bars[i].fill
  {
    var cats := AssignColors(unique, palette);
    var bars := Bars(sorted, xA, y, cats);
    forall i | 0 <= i < |bars|
      ensures bars[i].fill == PaletteColor(palette, FirstIndex(unique, sorted[i].category))
    {
      assert bars[i] == BarOf(sorted, i, xA, y, cats);
      ColorOfListedCategory(unique, palette, FirstIndex(unique, sorted[i].category));
    }
    var legendLabels := LegendLabels(unique);
    forall i, k | 0 <= i < |bars| && 0 <= k < |legendLabels| && legendLabels[k].text == sorted[i].category
      ensures Swatches(cats)[k].fill == bars[i].fill
    {
      assert bars[i] == BarOf(sorted, i, xA, y, cats);
      ColorOfListedCategory(unique, palette, k);
    }
  }

  /**
   * When `y` sends the ends `lo` and `hi` of a domain holding every cost to
   * `top` and 0, every cost level lies between 0 and `top`.
   */
  lemma CostLevelsInRange(sorted: seq<Row>, y: real -> int, lo: real, hi: real, top: int)
    requires NonIncreasing(y)
    requires forall i :: 0 <= i < |sorted| ==> lo < sorted[i].marginalAbatementCost < hi
    requires y(lo) == top && y(hi) == 0
    ensures forall i :: 0 <= i < |sorted| ==> 0 <= y(sorted[i].marginalAbatementCost) <= top
  {
    forall i | 0 <= i < |sorted|
      ensures 0 <= y(sorted[i].marginalAbatementCost) <= top
    {
      var cost := sorted[i].marginalAbatementCost;
      assert y(hi) <= y(cost) <= y(lo);
    }
  }

  /**
   * Swatch k is drawn in the colour of category k, inside the container;
   * consecutive swatches do not overlap; label k names category k, starts
   * right of its swatch and inside the container, and is vertically within
   * its swatch.
   */
  lemma LegendRowsInsideBox(unique: seq<string>, palette: seq<Color>)
    ensures var cats := AssignColors(unique, palette);
      var box, swatches := LegendBoxFor(cats), Swatches(cats);
      forall k :: 0 <= k < |swatches| ==>
        && swatches[k].fill == PaletteColor(palette, k)
        && box.x <= swatches[k].x
        && swatches[k].x + swatches[k].width <= box.x + box.width
        && box.y <= swatches[k].y
        && (swatches[k].y + swatches[k].height) as real <= box.y as real + box.height
    ensures var swatches := Swatches(AssignColors(unique, palette));
      forall k :: 0 <= k < |swatches| - 1 ==> swatches[k].y + swatches[k].height < swatches[k + 1].y
    ensures var cats := AssignColors(unique, palette);
      var box, swatches, labels := LegendBoxFor(cats), Swatches(cats), LegendLabels(unique);
      forall k :: 0 <= k < |labels| ==>
        && labels[k].text == unique[k]
        && labels[k].x > swatches[k].x + swatches[k].width
        && labels[k].x < box.x + box.width
        && swatches[k].y <= labels[k].y <= swatches[k].y + swatches[k].height
  {
    var cats := AssignColors(unique, palette);
    forall k | 0 <= k < |cats|
      ensures (25 + 12 * k) as real <= 15.0 + (|cats| as real) * 12.5
    {
    }
  }
}
