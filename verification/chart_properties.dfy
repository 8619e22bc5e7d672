/**
 * What one Render pass guarantees about the whole chart: stacked bars without
 * gaps that fill the plot width, bars spanning from the zero baseline to their
 * cost, labels on the outer side of each bar, one colour per category shared
 * by bars and legend, and a legend whose rows sit inside their container.
 */
module ChartProperties {
  import opened Wrappers
  import opened Rows
  import opened Sorting
  import opened Categories
  import opened Scales
  import opened Chart

  /** The first bar starts at x = 60 and every further bar starts where the one before it ends. */
  lemma RenderStacksBars(data: seq<Row>, width: int, height: int, xA: real -> real, y: real -> int, palette: seq<Color>)
    ensures var c := Render(data, width, height, xA, y, palette);
      |c.bars| > 0 ==> c.bars[0].x == 60.0
    ensures var c := Render(data, width, height, xA, y, palette);
      forall i :: 0 <= i < |c.bars| - 1 ==> c.bars[i + 1].x == c.bars[i].x + c.bars[i].width
  {
    var sorted := SortByCost(data);
    BarsStack(sorted, xA, y, AssignColors(UniqueCategories(sorted), palette));
  }

  /**
   * When `xA` is the linear scale from `[0, total capacity]` onto
   * `[0, svgWidth - 50]`, bar i starts at 60 plus the scaled capacity of the
   * rows before it, and the last bar ends at 60 + svgWidth - 50.
   */
  lemma RenderFillsPlotWidth(data: seq<Row>, width: int, height: int, xA: real -> real, y: real -> int, palette: seq<Color>)
    requires IsXScale(xA, TotalCapacity(data), width - 70)
    ensures var c := Render(data, width, height, xA, y, palette);
      forall i :: 0 <= i < |c.bars| ==> c.bars[i].x == 60.0 + xA(TotalCapacity(c.sorted[..i]))
    ensures var c := Render(data, width, height, xA, y, palette);
      |c.bars| > 0 ==>
        c.bars[|c.bars| - 1].x + c.bars[|c.bars| - 1].width == 60.0 + (c.svgWidth - 50) as real
  {
    var sorted := SortByCost(data);
    var cats := AssignColors(UniqueCategories(sorted), palette);
    XScaleOfSorted(xA, data, width - 70);
    BarOrigins(sorted, xA, y, cats, width - 70);
    BarsFillRange(sorted, xA, y, cats, width - 70);
  }

  /**
   * With non-negative capacities and a surface at least 120 px wide, bars have
   * non-negative width and their x never decreases from left to right.
   */
  lemma RenderOrdersBarsLeftToRight(data: seq<Row>, width: int, height: int, xA: real -> real, y: real -> int, palette: seq<Color>)
    requires IsXScale(xA, TotalCapacity(data), width - 70)
    requires width >= 120
    requires forall i :: 0 <= i < |data| ==> data[i].abatementCapacity >= 0.0
    ensures var c := Render(data, width, height, xA, y, palette);
      forall i :: 0 <= i < |c.bars| ==> c.bars[i].width >= 0.0
    ensures var c := Render(data, width, height, xA, y, palette);
      forall i, j :: 0 <= i <= j < |c.bars| ==> c.bars[i].x <= c.bars[j].x
  {
    var sorted := SortByCost(data);
    SortedBarsLeftToRight(data, sorted, xA, y, AssignColors(UniqueCategories(sorted), palette), width - 70);
  }

  /**
   * With a vertical scale that grows downwards, each bar spans from the zero
   * baseline `15 + y(0)` to its cost level `15 + y(cost)`: above the baseline
   * for a positive cost, below it for a negative one.
   */
  lemma RenderSpansBarsFromBaseline(data: seq<Row>, width: int, height: int, xA: real -> real, y: real -> int, palette: seq<Color>)
    requires NonIncreasing(y)
    ensures var c := Render(data, width, height, xA, y, palette);
      forall i :: 0 <= i < |c.bars| ==>
        && c.bars[i].height >= 0
        && c.bars[i].y == 15 + MinInt(y(0.0), y(c.sorted[i].marginalAbatementCost))
        && c.bars[i].y + c.bars[i].height == 15 + MaxInt(y(0.0), y(c.sorted[i].marginalAbatementCost))
  {
    var sorted := SortByCost(data);
    BarsSpanBaselineToCost(sorted, xA, y, AssignColors(UniqueCategories(sorted), palette));
  }

  /**
   * Each label starts 3 px right of its bar and carries the row's alternative;
   * for a negative cost it sits 10 px below the bar's bottom, otherwise 10 px
   * above the bar's top.
   */
  lemma RenderPlacesLabels(data: seq<Row>, width: int, height: int, xA: real -> real, y: real -> int, palette: seq<Color>)
    ensures var c := Render(data, width, height, xA, y, palette);
      forall i :: 0 <= i < |c.labels| ==>
        && c.labels[i].x == c.bars[i].x + 3.0
        && c.labels[i].text == c.sorted[i].abatementAlternative
        && (c.sorted[i].marginalAbatementCost < 0.0 ==>
              c.labels[i].y == c.bars[i].y + c.bars[i].height + 10)
        && (c.sorted[i].marginalAbatementCost >= 0.0 ==>
              c.labels[i].y == c.bars[i].y - 10)
  {
    var sorted := SortByCost(data);
    LabelsBesideBars(sorted, xA, y, AssignColors(UniqueCategories(sorted), palette));
  }

  /**
   * Every bar's category is in the category list and the bar's fill is the
   * palette colour at that category's position (none past the end of the
   * palette); so rows of one category share a fill, and the legend swatch
   * labelled with that category shows it too.
   */
  lemma RenderColorsByCategory(data: seq<Row>, width: int, height: int, xA: real -> real, y: real -> int, palette: seq<Color>)
    ensures var c := Render(data, width, height, xA, y, palette);
      forall i :: 0 <= i < |c.bars| ==>
        && c.sorted[i].category in c.uniqueCategories
        && c.bars[i].fill == PaletteColor(palette, FirstIndex(c.uniqueCategories, c.sorted[i].category))
    ensures var c := Render(data, width, height, xA, y, palette);
      forall i, j :: 0 <= i < |c.bars| && 0 <= j < |c.bars| && c.sorted[i].category == c.sorted[j].category ==>
        c.bars[i].fill == c.bars[j].fill
    ensures var c := Render(data, width, height, xA, y, palette);
      forall i, k :: 0 <= i < |c.bars| && 0 <= k < |c.legendLabels| && c.legendLabels[k].text == c.sorted[i].category ==>
        c.swatches[k].fill == c.bars[i].fill
  {
    var sorted := SortByCost(data);
    FillsFollowCategories(sorted, xA, y, UniqueCategories(sorted), palette);
  }

  /**
   * The legend swatches: swatch k at (70, 18 + 12k), 20 x 7, in the colour of
   * category k, inside the container at (65, 15) of width 80 and height 12.5
   * per category.
   */
  lemma RenderLaysOutLegend(data: seq<Row>, width: int, height: int, xA: real -> real, y: real -> int, palette: seq<Color>)
    ensures var c := Render(data, width, height, xA, y, palette);
      forall k :: 0 <= k < |c.swatches| ==>
        && c.swatches[k].fill == PaletteColor(palette, k)
        && c.legendBox.x <= c.swatches[k].x
        && c.swatches[k].x + c.swatches[k].width <= c.legendBox.x + c.legendBox.width
        && c.legendBox.y <= c.swatches[k].y
        && (c.swatches[k].y + c.swatches[k].height) as real <= c.legendBox.y as real + c.legendBox.height
  {
    LegendRowsInsideBox(UniqueCategories(SortByCost(data)), palette);
  }

  /** Consecutive legend swatches do not overlap. */
  lemma RenderSpacesSwatches(data: seq<Row>, width: int, height: int, xA: real -> real, y: real -> int, palette: seq<Color>)
    ensures var c := Render(data, width, height, xA, y, palette);
      forall k :: 0 <= k < |c.swatches| - 1 ==>
        c.swatches[k].y + c.swatches[k].height < c.swatches[k + 1].y
  {
    LegendRowsInsideBox(UniqueCategories(SortByCost(data)), palette);
  }

  /**
   * The legend labels: label k names category k, starts right of its swatch
   * and inside the container, and is vertically within its swatch.
   */
  lemma RenderLabelsLegend(data: seq<Row>, width: int, height: int, xA: real -> real, y: real -> int, palette: seq<Color>)
    ensures var c := Render(data, width, height, xA, y, palette);
      forall k :: 0 <= k < |c.legendLabels| ==>
        && c.legendLabels[k].text == c.uniqueCategories[k]
        && c.legendLabels[k].x > c.swatches[k].x + c.swatches[k].width
        && c.legendLabels[k].x < c.legendBox.x + c.legendBox.width
        && c.swatches[k].y <= c.legendLabels[k].y <= c.swatches[k].y + c.swatches[k].height
  {
    LegendRowsInsideBox(UniqueCategories(SortByCost(data)), palette);
  }

  /**
   * The legend lists the categories in the order their first rows appear in
   * the sorted data: legend label k names a category whose first row comes
   * before the first row of the category of label k + 1.
   */
  lemma RenderOrdersLegendFirstSeen(data: seq<Row>, width: int, height: int, xA: real -> real, y: real -> int, palette: seq<Color>)
    ensures var c := Render(data, width, height, xA, y, palette);
      && |c.legendLabels| == |c.uniqueCategories|
      && (forall k :: 0 <= k < |c.legendLabels| ==> c.legendLabels[k].text == c.uniqueCategories[k])
      && c.uniqueCategories == Dedupe(CategoryNames(c.sorted))
    ensures var c := Render(data, width, height, xA, y, palette);
      var names := CategoryNames(c.sorted);
      forall i, j :: 0 <= i < j < |c.uniqueCategories| ==>
        FirstIndex(names, c.uniqueCategories[i]) < FirstIndex(names, c.uniqueCategories[j])
  {
    var sorted := SortByCost(data);
    UniqueCategoriesFirstSeen(sorted);
    LegendRowsInsideBox(UniqueCategories(sorted), palette);
  }

  /** The vertical domain is the least cost minus 40 to the greatest cost plus 40. */
  lemma RenderPadsCostDomain(data: seq<Row>, width: int, height: int, xA: real -> real, y: real -> int, palette: seq<Color>)
    requires |data| > 0
    ensures Render(data, width, height, xA, y, palette).yDomain
         == Some(Interval(MinCost(data) - 40.0, MaxCost(data) + 40.0))
  {
    YDomainOfPermutation(data, SortByCost(data));
  }

  /**
   * When `y` maps the padded domain's ends onto the range ends
   * `[svgHeight - 65, 0]`, as a linear scale does, every row's cost level lies
   * inside the plot.
   */
  lemma RenderKeepsCostsInPlot(data: seq<Row>, width: int, height: int, xA: real -> real, y: real -> int, palette: seq<Color>)
    requires |data| > 0 && NonIncreasing(y)
    requires y(MinCost(data) - 40.0) == height - 130
    requires y(MaxCost(data) + 40.0) == 0
    ensures var c := Render(data, width, height, xA, y, palette);
      forall i :: 0 <= i < |c.sorted| ==> 0 <= y(c.sorted[i].marginalAbatementCost) <= c.svgHeight - 65
  {
    var sorted := SortByCost(data);
    PermutationInsidePaddedDomain(data, sorted);
    CostLevelsInRange(sorted, y, MinCost(data) - 40.0, MaxCost(data) + 40.0, height - 130);
  }

  /** With no rows there are no bars, labels or legend rows, and the legend container is empty. */
  lemma RenderOfNoRows(width: int, height: int, xA: real -> real, y: real -> int, palette: seq<Color>)
    ensures var c := Render([], width, height, xA, y, palette);
      && c.bars == [] && c.labels == [] && c.swatches == [] && c.legendLabels == []
      && c.legendBox.height == 0.0 && c.totalCapacity == 0.0 && c.yDomain == None
  {
  }
}
