# Abatement-alternative chart: layout model

A Dafny model of the layout pass of the Superset abatement-alternative chart
(a marginal abatement cost curve). One call of `render()` takes rows with a
category, a marginal abatement cost, an abatement capacity and an
alternative's name. It then:

- sorts the rows by cost;
- lists the distinct categories and pairs each with a colour of the
  55-entry `colorArray`;
- draws one bar per row, with
  - its x from `getPreviousXLength`,
  - its width and height from two d3 linear scales,
  - its fill from `getColor`;
- puts a label beside every bar;
- draws a legend: a container, one swatch and one label per category.

The model turns that pass into the pure function `Chart.Render`. Render
returns the bar, label and legend geometry the pass writes to the SVG:
positions, sizes, fills and texts. The lemmas prove what this geometry
promises:

- the bars are stacked without gaps and fill the plot;
- each bar spans from the zero baseline to its cost;
- labels sit on the bar's outer side;
- one colour per category is shared by bars and legend;
- the legend rows sit inside their container.

The compiled copy `esm/SupersetPluginAbatementAlternativeChart.js` holds
the same logic line for line, so every member below models both files. The
table cites the TypeScript file. The matching ranges in the compiled copy
are:

| logic | src/…Chart.tsx | esm/…Chart.js |
|---|---|---|
| `colorArray`, margins | 66-125 | 65-73 |
| double sort | 133-138 | 75-76 |
| `uniqueCategories`, `categories` | 139-145 | 77-81 |
| `d3.sum`, `xA`, `y` and its domain | 147-158 | 82-86 |
| bars | 195-210 | 95 |
| bar labels | 213-236 | 97-104 |
| legend | 269-305 | 112-117 |
| `getPreviousXLength` | 310-317 | 121-125 |
| `getColor` | 319-324 | 127-133 |

Modules:

- `Wrappers` holds `Option`. None stands for JavaScript `undefined` (a
  colour looked up past the palette's end, a category with no entry) and
  for the y domain of no rows, which is NaN in the source: `d3.min` of no
  rows is `undefined`, and `undefined + -40` is NaN.
- `Rows` holds the row record, `colorArray` and palette indexing.
- `Sorting` holds the sort as a stable insertion sort. It also proves that
  a stable ascending sort is unique.
- `Categories` holds the first-seen dedupe that `new Set` performs, the
  colour assignment and `getColor`.
- `Scales` holds `d3.sum`, `getPreviousXLength`, the characterisation of
  the two scales, and `d3.min`/`d3.max` with the padded y domain.
- `Chart` holds the layout datatypes, Render, and lemmas about each
  component.
- `ChartProperties` holds the same properties stated for a whole Render.

The d3 scales are parameters. `xA` is any function that satisfies
`IsXScale`, meaning it is the linear map from `[0, total capacity]` onto
`[0, svgWidth - 50]`. `y` is any function from a cost to an integer pixel
row. The lemmas about bar heights and cost levels further assume that `y`
satisfies `NonIncreasing`. `scaleLinear().rangeRound([svgHeight - 65, 0])`
over an increasing domain does so only when its range runs downwards, that
is when `svgHeight - 65 >= 0`, or a surface at least 130 px high. The label
placement and the legend lemmas make no assumption about `y`. The palette
is also a parameter, and in the source it is always `Rows.ColorArray`.

The code and the natural reading of the chart disagree in one place, and
the model follows the code. A bar's y is `15 + y(max(0, cost))`, but the
label y written at lines 223-234 leaves out the `15`. As a result:

- for a negative cost the label sits 10 px below the bar's bottom edge
  (`+ 25`, where adding the bar's own 15 px offset would give 40);
- for other costs it sits 10 px above the bar's top edge.

`Chart.LabelsBesideBars` states exactly this.

## Model

| member | source | states |
|---|---|---|
| Rows.PaletteColor | src/SupersetPluginAbatementAlternativeChart.tsx:142-145 | `colorArray[index]` is a colour exactly when the index is below the palette length, and that colour is then the palette's entry at `index`. Past the end the result is `undefined`. |
| Rows.ColorArrayLength | src/SupersetPluginAbatementAlternativeChart.tsx:66-122 | `colorArray` has 55 entries, so indices 0 to 54 give a colour and every later index gives `undefined`. |
| Sorting.Insert | src/SupersetPluginAbatementAlternativeChart.tsx:133-138 | Inserting a row into cost-ascending rows keeps them ascending, adds exactly that row, and puts it ahead of the rows of equal cost. It is the step of the stable sort SortByCost. |
| Sorting.SortByCost | src/SupersetPluginAbatementAlternativeChart.tsx:133-138 | The sorted rows are ascending by cost. Rows of equal cost keep their input order. The result is a permutation of the input. |
| Sorting.StableSortIsUnique | src/SupersetPluginAbatementAlternativeChart.tsx:133-138 | Two cost-ascending sequences that list the rows of every cost in the same order are equal. |
| Sorting.AnyStableSortIsSortByCost | src/SupersetPluginAbatementAlternativeChart.tsx:133-138 | Every stable ascending sort of the rows, and so the engine's `Array.prototype.sort` with the cost comparator, gives exactly SortByCost. |
| Sorting.SortTwiceIsSortOnce | src/SupersetPluginAbatementAlternativeChart.tsx:133-138 | Sorting the sorted rows again changes nothing, so `sortedArray` and `sortedArrayTwo` list the same rows in the same order. |
| Categories.Dedupe | src/SupersetPluginAbatementAlternativeChart.tsx:139-141 | `Array.from(new Set(xs))` has no duplicates and holds exactly the elements of `xs`. |
| Categories.DedupeKeepsFirstSeenOrder | src/SupersetPluginAbatementAlternativeChart.tsx:139-141 | The distinct elements come in the order of their first occurrence in the input. |
| Categories.UniqueCategories | src/SupersetPluginAbatementAlternativeChart.tsx:139-141 | `uniqueCategories` has no duplicates. It lists the category of every row, and every category it lists belongs to some row. Its order is stated by UniqueCategoriesFirstSeen. |
| Categories.CategoryNames | src/SupersetPluginAbatementAlternativeChart.tsx:140 | Definition of `sortedArrayTwo.map((d) => d.category)`: the category of each sorted row, in row order. Its properties are stated by UniqueCategories and UniqueCategoriesFirstSeen. |
| Categories.UniqueCategoriesFirstSeen | src/SupersetPluginAbatementAlternativeChart.tsx:139-141 | `uniqueCategories` is the dedupe of the sorted rows' categories (`CategoryNames`, the `map` at line 140). A category listed earlier has its first row earlier in the sorted data. |
| Categories.AssignColors | src/SupersetPluginAbatementAlternativeChart.tsx:142-145 | `categories` has one entry per distinct category, in the same order. |
| Categories.MatchingEntries | src/SupersetPluginAbatementAlternativeChart.tsx:320 | The filter keeps exactly the entries whose category is the name. Its first element is the first such entry. |
| Categories.GetColor | src/SupersetPluginAbatementAlternativeChart.tsx:319-324 | `getColor` returns `undefined` when no entry has the name. Otherwise it returns the colour of the first entry that does. |
| Categories.ColorOfListedCategory | src/SupersetPluginAbatementAlternativeChart.tsx:319-324 | Looking up the k-th distinct category in `categories` gives the palette's entry k, `colorArray[k]` in the source. Once k reaches the palette length it gives no colour; for `colorArray` that is from the 56th category on, by ColorArrayLength. |
| Scales.TotalCapacity | src/SupersetPluginAbatementAlternativeChart.tsx:147 | Definition of `d3.sum` of the capacities, summed from the left. Its properties are stated by TotalCapacityAppend, TotalCapacityOfSort and TotalCapacityNonNegative. |
| Scales.TotalCapacityAppend | src/SupersetPluginAbatementAlternativeChart.tsx:147 | The capacity sum of two row lists put end to end is the sum of their sums. |
| Scales.TotalCapacityOfSort | src/SupersetPluginAbatementAlternativeChart.tsx:147 | `d3.sum` of the capacities is the same over the sorted rows as over the input rows. |
| Scales.TotalCapacityNonNegative | src/SupersetPluginAbatementAlternativeChart.tsx:147 | Non-negative capacities have a non-negative sum. |
| Scales.ScaledWidth | src/SupersetPluginAbatementAlternativeChart.tsx:312-315 | Definition of the reduce of `xA(capacity)` over a row list. Its properties are stated by ScaledWidthIsLinear and PreviousXLengthStep. |
| Scales.PreviousXLength | src/SupersetPluginAbatementAlternativeChart.tsx:310-317 | Definition of `getPreviousXLength`: the reduce over the rows before the index. Its properties are stated by PreviousXLengthStep, PreviousXLengthIsScaledPrefix and PreviousXLengthIsMonotone. |
| Scales.PreviousXLengthStep | src/SupersetPluginAbatementAlternativeChart.tsx:310-317 | `getPreviousXLength` is 0 at index 0. Each next index adds the scaled capacity of exactly one more row. |
| Scales.ScaledWidthIsLinear | src/SupersetPluginAbatementAlternativeChart.tsx:312-315 | With a linear `xA`, the reduce of scaled capacities is the capacity sum times the scale's factor. |
| Scales.PreviousXLengthIsScaledPrefix | src/SupersetPluginAbatementAlternativeChart.tsx:310-317 | With a linear `xA`, `getPreviousXLength(xA, rows, i)` is `xA` of the capacity of the first i rows. |
| Scales.PreviousXLengthIsMonotone | src/SupersetPluginAbatementAlternativeChart.tsx:310-317 | With a linear `xA` whose range `[0, svgWidth - 50]` runs forwards (`svgWidth >= 50`, a surface at least 120 px wide) and non-negative capacities, `getPreviousXLength` never decreases as the index grows. |
| Scales.XScaleOfSorted | src/SupersetPluginAbatementAlternativeChart.tsx:147-151 | The domain `[0, max]` of `xA` is the same whether the sum is taken over the sorted or the input rows. |
| Scales.XScaleIsMonotone | src/SupersetPluginAbatementAlternativeChart.tsx:148-151 | Over a range at least 0 px wide, `xA` is monotone and keeps non-negative capacities non-negative. |
| Scales.ScaleOfTotalIsRangeEnd | src/SupersetPluginAbatementAlternativeChart.tsx:148-151 | `xA` sends the total capacity to the end of its range, `svgWidth - 50`. |
| Scales.ScaledRowsFillRange | src/SupersetPluginAbatementAlternativeChart.tsx:147-151 | The running sum before the last row, plus that row's scaled width, is exactly `svgWidth - 50`. |
| Scales.MinCost | src/SupersetPluginAbatementAlternativeChart.tsx:156 | `d3.min` of the costs is at most every row's cost. |
| Scales.MinCostAttained | src/SupersetPluginAbatementAlternativeChart.tsx:156 | `d3.min` of the costs is the cost of some row. |
| Scales.MaxCost | src/SupersetPluginAbatementAlternativeChart.tsx:157 | `d3.max` of the costs is at least every row's cost. |
| Scales.MaxCostAttained | src/SupersetPluginAbatementAlternativeChart.tsx:157 | `d3.max` of the costs is the cost of some row. |
| Scales.CostBoundsOfPermutation | src/SupersetPluginAbatementAlternativeChart.tsx:155-158 | The least and greatest cost do not depend on the order of the rows. |
| Scales.YDomain | src/SupersetPluginAbatementAlternativeChart.tsx:155-158 | With no rows the y domain is NaN, modelled as None. Otherwise every cost is at least 40 above its lower end and at least 40 below its upper end, and both ends are a row's cost moved out by exactly 40. |
| Scales.YDomainEnds | src/SupersetPluginAbatementAlternativeChart.tsx:155-158 | From YDomain's contract alone: for rows, the domain runs from the least cost minus 40 to the greatest cost plus 40. |
| Scales.YDomainOfPermutation | src/SupersetPluginAbatementAlternativeChart.tsx:155-158 | The domain is the same for any order of the rows, so taking it over `sortedArray` gives the input rows' domain. |
| Scales.PermutationInsidePaddedDomain | src/SupersetPluginAbatementAlternativeChart.tsx:155-158 | Every sorted row's cost lies strictly inside the input rows' padded domain. |
| Chart.Render | src/SupersetPluginAbatementAlternativeChart.tsx:123-305 | The sorted rows are a stable sort and a permutation of the input. There is one bar and one label per row, and one `categories` entry, swatch and legend label per distinct category. The category list has no duplicates and lists exactly the rows' categories. The capacity total equals the input's. |
| Chart.BarOf | src/SupersetPluginAbatementAlternativeChart.tsx:195-210 | Definition of the rect drawn for one sorted row. Its properties are stated by BarsStack, BarOrigins, BarsFillRange, BarsLeftToRight, BarsSpanBaselineToCost and FillsFollowCategories. |
| Chart.Bars | src/SupersetPluginAbatementAlternativeChart.tsx:195-210 | Definition of the `selectAll(".bar").data(sortedArrayTwo)` join: one BarOf per sorted row. Its properties are stated by the same lemmas as BarOf. |
| Chart.LabelOf | src/SupersetPluginAbatementAlternativeChart.tsx:213-236 | Definition of the text drawn beside one sorted row's bar. Its properties are stated by LabelsBesideBars. |
| Chart.Labels | src/SupersetPluginAbatementAlternativeChart.tsx:213-236 | Definition of the label join: one LabelOf per sorted row. Its properties are stated by LabelsBesideBars. |
| Chart.LegendBoxFor | src/SupersetPluginAbatementAlternativeChart.tsx:269-277 | Definition of the legend container: it sits at (65, 15), is 80 wide and is 12.5 px high per `categories` entry. Its relation to the swatches is stated by LegendRowsInsideBox. |
| Chart.Swatches | src/SupersetPluginAbatementAlternativeChart.tsx:280-290 | Definition of the swatch join: one rect per `categories` entry. Its properties are stated by LegendRowsInsideBox and FillsFollowCategories. |
| Chart.LegendLabels | src/SupersetPluginAbatementAlternativeChart.tsx:293-305 | Definition of the legend text join: one text per distinct category. Its properties are stated by LegendRowsInsideBox. |
| Chart.CategoriesOfSortedRows | src/SupersetPluginAbatementAlternativeChart.tsx:139-141 | The categories listed from the sorted rows are exactly the input rows' categories. |
| Chart.SortedListsSameCategories | src/SupersetPluginAbatementAlternativeChart.tsx:139-141 | A category list covering the sorted rows also covers the input rows, and the other way round. |
| Chart.BarsStack | src/SupersetPluginAbatementAlternativeChart.tsx:201-206 | The first bar starts at x = 60. Every later bar starts where the one before it ends. |
| Chart.BarOrigins | src/SupersetPluginAbatementAlternativeChart.tsx:201-204 | With a linear `xA`, bar i starts at 60 plus `xA` of the capacity of the rows before it. |
| Chart.BarsFillRange | src/SupersetPluginAbatementAlternativeChart.tsx:201-206 | With a linear `xA`, the last bar ends at 60 + `svgWidth - 50`, the end of the x axis. |
| Chart.PermutationKeepsCapacitiesNonNegative | src/SupersetPluginAbatementAlternativeChart.tsx:133-138 | Sorting keeps every capacity non-negative when the input's are. |
| Chart.BarsLeftToRight | src/SupersetPluginAbatementAlternativeChart.tsx:201-206 | With a linear `xA` whose range runs forwards (`svgWidth >= 50`, a surface at least 120 px wide) and non-negative capacities, bar widths are non-negative and bar x never decreases from left to right. |
| Chart.SortedBarsLeftToRight | src/SupersetPluginAbatementAlternativeChart.tsx:195-206 | The same holds for the bars of the sorted input rows when the input's capacities are non-negative. |
| Chart.BarsSpanBaselineToCost | src/SupersetPluginAbatementAlternativeChart.tsx:205-209 | With `y` growing downwards, each bar has non-negative height. It spans from the zero level `15 + y(0)` to its cost level `15 + y(cost)`. |
| Chart.LabelsBesideBars | src/SupersetPluginAbatementAlternativeChart.tsx:219-236 | For any `y`, a label starts 3 px right of its bar and reads the row's alternative. For a negative cost it sits 10 px below the bar's bottom, otherwise 10 px above the bar's top. |
| Chart.FillsFollowCategories | src/SupersetPluginAbatementAlternativeChart.tsx:210 | A bar's fill is the palette colour at its category's position in the category list. The legend swatch labelled with that category has the same fill. |
| Chart.CostLevelsInRange | src/SupersetPluginAbatementAlternativeChart.tsx:152-158 | When `y` maps the domain ends to `top` and 0, every cost level lies between 0 and `top`. |
| Chart.LegendRowsInsideBox | src/SupersetPluginAbatementAlternativeChart.tsx:269-305 | Swatch k has colour `colorArray[k]` and lies inside the container. Consecutive swatches do not overlap. Legend label k names category k, starts right of its swatch inside the container, and sits vertically within its swatch. |
| ChartProperties.RenderStacksBars | src/SupersetPluginAbatementAlternativeChart.tsx:201-206 | In a rendered chart the bars are stacked from x = 60 without gaps or overlaps. |
| ChartProperties.RenderFillsPlotWidth | src/SupersetPluginAbatementAlternativeChart.tsx:147-151 | In a rendered chart with the linear `xA`, bar i starts at 60 + `xA`(capacity before it), and the last bar ends at 60 + `svgWidth - 50`. |
| ChartProperties.RenderOrdersBarsLeftToRight | src/SupersetPluginAbatementAlternativeChart.tsx:195-206 | In a rendered chart with non-negative capacities and a surface at least 120 px wide, widths are non-negative and x never decreases. |
| ChartProperties.RenderSpansBarsFromBaseline | src/SupersetPluginAbatementAlternativeChart.tsx:205-209 | In a rendered chart each bar spans from the zero level to its cost level: above the zero level for a positive cost, below it for a negative one. |
| ChartProperties.RenderPlacesLabels | src/SupersetPluginAbatementAlternativeChart.tsx:213-236 | In a rendered chart, for any `y`, each label is 3 px right of its bar and reads the alternative. It sits 10 px below a negative bar and 10 px above any other. |
| ChartProperties.RenderColorsByCategory | src/SupersetPluginAbatementAlternativeChart.tsx:195-210 | In a rendered chart a bar's category is listed and its fill is `colorArray` at that category's position. Rows of one category share a fill, and the legend swatch of that category shows it. |
| ChartProperties.RenderLaysOutLegend | src/SupersetPluginAbatementAlternativeChart.tsx:269-290 | In a rendered chart, swatch k has colour `colorArray[k]` and lies inside the container. |
| ChartProperties.RenderSpacesSwatches | src/SupersetPluginAbatementAlternativeChart.tsx:280-290 | In a rendered chart, each legend swatch ends above the next one starts, so swatches do not overlap. |
| ChartProperties.RenderLabelsLegend | src/SupersetPluginAbatementAlternativeChart.tsx:292-305 | In a rendered chart, legend label k names category k, starts right of its swatch inside the container, and is level with its swatch. |
| ChartProperties.RenderOrdersLegendFirstSeen | src/SupersetPluginAbatementAlternativeChart.tsx:139-141 | In a rendered chart, legend label k names `uniqueCategories[k]`, which is the dedupe of the sorted rows' categories. Labels come in the order of their categories' first rows in the sorted data. |
| ChartProperties.RenderPadsCostDomain | src/SupersetPluginAbatementAlternativeChart.tsx:155-158 | For rows, the rendered y domain runs from the least cost minus 40 to the greatest cost plus 40. |
| ChartProperties.RenderKeepsCostsInPlot | src/SupersetPluginAbatementAlternativeChart.tsx:152-158 | When `y` maps the padded domain's ends onto `[svgHeight - 65, 0]`, every row's cost level lies inside the plot. |
| ChartProperties.RenderOfNoRows | src/SupersetPluginAbatementAlternativeChart.tsx:133-158 | With no rows there are no bars, labels or legend rows. The container has height 0, the total capacity is 0 and the y domain is undefined. |

## Left out

- DOM and React plumbing is not modelled: the `useEffect` that clears the
  root element and calls `render()`, `d3.select(...).append`, the `Styles`
  component and the lib stub. It has no geometry to prove.
- Styling attributes are not modelled: font sizes and weights, strokes,
  `text-anchor`, `alignment-baseline`, the legend label colour. They are
  constants with nothing to prove.
- The axis titles and the two d3 axes (`axisLeft(y)`, `axisBottom(xA)`,
  their ticks and tick format) are not modelled. Their output is produced
  inside d3.
- d3's own arithmetic is not modelled.
  - `xA` and `y` are parameters characterised by `IsXScale` and
    `NonIncreasing`.
  - The rounding of `rangeRound` is reduced to `y` returning an integer.
  - What d3 does with a zero-width x domain (total capacity 0) is not
    modelled: `IsXScale` demands a positive total.
- JavaScript numbers become reals for costs, capacities and x positions.
  NaN and the infinities are not modelled, and neither is floating-point
  rounding. The empty y domain, which is NaN in the source, is None.
- The `width` and `height` props are narrowed to integers, so the model
  covers whole-pixel surface sizes only. The vertical scale's output is an
  integer as `rangeRound` makes it.
- The lemmas about bar heights and cost levels (BarsSpanBaselineToCost,
  CostLevelsInRange, RenderSpansBarsFromBaseline, RenderKeepsCostsInPlot)
  assume `NonIncreasing(y)`, which the source's `y` satisfies only for a
  surface at least 130 px high. Lower surfaces flip the range and are not
  covered by those lemmas.
- The lemmas that order the bars left to right (PreviousXLengthIsMonotone,
  BarsLeftToRight, SortedBarsLeftToRight, RenderOrdersBarsLeftToRight)
  assume `svgWidth >= 50`, a surface at least 120 px wide. On a narrower
  surface `range([0, svgWidth - 50])` runs backwards, the running sum
  decreases, and those lemmas say nothing.
- Render returns a new sorted sequence. The in-place mutation of
  `props.data` by `data.sort` is not modelled.
- The engine's sort algorithm is not modelled. Only the stability that
  ECMA-262 (10th edition, section 22.1.3.27) requires is used, and
  `Sorting.AnyStableSortIsSortByCost` shows the result does not depend on
  the algorithm.
- Categories.MatchingEntries: the contract states which entries the filter
  keeps and which comes first. It does not state the order of the later
  matches, because `getColor` reads only the first one.
- Categories.AssignColors: the contract states the length and the
  categories. Each entry's colour is stated by
  `Categories.ColorOfListedCategory` and `Chart.LegendRowsInsideBox`
  instead.
