/**
 * The input rows of the abatement-alternative chart and the fixed colour
 * palette it draws categories with.
 */
module Rows {
  import opened Wrappers

  /** A colour as the hex string the chart writes into a `fill` attribute. */
  type Color = string

  /**
   * One input row: `category`, `marginal_Abatement_Cost`,
   * `abatement_Capacity` and `abatement_Alternative` (the bar's label).
   * Costs and capacities are JavaScript numbers, modelled as reals
   * (NaN and the infinities are not modelled).
   */
  datatype Row = Row(
    category: string,
    marginalAbatementCost: real,
    abatementCapacity: real,
    abatementAlternative: string)

  /** The 55-entry `colorArray` of `render()`, in order. */
  const ColorArray: seq<Color> := [
    "#FDA339", "#94A559", "#9E9E9E", "#C2CEDC", "#3A9A38", "#FF6633", "#FFB399",
    "#FF33FF", "#FFFF99", "#00B3E6", "#E6B333", "#3366E6", "#999966", "#99FF99",
    "#B34D4D", "#80B300", "#809900", "#E6B3B3", "#6680B3", "#66991A", "#FF99E6",
    "#CCFF1A", "#FF1A66", "#E6331A", "#33FFCC", "#66994D", "#B366CC", "#4D8000",
    "#B33300", "#CC80CC", "#66664D", "#991AFF", "#E666FF", "#4DB3FF", "#1AB399",
    "#E666B3", "#33991A", "#CC9999", "#B3B31A", "#00E680", "#4D8066", "#809980",
    "#E6FF80", "#1AFF33", "#999933", "#FF3380", "#CCCC00", "#66E64D", "#4D80CC",
    "#9900B3", "#E64D66", "#4DB380", "#FF4D4D", "#99E6E6", "#6666FF"
  ]

  /**
   * `colorArray[index]`: indexing a JavaScript array past its end yields
   * `undefined`, modelled as None.
   */
  function PaletteColor(palette: seq<Color>, index: nat): (c: Option<Color>)
    ensures c.Some? <==> index < |palette|
    ensures c.Some? ==> c.value == palette[index] && c.value in palette
  {
    if index < |palette| then Some(palette[index]) else None
  }

  /** `colorArray` has 55 entries: indices 0 to 54 give a colour, later ones none. */
  lemma ColorArrayLength()
    ensures |ColorArray| == 55
    ensures forall k: nat :: PaletteColor(ColorArray, k).Some? <==> k < 55
  {
  }
}
