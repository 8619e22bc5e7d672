/**
 * The category list of `render()`: `Array.from(new Set(sorted.map(d => d.category)))`
 * gives the distinct categories in first-seen order, `categories` pairs entry
 * i with `colorArray[i]`, and `getColor` looks a bar's category up by first match.
 */
module Categories {
  import opened Wrappers
  import opened Rows

  ghost predicate NoDuplicates<T>(xs: seq<T>) {
    forall i, j :: 0 <= i < j < |xs| ==> xs[i] != xs[j]
  }

  /** The position of the first occurrence of `x` in `xs`. */
  function FirstIndex(xs: seq<string>, x: string): (k: nat)
    requires x in xs
    ensures k < |xs| && xs[k] == x
    ensures forall j :: 0 <= j < k ==> xs[j] != x
  {
    if xs[0] == x then 0 else 1 + FirstIndex(xs[1..], x)
  }

  /**
   * The distinct elements of `xs` in first-seen order, built the way a
   * JavaScript Set is filled: each element is appended unless already present.
   */
  function Dedupe(xs: seq<string>): (u: seq<string>)
    ensures NoDuplicates(u)
    ensures forall x :: x in u <==> x in xs
  {
    if |xs| == 0 then []
    else
      var u := Dedupe(xs[..|xs| - 1]);
      var last := xs[|xs| - 1];
      assert xs == xs[..|xs| - 1] + [last];
      if last in u then u else u + [last]
  }

  /** Dedupe lists the elements in the order of their first occurrence in `xs`. */
  lemma {:induction false} DedupeKeepsFirstSeenOrder(xs: seq<string>)
    ensures forall i, j :: 0 <= i < j < |Dedupe(xs)| ==>
      FirstIndex(xs, Dedupe(xs)[i]) < FirstIndex(xs, Dedupe(xs)[j])
  {
    if |xs| > 0 {
      var init := xs[..|xs| - 1];
      var last := xs[|xs| - 1];
      DedupeKeepsFirstSeenOrder(init);
      var u := Dedupe(init);
      forall x | x in init ensures FirstIndex(xs, x) == FirstIndex(init, x) {
        FirstIndexOfPrefix(xs, |xs| - 1, x);
      }
      var d := Dedupe(xs);
      if last in u {
        assert d == u;
      } else {
        assert d == u + [last];
        assert FirstIndex(xs, last) == |xs| - 1;
        forall i, j | 0 <= i < j < |d|
          ensures FirstIndex(xs, d[i]) < FirstIndex(xs, d[j])
        {
          assert d[i] == u[i] && u[i] in init;
          if j < |u| {
            assert d[j] == u[j];
          }
        }
      }
    }
  }

  /** An element that occurs in a prefix occurs first where it first occurs in the prefix. */
  lemma FirstIndexOfPrefix(xs: seq<string>, n: nat, x: string)
    requires n <= |xs| && x in xs[..n]
    ensures FirstIndex(xs, x) == FirstIndex(xs[..n], x)
  {
    var k' := FirstIndex(xs[..n], x);
    assert xs[k'] == x;
  }

  /** The distinct categories of the sorted rows, in first-seen order (`uniqueCategories`). */
  function UniqueCategories(sorted: seq<Row>): (u: seq<string>)
    ensures NoDuplicates(u)
    ensures forall i :: 0 <= i < |sorted| ==> sorted[i].category in u
    ensures forall c :: c in u ==> exists i :: 0 <= i < |sorted| && sorted[i].category == c
  {
    var names := CategoryNames(sorted);
    assert forall i :: 0 <= i < |sorted| ==> names[i] == sorted[i].category;
    Dedupe(names)
  }

  /** `sorted.map(d => d.category)`: the category of every row, row by row. */
  function CategoryNames(sorted: seq<Row>): (names: seq<string>)
  {
    seq(|sorted|, i requires 0 <= i < |sorted| => sorted[i].category)
  }

  /**
   * `uniqueCategories` lists the categories in the order in which they first
   * occur among the sorted rows: a category whose first row comes earlier is
   * listed earlier.
   */
  lemma UniqueCategoriesFirstSeen(sorted: seq<Row>)
    ensures UniqueCategories(sorted) == Dedupe(CategoryNames(sorted))
    ensures var u, names := UniqueCategories(sorted), CategoryNames(sorted);
      forall i, j :: 0 <= i < j < |u| ==> FirstIndex(names, u[i]) < FirstIndex(names, u[j])
  {
    DedupeKeepsFirstSeenOrder(CategoryNames(sorted));
  }

  /** One entry of `categories`: a category and the palette colour it was given. */
  datatype CategoryColor = CategoryColor(category: string, color: Option<Color>)

  /** `uniqueCategories.map((d, index) => ({category: d, color: colorArray[index]}))`. */
  function AssignColors(unique: seq<string>, palette: seq<Color>): (cats: seq<CategoryColor>)
    ensures |cats| == |unique|
    ensures forall i :: 0 <= i < |cats| ==> cats[i].category == unique[i]
  {
    seq(|unique|, i requires 0 <= i < |unique| => CategoryColor(unique[i], PaletteColor(palette, i)))
  }

  /** Entry `i` is the first entry of `cats` whose category is `name`. */
  ghost predicate IsFirstMatch(cats: seq<CategoryColor>, name: string, i: int) {
    && 0 <= i < |cats|
    && cats[i].category == name
    && forall j :: 0 <= j < i ==> cats[j].category != name
  }

  /** `categories.filter(d => d.category === name)`. */
  function MatchingEntries(cats: seq<CategoryColor>, name: string): (m: seq<CategoryColor>)
    ensures forall x :: x in m <==> x in cats && x.category == name
    ensures forall i :: IsFirstMatch(cats, name, i) ==> |m| > 0 && m[0] == cats[i]
  {
    if |cats| == 0 then []
    else
      var rest := MatchingEntries(cats[1..], name);
      assert cats == [cats[0]] + cats[1..];
      FirstMatchInTail(cats, name);
      if cats[0].category == name then [cats[0]] + rest else rest
  }

  /** Past a non-matching head, the first match moves one place forward in the tail. */
  lemma FirstMatchInTail(cats: seq<CategoryColor>, name: string)
    requires |cats| > 0
    ensures cats[0].category == name ==> IsFirstMatch(cats, name, 0)
    ensures cats[0].category != name ==>
      forall i :: IsFirstMatch(cats, name, i) ==> IsFirstMatch(cats[1..], name, i - 1)
  {
  }

  /**
   * `getColor(categories, name)`: the colour of the first entry whose category
   * is `name`; JavaScript `undefined` (None) when no entry matches, and also
   * when the matching entry has no colour.
   */
  function GetColor(cats: seq<CategoryColor>, name: string): (r: Option<Color>)
    ensures (forall i :: 0 <= i < |cats| ==> cats[i].category != name) ==> r == None
    ensures forall i :: IsFirstMatch(cats, name, i) ==> r == cats[i].color
  {
    var colorEle := MatchingEntries(cats, name);
    if |colorEle| > 0 then colorEle[0].color else None
  }

  /**
   * Looking up a listed category returns the palette colour at its position:
   * the category in position k is drawn in `palette[k]`, and in no colour once
   * k is past the end of the palette.
   */
  lemma ColorOfListedCategory(unique: seq<string>, palette: seq<Color>, k: nat)
    requires NoDuplicates(unique) && k < |unique|
    ensures GetColor(AssignColors(unique, palette), unique[k]) == PaletteColor(palette, k)
    ensures k >= |palette| ==> GetColor(AssignColors(unique, palette), unique[k]) == None
  {
    var cats := AssignColors(unique, palette);
    assert cats[k] == CategoryColor(unique[k], PaletteColor(palette, k));
  }
}
