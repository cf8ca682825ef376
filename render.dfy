/** What the widget hands to its renderer: for each screen row, the cells of
    the visible columns, each with its label and whether it is the selected
    item. Glyphs, colours and column widths are the renderer's business. */
module Render {

  import opened Grid
  import opened Items

  datatype Cell = Cell(text: string, isSelected: bool)

  /** How many of the visible columns `first .. first + span - 1` have a row `r`. */
  function RowLength(n: nat, limit: nat, first: nat, span: nat, r: nat): nat
    requires limit > 0
  {
    if r >= n then 0
    else
      var have := ColumnCount(n - r, limit);  // the columns c with c * limit + r < n
      if have <= first then 0 else Min(span, have - first)
  }

  /** A visible column has a cell in row `r` exactly when it holds an item at that row. */
  lemma RowLengthBound(n: nat, limit: nat, first: nat, span: nat, r: nat, j: nat)
    requires limit > 0
    ensures j < RowLength(n, limit, first, span, r) <==> j < span && (first + j) * limit + r < n
  {
    if r < n {
      ColumnCountBound(n - r, limit, first + j);
    }
  }

  /** Screen row `r`: the items `c * limit + r` of the visible columns `c` that reach that far. */
  function Row<V>(items: seq<Item<V>>, limit: nat, first: nat, span: nat, sel: nat, r: nat): (cells: seq<Cell>)
    requires limit > 0
    ensures |cells| == RowLength(|items|, limit, first, span, r)
  {
    var k := RowLength(|items|, limit, first, span, r);
    seq(k, j requires 0 <= j < k =>
      RowLengthBound(|items|, limit, first, span, r, j);
      var i := (first + j) * limit + r;
      Cell(items[i].text, i == sel))
  }

  /** The whole frame: one row per row index up to `limit`, fewer when there are fewer items. */
  function Frame<V>(items: seq<Item<V>>, limit: nat, first: nat, span: nat, sel: nat): (rows: seq<seq<Cell>>)
    requires limit > 0
    ensures |items| >= limit ==> |rows| == limit
    ensures |items| < limit ==> |rows| == |items|
  {
    var height := Min(limit, |items|);
    seq(height, r requires 0 <= r < height => Row(items, limit, first, span, sel, r))
  }

  /** Line `r` of the frame is screen row `r`. */
  lemma FrameLine<V>(items: seq<Item<V>>, limit: nat, first: nat, span: nat, sel: nat, r: nat)
    requires limit > 0
    requires r < |Frame(items, limit, first, span, sel)|
    ensures Frame(items, limit, first, span, sel)[r] == Row(items, limit, first, span, sel, r)
  {
  }

  /** Column-major layout: cell `c - first` of screen row `r` is item `c * limit + r`,
      for every visible column `c` that has a row `r`, and the row has no other cells. */
  lemma {:induction false} RowIsColumnMajor<V>(items: seq<Item<V>>, limit: nat, first: nat, span: nat, sel: nat, r: nat, c: nat)
    requires limit > 0
    ensures c - first < |Row(items, limit, first, span, sel, r)| && first <= c <==>
              first <= c < first + span && c * limit + r < |items|
    ensures first <= c < first + span && c * limit + r < |items| ==>
              Row(items, limit, first, span, sel, r)[c - first] ==
                Cell(items[c * limit + r].text, c * limit + r == sel)
  {
    if first <= c {
      RowLengthBound(|items|, limit, first, span, r, c - first);
    }
  }

  /** Exactly one cell of the frame is marked selected: the one at the selected
      item's row and at its column's place in the window. */
  lemma {:induction false} OneSelectedCell<V>(items: seq<Item<V>>, limit: nat, first: nat, span: nat, sel: nat)
    requires limit > 0
    requires sel < |items|
    requires first <= ColumnOf(sel, limit) < first + span
    ensures var rows := Frame(items, limit, first, span, sel);
            RowOf(sel, limit) < |rows| &&
            ColumnOf(sel, limit) - first < |rows[RowOf(sel, limit)]| &&
            rows[RowOf(sel, limit)][ColumnOf(sel, limit) - first] == Cell(items[sel].text, true)
    ensures var rows := Frame(items, limit, first, span, sel);
            forall r, j :: 0 <= r < |rows| && 0 <= j < |rows[r]| && rows[r][j].isSelected ==>
              r == RowOf(sel, limit) && j == ColumnOf(sel, limit) - first
  {
    var rows: seq<seq<Cell>> := Frame(items, limit, first, span, sel);
    var c, r := ColumnOf(sel, limit), RowOf(sel, limit);
    assert r <= sel;
    RowIsColumnMajor(items, limit, first, span, sel, r, c);
    forall r': nat, j: nat | 0 <= r' < |rows| && 0 <= j < |rows[r']| && rows[r'][j].isSelected
      ensures r' == r && j == c - first
    {
      RowLengthBound(|items|, limit, first, span, r', j);
      assert r' < limit;
      Position(first + j, r', limit);
    }
  }
}
