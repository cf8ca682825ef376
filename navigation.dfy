/** The navigation controller's transitions, as functions of the item count
    `n`, the rows per column `limit` and the selected index. */
module Navigation {

  import opened Grid
  import opened Viewport
  import opened Keys

  /** Down: one row further in the same column while the column has a next row.
      At a column's last row the selection stays where it is. */
  function Down(n: nat, limit: nat, sel: nat): (r: nat)
    requires limit > 0 && sel < n
    ensures r < n
    ensures r == sel || r == sel + 1
    ensures RowOf(sel, limit) + 1 < limit && sel + 1 < n ==>
              r == sel + 1 &&
              ColumnOf(r, limit) == ColumnOf(sel, limit) && RowOf(r, limit) == RowOf(sel, limit) + 1
  {
    if RowOf(sel, limit) + 1 < limit && sel + 1 < n then
      Position(ColumnOf(sel, limit), RowOf(sel, limit) + 1, limit);
      sel + 1
    else sel
  }

  /** Up: one row back in the same column unless already at row 0. */
  function Up(n: nat, limit: nat, sel: nat): (r: nat)
    requires limit > 0 && sel < n
    ensures r < n
    ensures r == sel || r + 1 == sel
    ensures RowOf(sel, limit) > 0 ==>
              r + 1 == sel &&
              ColumnOf(r, limit) == ColumnOf(sel, limit) && RowOf(r, limit) + 1 == RowOf(sel, limit)
  {
    if RowOf(sel, limit) > 0 then
      Position(ColumnOf(sel, limit), RowOf(sel, limit) - 1, limit);
      sel - 1
    else sel
  }

  /** Right: the same row of the next column, clamped to the last item of a
      shorter last column; nothing happens in the last column. */
  function Right(n: nat, limit: nat, sel: nat): (r: nat)
    requires limit > 0 && sel < n
    ensures r < n
    ensures ColumnOf(sel, limit) + 1 == ColumnCount(n, limit) ==> r == sel
    ensures ColumnOf(sel, limit) + 1 < ColumnCount(n, limit) ==>
              ColumnOf(r, limit) == ColumnOf(sel, limit) + 1 &&
              RowOf(r, limit) <= RowOf(sel, limit) &&
              (RowOf(r, limit) == RowOf(sel, limit) || r == n - 1)
  {
    var c := ColumnOf(sel, limit);
    Partition(sel, c, limit, n);
    var target := c + 1;
    if target >= ColumnCount(n, limit) then sel
    else
      var candidate := ColumnStart(target, limit) + RowOf(sel, limit);
      var last := ColumnLast(target, limit, n);
      var r := Min(candidate, last);
      Position(target, RowOf(sel, limit), limit);
      Position(target, last - ColumnStart(target, limit), limit);
      r
  }

  /** Left: the same row of the previous column; nothing happens in column 0.
      The clamp never fires: every column before the last is full. */
  function Left(n: nat, limit: nat, sel: nat): (r: nat)
    requires limit > 0 && sel < n
    ensures r < n
    ensures ColumnOf(sel, limit) == 0 ==> r == sel
    ensures ColumnOf(sel, limit) > 0 ==>
              r + limit == sel &&
              ColumnOf(r, limit) + 1 == ColumnOf(sel, limit) && RowOf(r, limit) == RowOf(sel, limit)
  {
    var c := ColumnOf(sel, limit);
    Partition(sel, c, limit, n);
    if c == 0 then sel
    else
      var target := c - 1;
      var candidate := ColumnStart(target, limit) + RowOf(sel, limit);
      Position(target, RowOf(sel, limit), limit);
      Min(candidate, ColumnLast(target, limit, n))
  }

  /** The selected index after a command; `Confirm` does not move. */
  function Next(n: nat, limit: nat, sel: nat, cmd: Command): (r: nat)
    requires limit > 0 && sel < n
    ensures r < n
    ensures cmd == MoveHome ==> r == 0
    ensures cmd == MoveEnd ==> r == n - 1
    ensures cmd == Confirm ==> r == sel
  {
    match cmd
    case MoveDown => Down(n, limit, sel)
    case MoveUp => Up(n, limit, sel)
    case MoveRight => Right(n, limit, sel)
    case MoveLeft => Left(n, limit, sel)
    case MoveHome => 0
    case MoveEnd => n - 1
    case Confirm => sel
  }

  /** Moving left undoes a move right that kept its row. */
  lemma LeftUndoesRight(n: nat, limit: nat, sel: nat)
    requires limit > 0 && sel < n
    requires ColumnOf(sel, limit) + 1 < ColumnCount(n, limit)
    requires RowOf(Right(n, limit, sel), limit) == RowOf(sel, limit)
    ensures Left(n, limit, Right(n, limit, sel)) == sel
  {
  }

  /** Moving right undoes a move left. */
  lemma RightUndoesLeft(n: nat, limit: nat, sel: nat)
    requires limit > 0 && sel < n
    requires ColumnOf(sel, limit) > 0
    ensures Right(n, limit, Left(n, limit, sel)) == sel
  {
    Partition(sel, ColumnOf(sel, limit), limit, n);
  }

  /** Up undoes a move down, and Down undoes a move up. */
  lemma VerticalInverse(n: nat, limit: nat, sel: nat)
    requires limit > 0 && sel < n
    ensures Down(n, limit, sel) != sel ==> Up(n, limit, Down(n, limit, sel)) == sel
    ensures Up(n, limit, sel) != sel ==> Down(n, limit, Up(n, limit, sel)) == sel
  {
  }

  /** Home and End are idempotent: pressing either a second time changes nothing. */
  lemma HomeEndIdempotent(n: nat, limit: nat, sel: nat)
    requires limit > 0 && sel < n
    ensures Next(n, limit, Next(n, limit, sel, MoveHome), MoveHome) == Next(n, limit, sel, MoveHome)
    ensures Next(n, limit, Next(n, limit, sel, MoveEnd), MoveEnd) == Next(n, limit, sel, MoveEnd)
  {
  }

  /** What the widget remembers between key presses: the selected index and
      the first visible column. */
  datatype View = View(selected: nat, first: nat)

  /** The invariant of the widget's state for `n` items: the selection is a
      valid index (0 for an empty list), and the window of `span` columns
      shows the selected column without running past the last column. */
  predicate Placed(n: nat, limit: nat, span: nat, v: View)
  {
    && limit > 0 && span > 0
    && (n == 0 ==> v == View(0, 0))
    && (n > 0 ==>
          && v.selected < n
          && Shows(v.first, span, ColumnOf(v.selected, limit))
          && Clamped(v.first, span, ColumnCount(n, limit)))
  }

  /** One command: move the selection, then scroll the window to it.
      With no items every command is a no-op. */
  function Step(n: nat, limit: nat, span: nat, v: View, cmd: Command): (w: View)
    requires Placed(n, limit, span, v)
    ensures Placed(n, limit, span, w)
    ensures n > 0 ==> w.selected == Next(n, limit, v.selected, cmd)
    // the window takes the minimal shift to the new selected column (see `ScrollIsClosest`)
    ensures n > 0 ==> w.first == Scroll(v.first, span, ColumnOf(w.selected, limit))
    ensures w.selected == v.selected ==> w.first == v.first
  {
    if n == 0 then v
    else
      var sel := Next(n, limit, v.selected, cmd);
      var col := ColumnOf(sel, limit);
      Partition(sel, col, limit, n);
      ScrollKeepsClamped(v.first, span, ColumnCount(n, limit), col);
      View(sel, Scroll(v.first, span, col))
  }

  /** The state after the layout is recomputed (new items with the same values,
      new rows per column, new visible-column count): the selection is kept and
      the window scrolls to it and is clamped to the new last column. */
  function Relayout(n: nat, limit: nat, span: nat, v: View): (w: View)
    requires limit > 0 && span > 0
    requires n == 0 ==> v == View(0, 0)
    requires n > 0 ==> v.selected < n
    ensures Placed(n, limit, span, w)
    ensures w.selected == v.selected
    ensures Placed(n, limit, span, v) ==> w == v
  {
    if n == 0 then v
    else
      var col := ColumnOf(v.selected, limit);
      Partition(v.selected, col, limit, n);
      View(v.selected, Window(v.first, span, ColumnCount(n, limit), col))
  }

  /** A sequence of commands applied one after the other. */
  function Run(n: nat, limit: nat, span: nat, v: View, cmds: seq<Command>): (w: View)
    requires Placed(n, limit, span, v)
    ensures Placed(n, limit, span, w)
    decreases |cmds|
  {
    if cmds == [] then v
    else Run(n, limit, span, Step(n, limit, span, v, cmds[0]), cmds[1..])
  }

  /** Running `a` then `b` is running `a + b`. */
  lemma {:induction false} RunConcat(n: nat, limit: nat, span: nat, v: View, a: seq<Command>, b: seq<Command>)
    requires Placed(n, limit, span, v)
    ensures Run(n, limit, span, Run(n, limit, span, v, a), b) == Run(n, limit, span, v, a + b)
    decreases |a|
  {
    if a != [] {
      assert (a + b)[0] == a[0] && (a + b)[1..] == a[1..] + b;
      RunConcat(n, limit, span, Step(n, limit, span, v, a[0]), a[1..], b);
    } else {
      assert a + b == b;
    }
  }
}
