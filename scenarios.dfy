/** The widget's test suite, one method per test case: 150 items
    `filename1.ext` .. `filename150.ext`, 12 rows per column and three columns
    side by side in the 80-character width. Each method drives a widget the
    way its test does, and its postconditions are the rows and notifications
    the test expects. */
module Scenarios {

  import opened Options
  import opened Keys
  import opened Items
  import opened Render
  import opened Navigation
  import opened Widget

  function DigitChar(d: nat): char
    requires d < 10
  {
    "0123456789"[d]
  }

  /** The decimal digits of `i`. */
  function Digits(i: nat): string
  {
    if i < 10 then [DigitChar(i)] else Digits(i / 10) + [DigitChar(i % 10)]
  }

  function FileName(i: nat): string
  {
    "filename" + Digits(i) + ".ext"
  }

  function UpperName(i: nat): string
  {
    "FILENAME" + Digits(i) + ".EXT"
  }

  /** The test fixture: item `k` (from 0) is labelled and valued `filename<k+1>.ext`. */
  function Files(): (items: seq<Item<string>>)
    ensures |items| == 150
  {
    seq(150, k requires 0 <= k < 150 => Item(FileName(k + 1), FileName(k + 1)))
  }

  /** The second-stage fixture with different values: `FILENAME<k+1>.EXT`. */
  function UpperFiles(): (items: seq<Item<string>>)
    ensures |items| == 150
  {
    seq(150, k requires 0 <= k < 150 => Item(UpperName(k + 1), UpperName(k + 1)))
  }

  /** The second-stage fixture with new labels and the old values. */
  function RelabelledFiles(): (items: seq<Item<string>>)
    ensures |items| == 150
  {
    seq(150, k requires 0 <= k < 150 => Item(UpperName(k + 1), FileName(k + 1)))
  }

  /** A 150-item list whose item `k` is labelled `FILENAME<k+1>.EXT`. */
  predicate UpperLabels(items: seq<Item<string>>)
  {
    |items| == 150 && forall k :: 0 <= k < 150 ==> items[k].text == UpperName(k + 1)
  }

  /** Screen row `r` of a row of three cells: `filename<a>.ext`, `<b>`, `<c>`,
      with the cell at position `mark` (if any) selected. */
  function Expected(a: nat, b: nat, c: nat, mark: int): seq<Cell>
  {
    [Cell(FileName(a), mark == 0), Cell(FileName(b), mark == 1), Cell(FileName(c), mark == 2)]
  }

  function ExpectedUpper(a: nat, b: nat, c: nat, mark: int): seq<Cell>
  {
    [Cell(UpperName(a), mark == 0), Cell(UpperName(b), mark == 1), Cell(UpperName(c), mark == 2)]
  }

  /** A screen row of three full visible columns, cell by cell. */
  lemma RowOfThree(items: seq<Item<string>>, first: nat, sel: nat, r: nat)
    requires r < 12 && (first + 2) * 12 + r < |items|
    ensures Row(items, 12, first, 3, sel, r) ==
              [Cell(items[first * 12 + r].text, first * 12 + r == sel),
               Cell(items[(first + 1) * 12 + r].text, (first + 1) * 12 + r == sel),
               Cell(items[(first + 2) * 12 + r].text, (first + 2) * 12 + r == sel)]
  {
  }

  /** Screen line `r` of a widget over the fixture, three full columns wide,
      with the selected cell at position `mark` (-1: none). */
  method Look(w: Select<string>, r: nat, a: nat, b: nat, c: nat, mark: int) returns (row: seq<Cell>)
    requires w.Valid() && w.items == Files() && w.limit == 12 && w.span == 3
    requires r < 12 && (w.first + 2) * 12 + r < 150
    requires a == w.first * 12 + r + 1 && b == a + 12 && c == b + 12
    requires -1 <= mark <= 2
    requires mark == -1 ==> w.selected != w.first * 12 + r && w.selected != (w.first + 1) * 12 + r &&
                            w.selected != (w.first + 2) * 12 + r
    requires mark >= 0 ==> w.selected == (w.first + mark) * 12 + r
    ensures row == Expected(a, b, c, mark)
  {
    RowOfThree(w.items, w.first, w.selected, r);
    row := w.Line(r);
  }

  /** The same for a widget over one of the upper-case fixtures. */
  method LookUpper(w: Select<string>, r: nat, a: nat, b: nat, c: nat, mark: int) returns (row: seq<Cell>)
    requires w.Valid() && UpperLabels(w.items)
    requires w.limit == 12 && w.span == 3
    requires r < 12 && (w.first + 2) * 12 + r < 150
    requires a == w.first * 12 + r + 1 && b == a + 12 && c == b + 12
    requires -1 <= mark <= 2
    requires mark == -1 ==> w.selected != w.first * 12 + r && w.selected != (w.first + 1) * 12 + r &&
                            w.selected != (w.first + 2) * 12 + r
    requires mark >= 0 ==> w.selected == (w.first + mark) * 12 + r
    ensures row == ExpectedUpper(a, b, c, mark)
  {
    RowOfThree(w.items, w.first, w.selected, r);
    row := w.Line(r);
  }

  /** Key `k`, bound to `cmd`, pressed on a widget over the fixture in state `from`. */
  method Type(w: Select<string>, k: Key, ghost cmd: Command, ghost from: View, ghost to: View)
    requires w.Valid() && w.items == Files() && w.limit == 12 && w.span == 3
    requires w.View() == from && Decode(k) == Some(cmd)
    requires Step(150, 12, 3, from, cmd) == to
    modifies w
    ensures w.Valid() && w.items == Files() && w.limit == 12 && w.span == 3
    ensures w.selected == to.selected && w.first == to.first
  {
    var _, _ := w.HandleKey(k);
  }

  /** The upper-case list changes the first value, so it resets the selection. */
  lemma UpperFilesReset()
    ensures ShouldReset(Files(), UpperFiles()) && UpperLabels(UpperFiles())
  {
    assert FileName(1)[0] == 'f' && UpperName(1)[0] == 'F';
    ChangedValueResets(Files(), UpperFiles(), 0);
  }

  /** The relabelled list keeps every value, so it keeps the selection. */
  lemma RelabelledFilesKeep()
    ensures !ShouldReset(Files(), RelabelledFiles()) && UpperLabels(RelabelledFiles())
  {
    ResetExactlyWhenValuesDiffer(Files(), RelabelledFiles());
  }

  /** The fixture re-rendered with new values (`FILENAME<k>.EXT`): the selection returns to item 0. */
  method SendNewValues(w: Select<string>)
    requires w.Valid() && w.items == Files() && w.limit == 12 && w.span == 3
    modifies w
    ensures w.Valid() && UpperLabels(w.items) && w.limit == 12 && w.span == 3
    ensures w.selected == 0 && w.first == 0
  {
    UpperFilesReset();
    var _ := w.Update(UpperFiles(), 12, 3);
  }

  /** The fixture re-rendered with new labels and the old values: the selection and the window stay. */
  method SendNewLabels(w: Select<string>)
    requires w.Valid() && w.items == Files() && w.limit == 12 && w.span == 3
    modifies w
    ensures w.Valid() && UpperLabels(w.items) && w.limit == 12 && w.span == 3
    ensures w.selected == old(w.selected) && w.first == old(w.first)
  {
    RelabelledFilesKeep();
    var _ := w.Update(RelabelledFiles(), 12, 3);
  }

  // The transitions each test drives, on the fixture's 150 items, 12 rows and 3 visible columns.

  lemma DownSteps()
    ensures Step(150, 12, 3, View(0, 0), MoveDown) == View(1, 0)
    ensures Step(150, 12, 3, View(1, 0), MoveDown) == View(2, 0)
  {
  }

  lemma UpSteps()
    ensures Step(150, 12, 3, View(3, 0), MoveUp) == View(2, 0)
    ensures Step(150, 12, 3, View(2, 0), MoveUp) == View(1, 0)
  {
  }

  lemma RightSteps()
    ensures Step(150, 12, 3, View(2, 0), MoveRight) == View(14, 0)
    ensures Step(150, 12, 3, View(14, 0), MoveRight) == View(26, 0)
  {
  }

  lemma LeftSteps()
    ensures Step(150, 12, 3, View(26, 0), MoveLeft) == View(14, 0)
    ensures Step(150, 12, 3, View(14, 0), MoveLeft) == View(2, 0)
  {
  }

  lemma HomeSteps()
    ensures Step(150, 12, 3, View(123, 8), MoveHome) == View(0, 0)
    ensures Step(150, 12, 3, View(0, 0), MoveDown) == View(1, 0)
    ensures Step(150, 12, 3, View(1, 0), MoveRight) == View(13, 0)
    ensures Step(150, 12, 3, View(13, 0), MoveHome) == View(0, 0)
  {
  }

  lemma EndSteps()
    ensures Step(150, 12, 3, View(4, 0), MoveEnd) == View(149, 10)
    ensures Step(150, 12, 3, View(149, 10), MoveUp) == View(148, 10)
    ensures Step(150, 12, 3, View(148, 10), MoveLeft) == View(136, 10)
    ensures Step(150, 12, 3, View(136, 10), MoveEnd) == View(149, 10)
  {
  }

  lemma LastColumnSteps()
    ensures Step(150, 12, 3, View(143, 9), MoveRight) == View(149, 10)
    ensures Step(150, 12, 3, View(145, 10), MoveRight) == View(145, 10)
  {
  }

  lemma ConfirmSteps()
    ensures Step(150, 12, 3, View(0, 0), MoveDown) == View(1, 0)
    ensures Step(150, 12, 3, View(1, 0), Confirm) == View(1, 0)
  {
  }

  lemma ResetSteps()
    ensures Step(150, 12, 3, View(0, 0), MoveRight) == View(12, 0)
  {
  }

  /** The list renders as 12 rows, row r showing items r, r + 12, r + 24, with
      the first item selected. */
  method RendersColumnMajor() returns (height: nat, top: seq<Cell>, bottom: seq<Cell>)
    ensures height == 12
    ensures top == Expected(1, 13, 25, 0)
    ensures bottom == Expected(12, 24, 36, -1)
  {
    var w := new Select(Files(), 12, 3, 0);
    var frame := w.Frame();
    height := |frame|;
    top := Look(w, 0, 1, 13, 25, 0);
    bottom := Look(w, 11, 12, 24, 36, -1);
  }

  /** With item 50 selected initially, the window is columns 2 .. 4. */
  method ShiftsToInitialIndex() returns (first: nat, row: seq<Cell>)
    ensures first == 2
    ensures row == Expected(26, 38, 50, -1)
  {
    var w := new Select(Files(), 12, 3, 50);
    first := w.first;
    row := Look(w, 1, 26, 38, 50, -1);
  }

  /** `j` and then arrow-down each select the next item in the column. */
  method DownSelectsNext() returns (afterJ: seq<Cell>, afterArrow: seq<Cell>)
    ensures afterJ == Expected(2, 14, 26, 0)
    ensures afterArrow == Expected(3, 15, 27, 0)
  {
    var w := new Select(Files(), 12, 3, 0);
    DownSteps();
    Type(w, Letter('j'), MoveDown, View(0, 0), View(1, 0));
    afterJ := Look(w, 1, 2, 14, 26, 0);
    Type(w, DownArrow, MoveDown, View(1, 0), View(2, 0));
    afterArrow := Look(w, 2, 3, 15, 27, 0);
  }

  /** From item 3, `k` and then arrow-up each select the previous item in the column. */
  method UpSelectsPrevious() returns (afterK: seq<Cell>, afterArrow: seq<Cell>)
    ensures afterK == Expected(3, 15, 27, 0)
    ensures afterArrow == Expected(2, 14, 26, 0)
  {
    var w := new Select(Files(), 12, 3, 3);
    UpSteps();
    Type(w, Letter('k'), MoveUp, View(3, 0), View(2, 0));
    afterK := Look(w, 2, 3, 15, 27, 0);
    Type(w, UpArrow, MoveUp, View(2, 0), View(1, 0));
    afterArrow := Look(w, 1, 2, 14, 26, 0);
  }

  /** From item 2, `l` and then arrow-right each move one column right in the same row. */
  method RightMovesColumn() returns (afterL: seq<Cell>, afterArrow: seq<Cell>)
    ensures afterL == Expected(3, 15, 27, 1)
    ensures afterArrow == Expected(3, 15, 27, 2)
  {
    var w := new Select(Files(), 12, 3, 2);
    RightSteps();
    Type(w, Letter('l'), MoveRight, View(2, 0), View(14, 0));
    afterL := Look(w, 2, 3, 15, 27, 1);
    Type(w, RightArrow, MoveRight, View(14, 0), View(26, 0));
    afterArrow := Look(w, 2, 3, 15, 27, 2);
  }

  /** From item 26, `h` and then arrow-left each move one column left in the same row. */
  method LeftMovesColumn() returns (afterH: seq<Cell>, afterArrow: seq<Cell>)
    ensures afterH == Expected(3, 15, 27, 1)
    ensures afterArrow == Expected(3, 15, 27, 0)
  {
    var w := new Select(Files(), 12, 3, 26);
    LeftSteps();
    Type(w, Letter('h'), MoveLeft, View(26, 0), View(14, 0));
    afterH := Look(w, 2, 3, 15, 27, 1);
    Type(w, LeftArrow, MoveLeft, View(14, 0), View(2, 0));
    afterArrow := Look(w, 2, 3, 15, 27, 0);
  }

  /** From item 123, `^` selects the first item and scrolls back to column 0;
      `j` and `l` then move from there. */
  method CaretSelectsFirst() returns (afterCaret: seq<Cell>, afterMoves: seq<Cell>)
    ensures afterCaret == Expected(1, 13, 25, 0)
    ensures afterMoves == Expected(2, 14, 26, 1)
  {
    var w := new Select(Files(), 12, 3, 123);
    HomeSteps();
    Type(w, Letter('^'), MoveHome, View(123, 8), View(0, 0));
    afterCaret := Look(w, 0, 1, 13, 25, 0);
    Type(w, Letter('j'), MoveDown, View(0, 0), View(1, 0));
    Type(w, Letter('l'), MoveRight, View(1, 0), View(13, 0));
    afterMoves := Look(w, 1, 2, 14, 26, 1);
  }

  /** The same key presses followed by the Home key select the first item again. */
  method HomeKeySelectsFirst() returns (afterHome: seq<Cell>)
    ensures afterHome == Expected(1, 13, 25, 0)
  {
    var w := new Select(Files(), 12, 3, 123);
    HomeSteps();
    Type(w, Letter('^'), MoveHome, View(123, 8), View(0, 0));
    Type(w, Letter('j'), MoveDown, View(0, 0), View(1, 0));
    Type(w, Letter('l'), MoveRight, View(1, 0), View(13, 0));
    Type(w, HomeKey, MoveHome, View(13, 0), View(0, 0));
    afterHome := Look(w, 0, 1, 13, 25, 0);
  }

  /** From item 4, `$` selects the last item and scrolls to columns 10 .. 12;
      `k` and `h` then move inside that window. */
  method DollarSelectsLast() returns (afterDollar: seq<Cell>, afterMoves: seq<Cell>)
    ensures afterDollar == Expected(126, 138, 150, 2)
    ensures afterMoves == Expected(125, 137, 149, 1)
  {
    var w := new Select(Files(), 12, 3, 4);
    EndSteps();
    Type(w, Letter('$'), MoveEnd, View(4, 0), View(149, 10));
    afterDollar := Look(w, 5, 126, 138, 150, 2);
    Type(w, Letter('k'), MoveUp, View(149, 10), View(148, 10));
    Type(w, Letter('h'), MoveLeft, View(148, 10), View(136, 10));
    afterMoves := Look(w, 4, 125, 137, 149, 1);
  }

  /** The same key presses followed by the End key select the last item again. */
  method EndKeySelectsLast() returns (afterEnd: seq<Cell>)
    ensures afterEnd == Expected(126, 138, 150, 2)
  {
    var w := new Select(Files(), 12, 3, 4);
    EndSteps();
    Type(w, Letter('$'), MoveEnd, View(4, 0), View(149, 10));
    Type(w, Letter('k'), MoveUp, View(149, 10), View(148, 10));
    Type(w, Letter('h'), MoveLeft, View(148, 10), View(136, 10));
    Type(w, EndKey, MoveEnd, View(136, 10), View(149, 10));
    afterEnd := Look(w, 5, 126, 138, 150, 2);
  }

  /** From item 143 (column 11, row 11), `l` lands on the last item of the
      six-item last column. */
  method RightClampsToShortColumn() returns (selected: nat, row: seq<Cell>)
    ensures selected == 149
    ensures row == Expected(126, 138, 150, 2)
  {
    var w := new Select(Files(), 12, 3, 143);
    LastColumnSteps();
    Type(w, Letter('l'), MoveRight, View(143, 9), View(149, 10));
    selected := w.selected;
    row := Look(w, 5, 126, 138, 150, 2);
  }

  /** From item 145, already in the last column, `l` changes nothing. */
  method RightStaysInLastColumn() returns (selected: nat, row: seq<Cell>)
    ensures selected == 145
    ensures row == Expected(126, 138, 150, -1)
  {
    var w := new Select(Files(), 12, 3, 145);
    LastColumnSteps();
    Type(w, Letter('l'), MoveRight, View(145, 10), View(145, 10));
    selected := w.selected;
    row := Look(w, 5, 126, 138, 150, -1);
  }

  /** `j` reports the newly highlighted item `filename2.ext`. */
  method HighlightReported() returns (highlighted: Option<Item<string>>)
    ensures highlighted.Some? && highlighted.value.value == FileName(2)
  {
    var w := new Select(Files(), 12, 3, 0);
    ConfirmSteps();
    var h, _ := w.HandleKey(Letter('j'));
    highlighted := h;
  }

  /** After `j`, Enter reports `filename2.ext` as chosen and keeps the selection. */
  method SelectReported() returns (chosen: Option<Item<string>>, selected: nat)
    ensures chosen.Some? && chosen.value.value == FileName(2)
    ensures selected == 1
  {
    var w := new Select(Files(), 12, 3, 0);
    ConfirmSteps();
    var _, _ := w.HandleKey(Letter('j'));
    var _, c := w.HandleKey(Enter);
    chosen, selected := c, w.selected;
  }

  /** After `l` selects item 12, a list with different values selects item 0 again. */
  method ResetOnNewValues() returns (before: seq<Cell>, after: seq<Cell>)
    ensures before == Expected(1, 13, 25, 1)
    ensures after == ExpectedUpper(1, 13, 25, 0)
  {
    var w := new Select(Files(), 12, 3, 0);
    ResetSteps();
    Type(w, Letter('l'), MoveRight, View(0, 0), View(12, 0));
    before := Look(w, 0, 1, 13, 25, 1);
    SendNewValues(w);
    after := LookUpper(w, 0, 1, 13, 25, 0);
  }

  /** After `l` selects item 12, a list with new labels but the same values keeps item 12. */
  method KeepOnNewLabels() returns (before: seq<Cell>, after: seq<Cell>)
    ensures before == Expected(1, 13, 25, 1)
    ensures after == ExpectedUpper(1, 13, 25, 1)
  {
    var w := new Select(Files(), 12, 3, 0);
    ResetSteps();
    Type(w, Letter('l'), MoveRight, View(0, 0), View(12, 0));
    before := Look(w, 0, 1, 13, 25, 1);
    SendNewLabels(w);
    after := LookUpper(w, 0, 1, 13, 25, 1);
  }
}
