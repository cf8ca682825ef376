# Multi-column select input: layout and navigation model

A terminal list widget that arranges many labelled items into a column-major
grid (`limit` rows per column, as many columns as needed) and shows a sliding
window of the columns that fit the available width. Key presses move the
selection: down and up inside a column, right and left across columns (landing
on the last item of a shorter last column), and to the first or last item.
Enter confirms. The window scrolls by the smallest shift that keeps the
selected column in view. When a new item list arrives, the selection goes back
to the first item if any value changed. If only the labels changed, the
selection is kept.

`index.js` is not part of this model. The behaviour modelled is the one
`test/index.test.js` expects. Where no test reaches, the model makes these
choices, which no test confirms:

- Down at a column's last row and Up at row 0 leave the selection in place.
- A scroll to the left makes the selected column the leftmost visible one. The
  only left scroll the tests drive (`^` from window 8) ends at column 0, where
  other policies give the same window.
- On a value change the window goes back to column 0 and item 0 is reported as
  highlighted. The reset test starts with the window already at column 0 and
  does not observe a highlight.
- When the rows per column or the visible column count change, the window is
  scrolled to the selected column and then clamped so that it does not run past
  the last column. No test changes either value.
- An empty list has selection 0 and window 0, and every command leaves it so.

Modules:

- `Grid`: pure column-major arithmetic (column and row of an item, column count, column bounds).
- `Viewport`: the minimal-shift scroller and the clamp used after a layout change.
- `Keys`: logical commands and the table from already-decoded keys to commands.
- `Navigation`: the transition functions, and `Step`/`Run` over the pair (selected index, first visible column).
- `Items`: items and the change detector.
- `Render`: the cells the renderer receives for each screen row (label and an `isSelected` flag).
- `Widget`: the class `Select`. Its fields are updated in place by key presses and new item lists. Its methods are proved against the `Navigation` functions.
- `Scenarios`: each test case as a method. The method drives a `Select` with the test's keys, and its postconditions are the rows and notifications the test expects. The fixture has 150 items, 12 rows per column and 3 visible columns.

## Model

| member | source | states |
|---|---|---|
| Grid.ColumnOf | test/index.test.js:24-26 | item `i` lies in the column `c` with `c*limit <= i < (c+1)*limit` |
| Grid.RowOf | test/index.test.js:24-26 | the row is below `limit`, and column and row rebuild the index: `i == col*limit + row` |
| Grid.ColumnCount | test/index.test.js:245-264 | the column count is the ceiling of `n/limit`: enough columns for `n` items, and no empty last column |
| Grid.ColumnLast | test/index.test.js:224-243 | the last item of column `c` lies in that column and before `n`; every column but the last is full; the last column ends at item `n-1` |
| Grid.ColumnCountBound | test/index.test.js:24-26 | column `c` exists exactly when its first index `c*limit` is below `n` |
| Grid.Partition | test/index.test.js:24-26 | every item's column exists, and item `i` is in column `c` exactly when it lies between that column's first and last index |
| Grid.Position | test/index.test.js:24-26 | the item at column `c`, row `r` is item `c*limit + r` (column and row round-trip) |
| Viewport.Scroll | test/index.test.js:48-63 | the new window shows the column; a window already showing it is kept; a column to the right becomes the rightmost visible one; a column to the left becomes the leftmost |
| Viewport.ScrollIsClosest | test/index.test.js:48-63 | of all windows showing the column, the scrolled one is the unique closest to the old window (minimal shift) |
| Viewport.ScrollIdempotent | test/index.test.js:180-192 | scrolling to the same column twice equals scrolling once |
| Viewport.ScrollKeepsClamped | test/index.test.js:194-222 | scrolling to an existing column never moves a clamped window past the last column |
| Viewport.Clamp | test/index.test.js:348-354 | the result is clamped and never further right than the input; an already clamped window is kept, and one that runs past the last column moves to `total - span` (0 when all columns fit) |
| Viewport.Window | test/index.test.js:348-354 | after a layout change the window shows the selected column and is clamped; it is the minimal-shift `Scroll` window whenever that one is already clamped, and stays put when the old window already did both |
| Items.ShouldReset | test/index.test.js:301-355 | the change detector: a length change always resets and an identical list never does; `Items.ResetExactlyWhenValuesDiffer` characterises it completely |
| Items.ResetExactlyWhenValuesDiffer | test/index.test.js:301-355 | the detector resets exactly when the lengths differ or some position holds a different value (both directions) |
| Items.Relabel | test/index.test.js:328-334 | replacing labels keeps the length and every value and sets every label |
| Items.RelabelKeepsSelection | test/index.test.js:328-354 | a list that differs only in labels never resets the selection |
| Items.ChangedValueResets | test/index.test.js:301-326 | a list with a changed value at any position always resets the selection |
| Keys.Decode | test/index.test.js:180-219 | a letter other than `j k l h ^ $` decodes to no command |
| Keys.DecodeMatchesBindings | test/index.test.js:65-163 | a key decodes to a command exactly when it is one of that command's two bindings (vi letter and named key), or Enter for confirm |
| Navigation.Down | test/index.test.js:80-87 | the result is a valid index, equal to `sel` or `sel+1`; with a next row in the same column it is that row of the same column |
| Navigation.Up | test/index.test.js:105-112 | the result is a valid index, equal to `sel` or `sel-1`; above row 0 it is the previous row of the same column |
| Navigation.Right | test/index.test.js:130-137 | in the last column nothing moves; otherwise the next column, same row, or the last item when that column is shorter |
| Navigation.Left | test/index.test.js:155-162 | in column 0 nothing moves; otherwise exactly `limit` items back: previous column, same row |
| Navigation.Next | test/index.test.js:180-222 | every command keeps the index valid; Home gives 0, End gives `n-1`, Confirm keeps the index |
| Navigation.LeftUndoesRight | test/index.test.js:114-162 | moving left after a move right that kept its row returns to the start |
| Navigation.RightUndoesLeft | test/index.test.js:114-162 | moving right after a move left returns to the start |
| Navigation.VerticalInverse | test/index.test.js:65-113 | Up undoes a move down and Down undoes a move up |
| Navigation.HomeEndIdempotent | test/index.test.js:180-222 | pressing Home or End a second time changes nothing |
| Navigation.Step | test/index.test.js:180-222 | one command keeps the state invariant (valid index, selected column visible, window clamped), selects `Next`, and moves the window by the minimal shift `Scroll` to the new selected column, so a move inside the window leaves it alone |
| Navigation.Relayout | test/index.test.js:348-354 | a layout change keeps the selected index, restores the invariant, and changes nothing when the invariant already holds |
| Navigation.Run | test/index.test.js:184-188 | any sequence of commands keeps the state invariant |
| Navigation.RunConcat | test/index.test.js:184-188 | running two command sequences one after the other equals running their concatenation |
| Render.RowLengthBound | test/index.test.js:240-243 | screen row `r` has a cell for visible column `j` exactly when `j < span` and item `(first+j)*limit + r` exists |
| Render.Row | test/index.test.js:24-26 | a screen row has one cell per visible column that reaches that row |
| Render.Frame | test/index.test.js:24 | the frame has `limit` rows, or one per item when there are fewer items |
| Render.FrameLine | test/index.test.js:24-26 | line `r` of the frame is screen row `r` |
| Render.RowIsColumnMajor | test/index.test.js:24-26 | cell `c-first` of row `r` exists exactly for visible columns `c` that hold item `c*limit + r`, and shows that item's label, marked iff it is the selection |
| Render.OneSelectedCell | test/index.test.js:45-46 | the selected item's cell is at its row and its column's window position, and it is the only cell marked selected |
| Widget.Select.Frame | test/index.test.js:24 | the widget's frame has `limit` lines when there are at least `limit` items |
| Widget.Select.Line | test/index.test.js:25-26 | a line never has more cells than the visible column count |
| Widget.Select.constructor | test/index.test.js:48-63 | the new widget satisfies its invariant, selects `initialIndex`, and scrolls from column 0 just far enough to show it |
| Widget.Select.Press | test/index.test.js:266-300 | the new state is `Step` of the old one; the highlight is reported exactly when the selection moved; Confirm reports the selected item |
| Widget.Select.HandleKey | test/index.test.js:65-163 | an unbound key changes nothing and reports nothing; a bound key does what its command does |
| Widget.Select.Update | test/index.test.js:301-355 | changed values select item 0 with the window at column 0 and report it; otherwise the selection is kept, nothing is reported, and the window is `Relayout` of the old state |
| Scenarios.RowOfThree | test/index.test.js:24-26 | a screen row of three full visible columns holds items `first*12+r`, `+12` and `+24` |
| Scenarios.Look | test/index.test.js:25-26 | the widget's line `r` over the fixture is the expected three labels with the expected mark |
| Scenarios.LookUpper | test/index.test.js:326 | the same for the upper-case labels |
| Scenarios.Type | test/index.test.js:180-185 | a bound key takes the widget from one state to the state `Step` gives |
| Scenarios.UpperFilesReset | test/index.test.js:301-307 | the upper-case second list changes a value, so it resets the selection, and it carries the upper-case labels |
| Scenarios.RelabelledFilesKeep | test/index.test.js:328-335 | the relabelled second list keeps every value, so it keeps the selection, and it carries the upper-case labels |
| Scenarios.SendNewValues | test/index.test.js:320-323 | re-rendering with new values leaves item 0 selected and the window at column 0 |
| Scenarios.SendNewLabels | test/index.test.js:348-351 | re-rendering with new labels keeps the selected index and the window |
| Scenarios.DownSteps | test/index.test.js:80-87 | `j` and arrow-down select items 1 then 2 without scrolling |
| Scenarios.UpSteps | test/index.test.js:105-112 | `k` and arrow-up from item 3 select items 2 then 1 |
| Scenarios.RightSteps | test/index.test.js:130-137 | `l` and arrow-right from item 2 select items 14 then 26 |
| Scenarios.LeftSteps | test/index.test.js:155-162 | `h` and arrow-left from item 26 select items 14 then 2 |
| Scenarios.HomeSteps | test/index.test.js:180-192 | `^` from item 123 (window 8) selects item 0 and scrolls to column 0; `j`, `l` reach item 13; Home returns to 0 |
| Scenarios.EndSteps | test/index.test.js:210-222 | `$` from item 4 selects item 149 with window 10; `k`, `h` reach 136; End returns to 149 |
| Scenarios.LastColumnSteps | test/index.test.js:240-264 | `l` from item 143 lands on item 149; `l` from item 145 changes nothing |
| Scenarios.ConfirmSteps | test/index.test.js:297-298 | `j` selects item 1 and Enter keeps it |
| Scenarios.ResetSteps | test/index.test.js:316 | `l` from item 0 selects item 12 |
| Scenarios.RendersColumnMajor | test/index.test.js:10-47 | the frame has 12 lines; line 0 is items 1, 13, 25 with the first marked; line 11 is items 12, 24, 36 |
| Scenarios.ShiftsToInitialIndex | test/index.test.js:48-64 | with initial index 50 the window starts at column 2, and line 1 is items 26, 38, 50 |
| Scenarios.DownSelectsNext | test/index.test.js:65-88 | after `j` line 1 marks item 2; after arrow-down line 2 marks item 3 |
| Scenarios.UpSelectsPrevious | test/index.test.js:89-113 | after `k` line 2 marks item 3; after arrow-up line 1 marks item 2 |
| Scenarios.RightMovesColumn | test/index.test.js:114-138 | after `l` line 2 marks item 15; after arrow-right it marks item 27 |
| Scenarios.LeftMovesColumn | test/index.test.js:139-163 | after `h` line 2 marks item 15; after arrow-left it marks item 3 |
| Scenarios.CaretSelectsFirst | test/index.test.js:164-188 | after `^` line 0 marks item 1 at column 0; after `j` and `l` line 1 marks item 14 |
| Scenarios.HomeKeySelectsFirst | test/index.test.js:164-193 | after the Home key line 0 marks item 1 again |
| Scenarios.DollarSelectsLast | test/index.test.js:194-218 | after `$` line 5 is items 126, 138, 150 with 150 marked; after `k` and `h` line 4 marks item 137 |
| Scenarios.EndKeySelectsLast | test/index.test.js:194-223 | after the End key line 5 marks item 150 again |
| Scenarios.RightClampsToShortColumn | test/index.test.js:224-244 | from item 143, `l` selects item 149 and line 5 marks item 150 |
| Scenarios.RightStaysInLastColumn | test/index.test.js:245-265 | from item 145, `l` keeps the selection and line 5 marks none of items 126, 138, 150 |
| Scenarios.HighlightReported | test/index.test.js:266-282 | `j` reports the item whose value is `filename2.ext` |
| Scenarios.SelectReported | test/index.test.js:283-300 | `j` then Enter reports the item whose value is `filename2.ext` as chosen |
| Scenarios.ResetOnNewValues | test/index.test.js:301-327 | after `l` line 0 marks item 13; new values move the mark to `FILENAME1.EXT` |
| Scenarios.KeepOnNewLabels | test/index.test.js:328-355 | after `l` line 0 marks item 13; new labels keep the mark on `FILENAME13.EXT` |

## Left out

- Drawing: glyphs, colours, padding, the indicator component and the escape sequences in a frame. The model stops at the cells handed to the renderer, each with a label and an `isSelected` flag.
- Column widths and the width-to-visible-columns rule: the number of visible columns is a parameter (`span`). The scenarios use 3, the count the tests observe for 80 characters.
- Raw keystroke decoding: keys arrive already decoded (`Keys.Key`), and only the table from keys to commands is modelled.
- The asynchronous timing of re-renders and effects. Each key press and each new item list is one atomic method call.
- Navigation.Down: at a column's last row the function leaves the selection in place. The contract promises only "same index or the next one", because no test presses Down there.
- Navigation.Up: the same for row 0. The contract promises only "same index or the previous one".
- Widget.Select.constructor: requires `limit > 0`, a visible column count above 0, and an initial index inside the list (or 0). The widget's handling of other values cannot be seen, so they are excluded rather than guessed.
- Widget.Select.constructor: no highlight notification is modelled when the widget first appears. The tests do not observe one.
- Widget.Select.Update: rows per column and visible columns change only through this method, together with the items.
- Scenarios.HomeKeySelectsFirst and Scenarios.EndKeySelectsLast replay their test's earlier keys and check only the last frame. The earlier frames are checked by Scenarios.CaretSelectsFirst and Scenarios.DollarSelectsLast.
