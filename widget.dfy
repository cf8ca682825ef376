/** The multi-column select input: it owns the item list, the selected index
    and the first visible column, updates them on every key press and on every
    new item list, and reports the highlight and select notifications. */
module Widget {

  import opened Options
  import opened Grid
  import opened Viewport
  import opened Keys
  import opened Items
  import opened Navigation
  import Render

  class Select<V(==)> {
    var items: seq<Item<V>>
    var limit: nat     // rows per column
    var span: nat      // columns that fit side by side in the available width
    var selected: nat
    var first: nat     // first visible column

    function View(): View
      reads this
    {
      Navigation.View(selected, first)
    }

    /** The selection is a valid index and the window shows its column. */
    predicate Valid()
      reads this
    {
      Placed(|items|, limit, span, View())
    }

    /** The frame the renderer draws from the current state. */
    function Frame(): (rows: seq<seq<Render.Cell>>)
      reads this
      requires Valid()
      ensures |items| >= limit ==> |rows| == limit
    {
      Render.Frame(items, limit, first, span, selected)
    }

    /** Line `r` of that frame: the cells of the visible columns at row `r`
        (`Render.FrameLine` shows it is `Frame()[r]`). */
    function Line(r: nat): (cells: seq<Render.Cell>)
      reads this
      requires Valid()
      ensures |cells| <= span
    {
      Render.RowLengthBound(|items|, limit, first, span, r, span);
      Render.Row(items, limit, first, span, selected, r)
    }

    /** A widget showing `items`, with `initialIndex` selected and the window
        scrolled from column 0 just far enough to show it. */
    constructor (items: seq<Item<V>>, limit: nat, span: nat, initialIndex: nat)
      requires limit > 0 && span > 0
      requires initialIndex == 0 || initialIndex < |items|
      ensures Valid()
      ensures this.items == items && this.limit == limit && this.span == span
      ensures selected == initialIndex
      ensures first == (if |items| == 0 then 0 else Scroll(0, span, ColumnOf(initialIndex, limit)))
    {
      this.items := items;
      this.limit := limit;
      this.span := span;
      selected := initialIndex;
      if |items| == 0 {
        first := 0;
      } else {
        var col := ColumnOf(initialIndex, limit);
        Partition(initialIndex, col, limit, |items|);
        ScrollKeepsClamped(0, span, ColumnCount(|items|, limit), col);
        first := Scroll(0, span, col);
      }
    }

    /** Carries out one command. A move that changes the selection reports the
        newly highlighted item; `Confirm` reports the current item as chosen. */
    method Press(cmd: Command) returns (highlighted: Option<Item<V>>, chosen: Option<Item<V>>)
      requires Valid()
      modifies this
      ensures Valid()
      ensures items == old(items) && limit == old(limit) && span == old(span)
      ensures View() == Step(|items|, limit, span, old(View()), cmd)
      ensures highlighted == (if selected != old(selected) then Some(items[selected]) else None)
      ensures chosen == (if cmd == Confirm && |items| > 0 then Some(items[selected]) else None)
    {
      var next := Step(|items|, limit, span, View(), cmd);
      var moved := next.selected != selected;
      selected, first := next.selected, next.first;
      highlighted := if moved then Some(items[selected]) else None;
      chosen := if cmd == Confirm && |items| > 0 then Some(items[selected]) else None;
    }

    /** A key press: a bound key runs its command, any other key is ignored. */
    method HandleKey(k: Key) returns (highlighted: Option<Item<V>>, chosen: Option<Item<V>>)
      requires Valid()
      modifies this
      ensures Valid()
      ensures items == old(items) && limit == old(limit) && span == old(span)
      ensures Decode(k) == None ==> View() == old(View()) && highlighted == None && chosen == None
      ensures Decode(k).Some? ==> View() == Step(|items|, limit, span, old(View()), Decode(k).value)
      ensures highlighted == (if selected != old(selected) then Some(items[selected]) else None)
      ensures chosen == (if Decode(k) == Some(Confirm) && |items| > 0 then Some(items[selected]) else None)
    {
      match Decode(k)
      case None =>
        highlighted, chosen := None, None;
      case Some(cmd) =>
        highlighted, chosen := Press(cmd);
    }

    /** New props: a list whose values differ sends the selection back to the
        first item (reporting it) with the window at column 0; a list that
        differs only in labels keeps the selection, and the window is
        recomputed for the new layout. */
    method Update(newItems: seq<Item<V>>, newLimit: nat, newSpan: nat) returns (highlighted: Option<Item<V>>)
      requires Valid()
      requires newLimit > 0 && newSpan > 0
      modifies this
      ensures Valid()
      ensures items == newItems && limit == newLimit && span == newSpan
      ensures ShouldReset(old(items), newItems) ==>
                selected == 0 && first == 0 &&
                highlighted == (if |newItems| > 0 then Some(newItems[0]) else None)
      ensures !ShouldReset(old(items), newItems) ==>
                highlighted == None && |newItems| == |old(items)| &&
                View() == Relayout(|newItems|, newLimit, newSpan, old(View()))
    {
      var reset := ShouldReset(items, newItems);
      ResetExactlyWhenValuesDiffer(items, newItems);
      items, limit, span := newItems, newLimit, newSpan;
      if reset {
        Position(0, 0, limit);
        selected, first := 0, 0;
        highlighted := if |newItems| > 0 then Some(newItems[0]) else None;
      } else {
        highlighted := None;
        var v := Relayout(|items|, limit, span, Navigation.View(selected, first));
        selected, first := v.selected, v.first;
      }
    }
  }
}
