/** The viewport scroller: a window of `span` consecutive columns starting at
    column `first`, moved by the smallest shift that brings the selected
    column into view and never re-centred. */
module Viewport {

  /** Column `col` lies inside the window `first .. first + span - 1`. */
  predicate Shows(first: nat, span: nat, col: nat)
  {
    first <= col < first + span
  }

  /** The window does not run past the last of `total` columns, unless it starts at column 0. */
  predicate Clamped(first: nat, span: nat, total: nat)
  {
    first == 0 || first + span <= total
  }

  /** How far two window positions are apart. */
  function Distance(a: nat, b: nat): nat
  {
    if a <= b then b - a else a - b
  }

  /** Minimal-shift scrolling: a window that already shows `col` stays put; a
      column to the right becomes the rightmost visible one; a column to the
      left becomes the leftmost visible one. */
  function Scroll(first: nat, span: nat, col: nat): (r: nat)
    requires span > 0
    ensures Shows(r, span, col)
    ensures Shows(first, span, col) ==> r == first
    ensures first + span <= col ==> r + span - 1 == col
    ensures col < first ==> r == col
  {
    if col < first then col
    else if first + span <= col then col + 1 - span
    else first
  }

  /** The scrolled window is the unique window showing `col` that is closest to the old one. */
  lemma ScrollIsClosest(first: nat, span: nat, col: nat, other: nat)
    requires span > 0
    requires Shows(other, span, col)
    ensures Distance(Scroll(first, span, col), first) <= Distance(other, first)
    ensures other != Scroll(first, span, col) ==>
              Distance(Scroll(first, span, col), first) < Distance(other, first)
  {
  }

  /** Scrolling twice to the same column is the same as scrolling once. */
  lemma ScrollIdempotent(first: nat, span: nat, col: nat)
    requires span > 0
    ensures Scroll(Scroll(first, span, col), span, col) == Scroll(first, span, col)
  {
  }

  /** Scrolling to an existing column keeps a clamped window clamped. */
  lemma ScrollKeepsClamped(first: nat, span: nat, total: nat, col: nat)
    requires span > 0
    requires col < total
    requires Clamped(first, span, total)
    ensures Clamped(Scroll(first, span, col), span, total)
  {
  }

  /** Pulls a window that runs past the last column back to `total - span` (or to 0). */
  function Clamp(first: nat, span: nat, total: nat): (r: nat)
    ensures Clamped(r, span, total)
    ensures r <= first
    ensures Clamped(first, span, total) ==> r == first
    ensures !Clamped(first, span, total) ==> r == (if span <= total then total - span else 0)
  {
    if first + span <= total then first
    else if span <= total then total - span
    else 0
  }

  /** The window after a layout recompute: scroll to the selected column, then clamp. */
  function Window(first: nat, span: nat, total: nat, col: nat): (r: nat)
    requires span > 0
    requires col < total
    ensures Shows(r, span, col)
    ensures Clamped(r, span, total)
    ensures Shows(first, span, col) && Clamped(first, span, total) ==> r == first
    ensures Clamped(Scroll(first, span, col), span, total) ==> r == Scroll(first, span, col)
  {
    Clamp(Scroll(first, span, col), span, total)
  }
}
