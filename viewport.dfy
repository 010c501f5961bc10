/**
 * The vertical scroll window of a tree list: an inclusive range [a, b] of
 * row indices, slid along the flattened rows so that the selected row stays
 * visible, and re-anchored when the widget is resized.
 */
module Viewport {

  /** The value of a window: its two bounds. */
  datatype Window = Window(a: int, b: int) {
    function Height(): int { b - a }
    predicate Contains(i: int) { a <= i <= b }
  }

  /** Both bounds moved by the same delta: the content slides, the height stays. */
  function Shifted(w: Window, delta: int): (r: Window)
    ensures r.Height() == w.Height()
    ensures r.a - w.a == delta && r.b - w.b == delta
  {
    Window(w.a + delta, w.b + delta)
  }

  function Max(x: int, y: int): int { if x < y then y else x }

  /**
   * The window after `fix_view(current)`: first pulled back to a non-negative
   * top, then dragged up to the selection if it is at or above the top, then
   * dragged down to it if it is at or below the bottom.
   */
  function Fix(w: Window, current: int): (r: Window)
    ensures r.Height() == w.Height()
    ensures w.Height() >= 0 ==> r.Contains(current)
    ensures w.Height() >= 0 && current >= 0 ==> 0 <= r.a
    ensures 0 <= w.a && w.Contains(current) ==> r == w
  {
    var w1 := if w.a < 0 then Shifted(w, -w.a) else w;
    var w2 := if current <= w1.a then Shifted(w1, current - w1.a) else w1;
    if w2.b <= current then Shifted(w2, current - w2.b) else w2
  }

  /**
   * The window `_set_view` builds for a new usable height `size`, before it
   * fixes the view: a growing window keeps its bottom and moves its top up;
   * a shrinking one keeps its top unless that would hide the row below the
   * selection, in which case its bottom is the row just below the selection.
   */
  function Resize(w: Window, current: int, size: int): (r: Window)
    ensures r.Height() == size
    ensures w.Height() <= size ==> r.b == w.b
    ensures w.Height() > size ==> r.b == Max(current + 1, w.a + size)
  {
    var diff := w.Height() - size;
    if diff <= 0 then
      Window(w.a + diff, w.b)
    else
      var bottom := Max(current + 1, w.b - diff);
      Window(bottom - size, bottom)
  }

  /** The whole of `_set_view`: re-anchor, then fix the view on the selection. */
  function SetView(w: Window, current: int, size: int): (r: Window)
    ensures r.Height() == size
    ensures size >= 0 ==> r.Contains(current)
    ensures size >= 0 && current >= 0 ==> 0 <= r.a
  {
    Fix(Resize(w, current, size), current)
  }

  /** Fixing the view twice on the same selection is fixing it once. */
  lemma {:induction false} FixIdempotent(w: Window, current: int)
    requires w.Height() >= 0
    ensures Fix(Fix(w, current), current) == Fix(w, current)
  {
  }

  /**
   * Moving the selection one row down from a visible row scrolls by at most
   * one row: the window stays put while the new row is still inside it, and
   * otherwise slides down by exactly one.
   */
  lemma {:induction false} FixStepDown(w: Window, current: int)
    requires 0 <= w.a && w.Contains(current)
    ensures Fix(w, current + 1) == if current + 1 <= w.b then w else Shifted(w, 1)
  {
  }

  /** The same for moving one row up from a visible row. */
  lemma {:induction false} FixStepUp(w: Window, current: int)
    requires 0 <= w.a && w.Contains(current) && current >= 1
    ensures Fix(w, current - 1) == if w.a <= current - 1 then w else Shifted(w, -1)
  {
  }

  /** The mutable window object the tree list owns. */
  class VerticalView {
    var a: int
    var b: int

    constructor (a: int, b: int)
      ensures this.a == a && this.b == b
    {
      this.a := a;
      this.b := b;
    }

    function Win(): Window
      reads this
    {
      Window(a, b)
    }

    function Height(): int
      reads this
    {
      b - a
    }

    /** The row indices the window shows: `range(a, b + 1)`. */
    function Range(): (r: seq<int>)
      reads this
      ensures |r| == Max(0, b + 1 - a)
      ensures forall i :: 0 <= i < |r| ==> r[i] == a + i
      ensures forall x :: x in r <==> a <= x <= b
    {
      var top := a;
      var r := seq(Max(0, b + 1 - top), i => top + i);
      assert forall x | a <= x <= b :: x in r by {
        forall x | a <= x <= b ensures x in r { assert r[x - a] == x; }
      }
      r
    }

    method ShiftUpper(delta: int)
      modifies this
      ensures a == old(a) + delta && b == old(b)
    {
      a := a + delta;
    }

    method ShiftLower(delta: int)
      modifies this
      ensures b == old(b) + delta && a == old(a)
    {
      b := b + delta;
    }

    method Shift(delta: int)
      modifies this
      ensures Win() == Shifted(old(Win()), delta)
    {
      ShiftLower(delta);
      ShiftUpper(delta);
    }

    method FixView(current: int)
      modifies this
      ensures Win() == Fix(old(Win()), current)
    {
      if a < 0 {
        Shift(-a);
      }
      if current <= a {
        Shift(current - a);
      }
      if b <= current {
        Shift(current - b);
      }
    }
  }
}
