/** A picture's cells, row by row, as one array holds them. */
module Grid {

  newtype byte = b: int | 0 <= b < 256

  /** Where the cell across `x` and down `y` sits in the array. */
  function Cell(w: nat, x: nat, y: nat): nat {
    y * w + x
  }

  /** How far across the cell in place `i` is, and how far down. */
  function Across(w: nat, i: nat): nat
    requires w > 0
  {
    i % w
  }

  function Down(w: nat, i: nat): nat
    requires w > 0
  {
    i / w
  }

  predicate OnGrid(w: nat, h: nat, x: int, y: int) {
    0 <= x < w && 0 <= y < h
  }

  lemma CellOnGrid(w: nat, h: nat, x: nat, y: nat)
    requires OnGrid(w, h, x, y)
    ensures 0 <= Cell(w, x, y) < w * h
  {
    var below: nat := h - y - 1;
    assert h == below + y + 1;
    RowsBelow(w, below, y);
  }

  lemma RowsBelow(w: nat, below: nat, y: nat)
    ensures w * (below + y + 1) == w * below + y * w + w && w * below >= 0
  {
  }

  lemma CellOf(w: nat, x: nat, y: nat)
    requires x < w
    ensures Cell(w, x, y) % w == x && Cell(w, x, y) / w == y
  {
    var i := Cell(w, x, y);
    assert i == (i / w) * w + i % w;
    var d := i / w - y;
    assert d * w == x - i % w;
    assert d >= 1 ==> d * w >= w;
    assert d <= -1 ==> d * w + w <= 0;
  }

  /** Every place in the array is one cell's. */
  lemma PlaceOnGrid(w: nat, h: nat, i: nat)
    requires i < w * h
    ensures w > 0 && OnGrid(w, h, i % w, i / w) && Cell(w, i % w, i / w) == i
  {
    assert w == 0 ==> w * h == 0;
    var y := i / w;
    assert i == y * w + i % w;
    assert y >= h ==> (y - h) * w >= 0;
    assert (y - h) * w == y * w - h * w;
  }
}
