/** Flood fill, and the cells it reaches: those joined to the start, and no others. */
module Piece {
  import opened Grid

  // ---------- What a piece is ----------

  function Distance(a: int, b: int): nat {
    if a < b then b - a else a - b
  }

  /** Two cells that share an edge: one apart across or one apart down, never both,
      and never the end of one row and the start of the next. */
  predicate Adjacent(w: nat, i: nat, j: nat)
    requires w > 0
  {
    Distance(Across(w, i), Across(w, j)) + Distance(Down(w, i), Down(w, j)) == 1
  }

  predicate Said(mask: seq<byte>, i: int) {
    0 <= i < |mask| && mask[i] != 0
  }

  /** From cell to adjacent cell, all of them the mask's. */
  ghost predicate Path(mask: seq<byte>, w: nat, p: seq<nat>)
    requires w > 0
  {
    && (forall k :: 0 <= k < |p| ==> Said(mask, p[k]))
    && (forall k :: 0 < k < |p| ==> Adjacent(w, p[k - 1], p[k]))
  }

  ghost predicate Connected(mask: seq<byte>, w: nat, a: nat, b: nat)
    requires w > 0
  {
    exists p: seq<nat> :: |p| > 0 && p[0] == a && p[|p| - 1] == b && Path(mask, w, p)
  }

  ghost function Marks(piece: seq<byte>): set<nat> {
    set i: nat | i < |piece| && piece[i] != 0
  }

  // ---------- Which cells the fill looks at ----------

  /** Left, right, above and below, −1 where the row ends. */
  function Around(w: nat, i: nat): seq<int>
    requires w > 0
  {
    var x := Across(w, i);
    [if x > 0 then i - 1 else -1, if x < w - 1 then i + 1 else -1, i - w, i + w]
  }

  lemma StepAcross(w: nat, i: nat)
    requires w > 0
    ensures i % w > 0 ==> (i - 1) % w == i % w - 1 && (i - 1) / w == i / w
    ensures i % w < w - 1 ==> (i + 1) % w == i % w + 1 && (i + 1) / w == i / w
  {
    var x, y := i % w, i / w;
    assert i == Cell(w, x, y);
    if x > 0 {
      CellOf(w, x - 1, y);
    }
    if x < w - 1 {
      CellOf(w, x + 1, y);
    }
  }

  lemma StepDown(w: nat, i: nat)
    requires w > 0
    ensures (i + w) % w == i % w && (i + w) / w == i / w + 1
  {
    CellOf(w, i % w, i / w + 1);
    assert Cell(w, i % w, i / w + 1) == Cell(w, i % w, i / w) + w == i + w;
  }

  lemma StepUp(w: nat, i: nat)
    requires w > 0
    ensures i >= w ==> (i - w) % w == i % w && (i - w) / w == i / w - 1
    ensures i >= w <==> i / w >= 1
  {
    var x, y := i % w, i / w;
    assert i == Cell(w, x, y);
    if y >= 1 {
      assert (y - 1) * w >= 0;
      assert Cell(w, x, y - 1) == i - w;
      CellOf(w, x, y - 1);
    } else {
      assert Cell(w, x, y) == x;
    }
  }

  /** On the grid, the cells looked at are exactly the adjacent ones. */
  lemma AroundIsAdjacent(w: nat, i: nat, j: nat)
    requires w > 0
    ensures Adjacent(w, i, j) <==> j in Around(w, i)
  {
    hide Across, Down;
    BesideIt(w, i, j);
    AboveOrBelowIt(w, i, j);
    var a := Around(w, i);
    assert j in a <==> j == a[0] || j == a[1] || j == a[2] || j == a[3];
  }

  lemma BesideIt(w: nat, i: nat, j: nat)
    requires w > 0
    ensures Across(w, i) < w && Across(w, j) < w
    ensures Across(w, i) > 0 ==> i > 0
    ensures Across(w, i) > 0 ==> (i - 1 == j <==> Across(w, j) == Across(w, i) - 1 && Down(w, j) == Down(w, i))
    ensures Across(w, i) < w - 1 ==> (i + 1 == j <==> Across(w, j) == Across(w, i) + 1 && Down(w, j) == Down(w, i))
  {
    StepAcross(w, i);
    SameCell(w, i - 1, j, i % w - 1, i / w);
    SameCell(w, i + 1, j, i % w + 1, i / w);
  }

  lemma AboveOrBelowIt(w: nat, i: nat, j: nat)
    requires w > 0
    ensures i >= w ==> (i - w == j <==> Across(w, j) == Across(w, i) && Down(w, j) == Down(w, i) - 1)
    ensures i + w == j <==> Across(w, j) == Across(w, i) && Down(w, j) == Down(w, i) + 1
    ensures i >= w <==> Down(w, i) >= 1
  {
    StepDown(w, i);
    StepUp(w, i);
    SameCell(w, i - w, j, i % w, i / w - 1);
    SameCell(w, i + w, j, i % w, i / w + 1);
  }

  lemma SameCell(w: nat, i: int, j: nat, x: int, y: int)
    requires w > 0
    ensures i >= 0 && i % w == x && i / w == y ==> (i == j <==> j % w == x && j / w == y)
  {
    assert i >= 0 ==> i == (i / w) * w + i % w;
    assert j == (j / w) * w + j % w;
  }

  // ---------- Paths ----------

  lemma PathGrows(mask: seq<byte>, w: nat, start: nat, i: nat, j: nat)
    requires w > 0 && Connected(mask, w, start, i) && Adjacent(w, i, j) && Said(mask, j)
    ensures Connected(mask, w, start, j)
  {
    var p: seq<nat> :| |p| > 0 && p[0] == start && p[|p| - 1] == i && Path(mask, w, p);
    var q := p + [j];
    assert Path(mask, w, q) && q[0] == start && q[|q| - 1] == j;
  }

  /** Whatever holds the start and every said cell next to what it holds, holds all that is connected. */
  lemma {:induction false} ClosedHolds(mask: seq<byte>, w: nat, held: set<nat>, p: seq<nat>)
    requires w > 0 && |p| > 0 && Path(mask, w, p) && p[0] in held
    requires forall i, j: nat :: i in held && Adjacent(w, i, j) && Said(mask, j) ==> j in held
    ensures p[|p| - 1] in held
  {
    if |p| > 1 {
      var q := p[..|p| - 1];
      assert Path(mask, w, q);
      ClosedHolds(mask, w, held, q);
      assert Adjacent(w, p[|p| - 2], p[|p| - 1]);
    }
  }

  lemma ClosedIsConnected(mask: seq<byte>, w: nat, held: set<nat>, start: nat)
    requires w > 0 && start in held
    requires forall i :: i in held ==> Connected(mask, w, start, i)
    requires forall i, j: nat :: i in held && Adjacent(w, i, j) && Said(mask, j) ==> j in held
    ensures forall j: nat :: j in held <==> Connected(mask, w, start, j)
  {
    forall j: nat | Connected(mask, w, start, j)
      ensures j in held
    {
      var p: seq<nat> :| |p| > 0 && p[0] == start && p[|p| - 1] == j && Path(mask, w, p);
      ClosedHolds(mask, w, held, p);
    }
  }

  lemma {:induction false} AtMost(s: set<nat>, n: nat)
    requires forall i :: i in s ==> i < n
    ensures |s| <= n
  {
    if n > 0 {
      var rest := s - {n - 1};
      AtMost(rest, n - 1);
      if n - 1 in s {
        assert s == rest + {n - 1};
      } else {
        assert s == rest;
      }
    } else {
      assert s == {};
    }
  }

  /** Connection goes both ways, and on. */
  lemma {:induction false} PathBack(mask: seq<byte>, w: nat, p: seq<nat>)
    requires w > 0 && |p| > 0 && Path(mask, w, p)
    ensures Connected(mask, w, p[|p| - 1], p[0])
  {
    if |p| == 1 {
      assert Path(mask, w, p) && p[0] == p[|p| - 1];
    } else {
      var rest := p[1..];
      assert forall k :: 0 < k < |rest| ==> rest[k - 1] == p[k] && rest[k] == p[k + 1];
      PathBack(mask, w, rest);
      assert Adjacent(w, p[0], p[1]) && Adjacent(w, p[1], p[0]);
      PathGrows(mask, w, p[|p| - 1], p[1], p[0]);
    }
  }

  lemma {:induction false} PathOn(mask: seq<byte>, w: nat, start: nat, p: seq<nat>)
    requires w > 0 && |p| > 0 && Path(mask, w, p) && Connected(mask, w, start, p[0])
    ensures Connected(mask, w, start, p[|p| - 1])
  {
    if |p| > 1 {
      var q := p[..|p| - 1];
      PathOn(mask, w, start, q);
      assert Adjacent(w, p[|p| - 2], p[|p| - 1]);
      PathGrows(mask, w, start, p[|p| - 2], p[|p| - 1]);
    }
  }

  lemma Joins(mask: seq<byte>, w: nat, a: nat, b: nat, c: nat)
    requires w > 0 && Connected(mask, w, a, b) && Connected(mask, w, b, c)
    ensures Connected(mask, w, a, c)
  {
    var p: seq<nat> :| |p| > 0 && p[0] == b && p[|p| - 1] == c && Path(mask, w, p);
    PathOn(mask, w, a, p);
  }

  /** Wherever in a piece the point falls, the piece is the same. */
  lemma SamePiece(mask: seq<byte>, w: nat, a: nat, b: nat)
    requires w > 0 && Connected(mask, w, a, b)
    ensures forall j: nat :: Connected(mask, w, a, j) <==> Connected(mask, w, b, j)
  {
    var p: seq<nat> :| |p| > 0 && p[0] == a && p[|p| - 1] == b && Path(mask, w, p);
    PathBack(mask, w, p);
    forall j: nat
      ensures Connected(mask, w, a, j) <==> Connected(mask, w, b, j)
    {
      if Connected(mask, w, a, j) {
        Joins(mask, w, b, a, j);
      }
      if Connected(mask, w, b, j) {
        Joins(mask, w, a, b, j);
      }
    }
  }

  // ---------- The fill ----------

  function Round(x: real): int {
    (x + 0.5).Floor
  }

  function Clamp(x: int, low: int, high: int): int {
    var up := if x < low then low else x;
    if up > high then high else up
  }

  /** The cell under a point, the nearest one when it is off the grid. */
  function StartCell(w: nat, h: nat, px: real, py: real): int {
    Clamp(Round(py), 0, h - 1) * w + Clamp(Round(px), 0, w - 1)
  }

  /** On a grid with cells in it the start is one of them; on an empty one it is nowhere. */
  lemma StartIsOnGrid(w: nat, h: nat, px: real, py: real)
    ensures 0 <= StartCell(w, h, px, py) < w * h <==> w > 0 && h > 0
  {
    if w > 0 && h > 0 {
      CellOnGrid(w, h, Clamp(Round(px), 0, w - 1), Clamp(Round(py), 0, h - 1));
    }
  }

  function Off(a: int, b: real): real {
    if a as real < b then b - a as real else a as real - b
  }

  /** The start is the cell whose number across is nearest the point's, and down; of two
      as near, the further one. */
  lemma StartIsNearest(w: nat, h: nat, px: real, py: real, x: nat, y: nat)
    requires x < w && y < h
    ensures
      var start := StartCell(w, h, px, py);
      && 0 <= start < w * h
      && Off(Across(w, start), px) <= Off(x, px) && Off(Down(w, start), py) <= Off(y, py)
      && (Off(Across(w, start), px) == Off(x, px) ==> x <= Across(w, start))
      && (Off(Down(w, start), py) == Off(y, py) ==> y <= Down(w, start))
  {
    var x0, y0 := Clamp(Round(px), 0, w - 1), Clamp(Round(py), 0, h - 1);
    CellOnGrid(w, h, x0, y0);
    CellOf(w, x0, y0);
    ClampedNearest(px, x, w);
    ClampedNearest(py, y, h);
    hide Clamp, Round, Off;
  }

  lemma ClampedNearest(p: real, x: nat, size: nat)
    requires x < size
    ensures
      var at := Clamp(Round(p), 0, size - 1);
      Off(at, p) <= Off(x, p) && (Off(at, p) == Off(x, p) ==> x <= at)
  {
    var r := Round(p);
    assert r as real <= p + 0.5 < r as real + 1.0;
    assert x <= r || x >= r + 1;
    assert x <= r ==> x as real <= r as real;
    assert x >= r + 1 ==> x as real >= r as real + 1.0;
  }

  /** Halfway through: what is marked is what has been looked round from and what waits on the stack. */
  ghost predicate Filling(mask: seq<byte>, w: nat, start: nat, piece: seq<byte>, stack: seq<nat>, done: set<nat>)
    requires w > 0
  {
    && |piece| == |mask|
    && (forall j :: 0 <= j < |piece| ==> piece[j] == 0 || piece[j] == 1)
    && (forall j: nat :: j in Marks(piece) <==> j in done || j in stack)
    && (forall j :: j in done ==> j !in stack)
    && (forall a, b :: 0 <= a < b < |stack| ==> stack[a] != stack[b])
    && start in Marks(piece)
    && (forall j :: j in Marks(piece) ==> Said(mask, j) && Connected(mask, w, start, j))
  }

  /** Every said cell next to `i`, of those looked at so far, is marked. */
  ghost predicate Looked(mask: seq<byte>, piece: seq<byte>, around: seq<int>) {
    forall j: int :: j in around && Said(mask, j) ==> Said(piece, j)
  }

  ghost predicate AllLooked(mask: seq<byte>, w: nat, piece: seq<byte>, done: set<nat>)
    requires w > 0
  {
    forall i :: i in done ==> Looked(mask, piece, Around(w, i))
  }

  lemma MarkOne(mask: seq<byte>, w: nat, start: nat, piece: seq<byte>, stack: seq<nat>, done: set<nat>, i: nat, j: nat)
    requires w > 0 && Filling(mask, w, start, piece, stack, done) && i in done
    requires j in Around(w, i) && Said(mask, j) && piece[j] == 0
    ensures Filling(mask, w, start, piece[j := 1], stack + [j], done)
  {
    var next := piece[j := 1];
    AroundIsAdjacent(w, i, j);
    PathGrows(mask, w, start, i, j);
    assert j !in Marks(piece);
    assert forall k: nat :: k in Marks(next) <==> k in Marks(piece) || k == j;
  }

  lemma TakeOne(mask: seq<byte>, w: nat, start: nat, piece: seq<byte>, stack: seq<nat>, done: set<nat>)
    requires w > 0 && |stack| > 0 && Filling(mask, w, start, piece, stack, done)
    ensures Filling(mask, w, start, piece, stack[..|stack| - 1], done + {stack[|stack| - 1]})
    ensures stack[|stack| - 1] !in done
  {
    var i, rest := stack[|stack| - 1], stack[..|stack| - 1];
    assert forall j: nat :: j in stack <==> j in rest || j == i;
  }

  lemma StartOne(mask: seq<byte>, w: nat, start: nat, piece: seq<byte>)
    requires w > 0 && Said(mask, start) && |piece| == |mask|
    requires forall j :: 0 <= j < |piece| ==> piece[j] == if j == start then 1 else 0
    ensures Filling(mask, w, start, piece, [start], {})
  {
    assert Path(mask, w, [start]) && [start][0] == start && [start][|[start]| - 1] == start;
    assert Connected(mask, w, start, start);
  }

  lemma Filled(mask: seq<byte>, w: nat, start: nat, piece: seq<byte>, done: set<nat>)
    requires w > 0 && Filling(mask, w, start, piece, [], done) && AllLooked(mask, w, piece, done)
    ensures Marks(piece) == done
    ensures forall j: nat :: j < |piece| ==> piece[j] == if Connected(mask, w, start, j) then 1 else 0
  {
    hide Adjacent, Around, Connected;
    assert Marks(piece) == done;
    forall i, j: nat | i in done && Adjacent(w, i, j) && Said(mask, j)
      ensures j in done
    {
      AroundIsAdjacent(w, i, j);
      assert Looked(mask, piece, Around(w, i));
      assert j in Marks(piece);
    }
    ClosedIsConnected(mask, w, done, start);
  }

  lemma FillingFits(mask: seq<byte>, w: nat, start: nat, piece: seq<byte>, stack: seq<nat>, done: set<nat>)
    requires w > 0 && Filling(mask, w, start, piece, stack, done)
    ensures |done| <= |mask|
  {
    forall i | i in done
      ensures i < |mask|
    {
      assert i in Marks(piece);
    }
    AtMost(done, |mask|);
  }

  /** Marking one more cell undoes no looking. */
  lemma LookedStays(mask: seq<byte>, w: nat, piece: seq<byte>, j: nat, around: seq<int>, done: set<nat>)
    requires w > 0 && j < |piece|
    requires Looked(mask, piece, around) && AllLooked(mask, w, piece, done)
    ensures Looked(mask, piece[j := 1], around) && AllLooked(mask, w, piece[j := 1], done)
  {
    hide Around;
    assert forall i: int :: Said(piece, i) ==> Said(piece[j := 1], i);
    forall i | i in done
      ensures Looked(mask, piece[j := 1], Around(w, i))
    {
      assert Looked(mask, piece, Around(w, i));
    }
  }

  lemma LookedOne(mask: seq<byte>, piece: seq<byte>, around: seq<int>, k: nat)
    requires k < |around| && Looked(mask, piece, around[..k])
    requires Said(mask, around[k]) ==> Said(piece, around[k])
    ensures Looked(mask, piece, around[..k + 1])
  {
    assert around[..k + 1] == around[..k] + [around[k]];
  }

  lemma LookedRound(mask: seq<byte>, w: nat, piece: seq<byte>, done: set<nat>, i: nat)
    requires w > 0 && AllLooked(mask, w, piece, done) && Looked(mask, piece, Around(w, i)[..4])
    ensures AllLooked(mask, w, piece, done + {i})
  {
    assert Around(w, i)[..4] == Around(w, i);
  }

  /** Marks what is joined to the clamped start and counts it; empty from an unset cell. */
  method PieceAt(mask: array<byte>, w: nat, h: nat, px: real, py: real) returns (piece: array<byte>, area: nat)
    requires mask.Length == w * h
    ensures fresh(piece) && piece.Length == mask.Length
    ensures area == |Marks(piece[..])|
    ensures
      var start := StartCell(w, h, px, py);
      if Said(mask[..], start) then
        && w > 0 && area > 0
        && (forall j: nat :: j < piece.Length ==> piece[j] == if Connected(mask[..], w, start, j) then 1 else 0)
      else forall j :: 0 <= j < piece.Length ==> piece[j] == 0
  {
    piece := new byte[w * h](_ => 0);
    var x0, y0 := Clamp(Round(px), 0, w - 1), Clamp(Round(py), 0, h - 1);
    var start := y0 * w + x0;
    assert start == StartCell(w, h, px, py);
    area := 0;
    assert Marks(piece[..]) == {};
    if !(0 <= start < mask.Length && mask[start] != 0) {
      return;
    }
    StartIsOnGrid(w, h, px, py);
    area := Fill(mask, w, h, start, piece);
  }

  /** The stack and the loop. */
  method Fill(mask: array<byte>, w: nat, h: nat, start: nat, piece: array<byte>) returns (area: nat)
    requires w > 0 && mask.Length == piece.Length == w * h && mask != piece && Said(mask[..], start)
    requires forall j :: 0 <= j < piece.Length ==> piece[j] == 0
    modifies piece
    ensures area == |Marks(piece[..])| > 0
    ensures forall j: nat :: j < piece.Length ==> piece[j] == if Connected(mask[..], w, start, j) then 1 else 0
  {
    hide Filling, Looked, AllLooked, Connected, Marks, Around;
    var stack: seq<nat> := [start];
    piece[start] := 1;
    area := 0;
    ghost var done: set<nat> := {};
    ghost var said := mask[..];
    StartOne(said, w, start, piece[..]);
    NoneLooked(said, w, piece[..], []);
    while |stack| > 0
      invariant mask[..] == said
      invariant Filling(said, w, start, piece[..], stack, done)
      invariant AllLooked(said, w, piece[..], done)
      invariant area == |done|
      decreases mask.Length - |done|
    {
      var i := stack[|stack| - 1];
      TakeOne(said, w, start, piece[..], stack, done);
      ghost var before := done;
      stack := stack[..|stack| - 1];
      done := done + {i};
      FillingFits(said, w, start, piece[..], stack, done);
      area := area + 1;
      stack := LookRound(mask, w, h, start, piece, i, stack, before);
      LookedRound(said, w, piece[..], before, i);
    }
    assert stack == [];
    Filled(said, w, start, piece[..], done);
    StartMarked(said, w, start, piece[..], done);
  }

  lemma NoneLooked(mask: seq<byte>, w: nat, piece: seq<byte>, around: seq<int>)
    requires w > 0 && around == []
    ensures AllLooked(mask, w, piece, {}) && Looked(mask, piece, around)
  {
  }

  lemma StartMarked(mask: seq<byte>, w: nat, start: nat, piece: seq<byte>, done: set<nat>)
    requires w > 0 && Filling(mask, w, start, piece, [], done) && Marks(piece) == done
    ensures |done| > 0
  {
    assert start in done;
  }

  /** The four cells round one taken off the stack: marked and put on it, those that are said and new. */
  method LookRound(mask: array<byte>, w: nat, h: nat, ghost start: nat, piece: array<byte>, i: nat,
                   waiting: seq<nat>, ghost before: set<nat>)
    returns (stack: seq<nat>)
    requires w > 0 && mask.Length == piece.Length == w * h && mask != piece
    requires Filling(mask[..], w, start, piece[..], waiting, before + {i})
    requires AllLooked(mask[..], w, piece[..], before)
    modifies piece
    ensures mask[..] == old(mask[..])
    ensures Filling(mask[..], w, start, piece[..], stack, before + {i})
    ensures AllLooked(mask[..], w, piece[..], before)
    ensures Looked(mask[..], piece[..], Around(w, i)[..4])
  {
    hide Filling, AllLooked, Looked, Connected, Marks;
    stack := waiting;
    ghost var said := mask[..];
    var around := Around(w, i);
    hide Around;
    NoneLooked(said, w, piece[..], around[..0]);
    for k := 0 to 4
      invariant mask[..] == said
      invariant Filling(said, w, start, piece[..], stack, before + {i})
      invariant AllLooked(said, w, piece[..], before)
      invariant Looked(said, piece[..], around[..k])
    {
      var j := around[k];
      ghost var cells := piece[..];
      if j >= 0 && j < w * h && mask[j] != 0 && piece[j] == 0 {
        MarkOne(said, w, start, cells, stack, before + {i}, i, j);
        LookedStays(said, w, cells, j, around[..k], before);
        piece[j] := 1;
        stack := stack + [j];
        assert piece[..] == cells[j := 1];
      }
      LookedOne(said, piece[..], around, k);
    }
  }

  // ---------- What is connected, step by step ----------

  /** Set in the mask, cell by cell. */
  ghost predicate IsSet(mask: seq<byte>, i: nat) {
    i < |mask| && mask[i] != 0
  }

  /** From each of its cells to the set cells that share an edge with it. */
  ghost predicate Closed(mask: seq<byte>, w: nat, cells: set<nat>)
    requires w > 0
  {
    forall x: nat, y: nat, x': nat, y': nat ::
      x < w && x' < w && Cell(w, x, y) in cells && IsSet(mask, Cell(w, x', y')) && NextTo(x, y, x', y') ==>
        Cell(w, x', y') in cells
  }

  predicate NextTo(x: nat, y: nat, x': nat, y': nat) {
    (y == y' && (x' == x + 1 || x == x' + 1)) || (x == x' && (y' == y + 1 || y == y' + 1))
  }

  lemma AdjacentIsNextTo(w: nat, x: nat, y: nat, x': nat, y': nat)
    requires x < w && x' < w
    ensures Adjacent(w, Cell(w, x, y), Cell(w, x', y')) <==> NextTo(x, y, x', y')
  {
    CellOf(w, x, y);
    CellOf(w, x', y');
    hide Cell;
  }

  /** What is connected to a set cell is that cell, set cells only, and with each those that
      share an edge with it; and every set of cells that is so has all of it. */
  lemma ConnectedIsLeast(mask: seq<byte>, w: nat, start: nat, cells: set<nat>)
    requires w > 0 && IsSet(mask, start)
    ensures Connected(mask, w, start, start)
    ensures forall j :: Connected(mask, w, start, j) ==> IsSet(mask, j)
    ensures forall x: nat, y: nat, x': nat, y': nat ::
      x < w && x' < w && Connected(mask, w, start, Cell(w, x, y)) && IsSet(mask, Cell(w, x', y'))
      && NextTo(x, y, x', y') ==>
        Connected(mask, w, start, Cell(w, x', y'))
    ensures start in cells && Closed(mask, w, cells) ==> forall j :: Connected(mask, w, start, j) ==> j in cells
  {
    var one := [start];
    assert |one| > 0 && one[0] == start && Path(mask, w, one);
    forall j | Connected(mask, w, start, j)
      ensures IsSet(mask, j) && (start in cells && Closed(mask, w, cells) ==> j in cells)
    {
      var p: seq<nat> :| |p| > 0 && p[0] == start && p[|p| - 1] == j && Path(mask, w, p);
      assert Said(mask, p[|p| - 1]);
      if start in cells && Closed(mask, w, cells) {
        ClosedInAll(mask, w, cells);
        ClosedHolds(mask, w, cells, p);
      }
    }
    forall x: nat, y: nat, x': nat, y': nat | x < w && x' < w && Connected(mask, w, start, Cell(w, x, y)) &&
      IsSet(mask, Cell(w, x', y'))
      && NextTo(x, y, x', y')
      ensures Connected(mask, w, start, Cell(w, x', y'))
    {
      AdjacentIsNextTo(w, x, y, x', y');
      PathGrows(mask, w, start, Cell(w, x, y), Cell(w, x', y'));
    }
  }

  lemma ClosedInAll(mask: seq<byte>, w: nat, cells: set<nat>)
    requires w > 0 && Closed(mask, w, cells)
    ensures forall i, j: nat :: i in cells && Adjacent(w, i, j) && Said(mask, j) ==> j in cells
  {
    forall i, j: nat | i in cells && Adjacent(w, i, j) && Said(mask, j)
      ensures j in cells
    {
      InItsPlace(w, i);
      InItsPlace(w, j);
      AdjacentIsNextTo(w, Across(w, i), Down(w, i), Across(w, j), Down(w, j));
      hide Adjacent, Cell, Across, Down, NextTo;
    }
  }

  lemma InItsPlace(w: nat, i: nat)
    requires w > 0
    ensures Across(w, i) < w && Cell(w, Across(w, i), Down(w, i)) == i
  {
  }
}
