/** Scoring an outline against a mask from running counts, and what the score is at most. */
module Overlap {
  import opened Grid
  import opened Options

  type Spot = (real, real)

  // ---------- Running counts ----------

  predicate Marked(data: seq<bool>, w: nat, h: nat, x: nat, y: nat)
    requires |data| == w * h && x < w && y < h
  {
    CellOnGrid(w, h, x, y);
    data[Cell(w, x, y)]
  }

  /** How many pixels of row `y` are in the mask, from `x0` up to `x1`. */
  function CountRow(data: seq<bool>, w: nat, h: nat, y: nat, x0: nat, x1: nat): (n: nat)
    requires |data| == w * h && y < h && x0 <= x1 <= w
    ensures n <= x1 - x0
    decreases x1
  {
    if x1 == x0 then 0
    else
      CountRow(data, w, h, y, x0, x1 - 1) + if Marked(data, w, h, x1 - 1, y) then 1 else 0
  }

  function Area(data: seq<bool>, w: nat, h: nat, rows: nat): nat
    requires |data| == w * h && rows <= h
  {
    if rows == 0 then 0 else Area(data, w, h, rows - 1) + CountRow(data, w, h, rows - 1, 0, w)
  }

  /** What the running counts hold in place `i`: the count so far of the row it is in. */
  function CountTo(data: seq<bool>, w: nat, h: nat, i: nat): nat
    requires |data| == w * h && i < (w + 1) * h
  {
    PlaceOnGrid(w + 1, h, i);
    CountRow(data, w, h, Down(w + 1, i), 0, Across(w + 1, i))
  }

  lemma CountHere(data: seq<bool>, w: nat, h: nat, x: nat, y: nat)
    requires |data| == w * h && x <= w && y < h
    ensures Cell(w + 1, x, y) < (w + 1) * h
    ensures CountTo(data, w, h, Cell(w + 1, x, y)) == CountRow(data, w, h, y, 0, x)
  {
    CellOnGrid(w + 1, h, x, y);
    CellOf(w + 1, x, y);
  }

  /** Right up to place `m`, and nothing yet after. */
  ghost predicate RightTo(rows: seq<nat>, data: seq<bool>, w: nat, h: nat, m: nat)
    requires |data| == w * h
  {
    |rows| == (w + 1) * h && m <= |rows|
    && forall i :: 0 <= i < |rows| ==> rows[i] == if i < m then CountTo(data, w, h, i) else 0
  }

  lemma NextCell(w: nat, x: nat, y: nat)
    ensures Cell(w, x, y) + 1 == Cell(w, x + 1, y) && Cell(w, w, y) == Cell(w, 0, y + 1)
    ensures Cell(w, 0, 0) == 0 && Cell(w, 0, y) == w * y
  {
  }

  method RunningCounts(data: array<bool>, w: nat, h: nat) returns (rows: array<nat>, area: nat)
    requires data.Length == w * h
    ensures fresh(rows) && RightTo(rows[..], data[..], w, h, rows.Length)
    ensures area == Area(data[..], w, h, h)
  {
    hide Cell, CountTo;
    rows := new nat[h * (w + 1)](_ => 0);
    area := 0;
    NextCell(w + 1, 0, 0);
    for y := 0 to h
      invariant area == Area(data[..], w, h, y)
      invariant RightTo(rows[..], data[..], w, h, Cell(w + 1, 0, y))
    {
      var n := CountOneRow(data, w, h, y, rows);
      area := area + n;
      NextCell(w + 1, 0, y);
    }
    NextCell(w + 1, 0, h);
  }

  method CountOneRow(data: array<bool>, w: nat, h: nat, y: nat, rows: array<nat>) returns (n: nat)
    requires data.Length == w * h && y < h
    requires RightTo(rows[..], data[..], w, h, Cell(w + 1, 0, y))
    modifies rows
    ensures RightTo(rows[..], data[..], w, h, Cell(w + 1, w + 1, y))
    ensures n == CountRow(data[..], w, h, y, 0, w)
  {
    hide Cell, CountTo;
    n := 0;
    CountHere(data[..], w, h, 0, y);
    NextCell(w + 1, 0, y);
    for x := 0 to w
      invariant n == CountRow(data[..], w, h, y, 0, x)
      invariant RightTo(rows[..], data[..], w, h, Cell(w + 1, x + 1, y))
    {
      CellOnGrid(w, h, x, y);
      if data[Cell(w, x, y)] {
        n := n + 1;
      }
      CountHere(data[..], w, h, x + 1, y);
      NextCell(w + 1, x + 1, y);
      rows[Cell(w + 1, x + 1, y)] := n;
    }
  }

  lemma {:induction false} CountJoins(data: seq<bool>, w: nat, h: nat, y: nat, x0: nat, x1: nat)
    requires |data| == w * h && y < h && x0 <= x1 <= w
    ensures CountRow(data, w, h, y, 0, x1) == CountRow(data, w, h, y, 0, x0) + CountRow(data, w, h, y, x0, x1)
  {
    if x1 > x0 {
      CountJoins(data, w, h, y, x0, x1 - 1);
    }
  }

  /** What the running counts hold for row `y` up to `x`. */
  function Held(rows: seq<nat>, w: nat, x: nat, y: nat): nat
    requires Cell(w + 1, x, y) < |rows|
  {
    rows[Cell(w + 1, x, y)]
  }

  /** Two entries of a row's table differ by what lies between them. */
  lemma CountsAStretch(rows: seq<nat>, data: seq<bool>, w: nat, h: nat, y: nat, x0: nat, x1: nat)
    requires |data| == w * h && RightTo(rows, data, w, h, |rows|) && y < h && x0 <= x1 <= w
    ensures Cell(w + 1, x0, y) < |rows| && Cell(w + 1, x1, y) < |rows|
    ensures Held(rows, w, x1, y) - Held(rows, w, x0, y) == CountRow(data, w, h, y, x0, x1)
  {
    hide Cell, CountTo;
    CountHere(data, w, h, x0, y);
    CountHere(data, w, h, x1, y);
    CountJoins(data, w, h, y, x0, x1);
  }

  // ---------- Where a row crosses the outline ----------

  predicate Crosses(a: Spot, b: Spot, yy: real) {
    (a.1 <= yy && b.1 > yy) || (b.1 <= yy && a.1 > yy)
  }

  function CrossedAt(a: Spot, b: Spot, yy: real): real
    requires Crosses(a, b, yy)
  {
    a.0 + (yy - a.1) / (b.1 - a.1) * (b.0 - a.0)
  }

  /** From the least to the most of where the first `n` sides cross; nothing where none does. */
  datatype Span = Nothing | Span(low: real, high: real)

  function Least(a: real, b: real): real {
    if a < b then a else b
  }

  function Most(a: real, b: real): real {
    if a > b then a else b
  }

  function SpanOf(poly: seq<Spot>, yy: real, n: nat): Span
    requires n <= |poly|
  {
    if n == 0 then Nothing
    else
      var before := SpanOf(poly, yy, n - 1);
      var a, b := poly[n - 1], poly[n % |poly|];
      if !Crosses(a, b, yy) then before
      else
        var x := CrossedAt(a, b, yy);
        match before
        case Nothing => Span(x, x)
        case Span(low, high) => Span(Least(low, x), Most(high, x))
  }

  predicate Wide(s: Span) {
    s.Span? && s.high > s.low
  }

  function Rounded(v: real): int {
    (v + 0.5).Floor
  }

  function OnRow(v: int, w: nat): nat {
    if v < 0 then 0 else if v > w then w else v
  }

  function From(s: Span, w: nat): nat
    requires s.Span?
  {
    OnRow(Rounded(s.low), w)
  }

  function To(s: Span, w: nat): nat
    requires s.Span?
  {
    OnRow(Rounded(s.high), w)
  }

  lemma InOrder(s: Span, w: nat)
    requires Wide(s)
    ensures From(s, w) <= To(s, w) <= w
  {
  }

  function RowMiddle(y: nat): real {
    y as real + 0.5
  }

  // ---------- Both, and the outline ----------

  /** Pixels of one row in the mask and in the outline. */
  function BothInRow(poly: seq<Spot>, data: seq<bool>, w: nat, h: nat, y: nat): nat
    requires |data| == w * h && y < h
  {
    var s := SpanOf(poly, RowMiddle(y), |poly|);
    if !Wide(s) then 0
    else
      InOrder(s, w);
      CountRow(data, w, h, y, From(s, w), To(s, w))
  }

  function WidthInRow(poly: seq<Spot>, y: nat): (r: real)
    ensures r >= 0.0
  {
    var s := SpanOf(poly, RowMiddle(y), |poly|);
    if !Wide(s) then 0.0 else s.high - s.low
  }

  function Both(poly: seq<Spot>, data: seq<bool>, w: nat, h: nat, rows: nat): nat
    requires |data| == w * h && rows <= h
  {
    if rows == 0 then 0 else Both(poly, data, w, h, rows - 1) + BothInRow(poly, data, w, h, rows - 1)
  }

  function Shape(poly: seq<Spot>, rows: nat): (r: real)
    ensures r >= 0.0
  {
    if rows == 0 then 0.0 else Shape(poly, rows - 1) + WidthInRow(poly, rows - 1)
  }

  /** The quotient the score is, and `None` at 0/0. */
  function Ratio(both: nat, area: nat, shape: real): Option<real> {
    var either := area as real + shape - both as real;
    if either == 0.0 then None else Some(both as real / either)
  }

  function Score(poly: seq<Spot>, data: seq<bool>, w: nat, h: nat): Option<real>
    requires |data| == w * h
  {
    if |poly| < 3 then Some(0.0) else Ratio(Both(poly, data, w, h, h), Area(data, w, h, h), Shape(poly, h))
  }

  method SpanOfRow(poly: seq<Spot>, yy: real) returns (s: Span)
    requires poly != []
    ensures s == SpanOf(poly, yy, |poly|)
  {
    s := Nothing;
    for i := 0 to |poly|
      invariant s == SpanOf(poly, yy, i)
    {
      var a, b := poly[i], poly[(i + 1) % |poly|];
      if (a.1 <= yy && b.1 > yy) || (b.1 <= yy && a.1 > yy) {
        var x := a.0 + (yy - a.1) / (b.1 - a.1) * (b.0 - a.0);
        s := if s.Nothing? then Span(x, x) else Span(Least(s.low, x), Most(s.high, x));
      }
    }
  }

  /** By the running counts: the score that counting every pixel would give. */
  method Overlap(poly: seq<Spot>, ghost data: seq<bool>, w: nat, h: nat, rows: array<nat>, area: nat)
    returns (score: Option<real>)
    requires |data| == w * h && RightTo(rows[..], data, w, h, rows.Length) && area == Area(data, w, h, h)
    ensures score == Score(poly, data, w, h)
  {
    hide Cell, RightTo, CountRow, SpanOf;
    if |poly| < 3 {
      return Some(0.0);
    }
    var both, shape := 0, 0.0;
    for y := 0 to h
      invariant both == Both(poly, data, w, h, y) && shape == Shape(poly, y)
    {
      var s := SpanOfRow(poly, RowMiddle(y));
      if s.Nothing? || s.high <= s.low {
        continue;
      }
      InOrder(s, w);
      var x0, x1 := OnRow(Rounded(s.low), w), OnRow(Rounded(s.high), w);
      shape := shape + (s.high - s.low);
      CountsAStretch(rows[..], data, w, h, y, x0, x1);
      both := both + rows[Cell(w + 1, x1, y)] - rows[Cell(w + 1, x0, y)];
    }
    score := Ratio(both, area, shape);
  }

  // ---------- What the score says ----------

  lemma {:induction false} CountAll(data: seq<bool>, w: nat, h: nat, y: nat, x0: nat, x1: nat)
    requires |data| == w * h && y < h && x0 <= x1 <= w
    ensures CountRow(data, w, h, y, x0, x1) == x1 - x0 <==> forall x :: x0 <= x < x1 ==> Marked(data, w, h, x, y)
    ensures CountRow(data, w, h, y, x0, x1) == 0 <==> forall x :: x0 <= x < x1 ==> !Marked(data, w, h, x, y)
    decreases x1
  {
    hide Marked;
    if x1 > x0 {
      CountAll(data, w, h, y, x0, x1 - 1);
    }
  }

  /** No row's crossings are apart. */
  ghost predicate Empty(poly: seq<Spot>, rows: nat) {
    forall y :: 0 <= y < rows ==> !Wide(SpanOf(poly, RowMiddle(y), |poly|))
  }

  lemma {:induction false} BothWithin(poly: seq<Spot>, data: seq<bool>, w: nat, h: nat, rows: nat)
    requires |data| == w * h && rows <= h
    ensures Both(poly, data, w, h, rows) <= Area(data, w, h, rows)
    ensures Shape(poly, rows) == 0.0 <==> Empty(poly, rows)
    ensures Empty(poly, rows) ==> Both(poly, data, w, h, rows) == 0
  {
    hide CountRow, SpanOf;
    if rows > 0 {
      var y := rows - 1;
      BothWithin(poly, data, w, h, y);
      var s := SpanOf(poly, RowMiddle(y), |poly|);
      if Wide(s) {
        InOrder(s, w);
        CountJoins(data, w, h, y, From(s, w), To(s, w));
        CountJoins(data, w, h, y, To(s, w), w);
      }
    }
  }

  /** The score is nothing, nothing over nothing, exactly for an empty mask and an
      outline that covers no row. */
  lemma NothingExactlyWhenBothAreEmpty(poly: seq<Spot>, data: seq<bool>, w: nat, h: nat)
    requires |data| == w * h
    ensures Score(poly, data, w, h) == None <==> |poly| >= 3 && Area(data, w, h, h) == 0 && Empty(poly, h)
    ensures Score(poly, data, w, h).Some? ==> Score(poly, data, w, h).value >= 0.0
  {
    BothWithin(poly, data, w, h, h);
    hide Both, Area, Shape, Empty;
    if |poly| >= 3 {
      var both, area, shape := Both(poly, data, w, h, h), Area(data, w, h, h), Shape(poly, h);
      RatioIs(both, area, shape);
    }
  }

  lemma SignOf(p: real, e: real)
    requires e > 0.0
    ensures p * e > 0.0 <==> p > 0.0
    ensures p * e == 0.0 <==> p == 0.0
  {
    if p > 0.0 {
      assert p * e > 0.0;
    } else if p < 0.0 {
      assert (0.0 - p) * e > 0.0;
      assert p * e == 0.0 - (0.0 - p) * e;
    }
  }

  lemma QuotientIs(b: real, e: real)
    requires b >= 0.0 && e > 0.0
    ensures b / e >= 0.0 && (b / e > 1.0 <==> b > e) && (b / e == 1.0 <==> b == e)
  {
    var q := b / e;
    assert q * e == b;
    assert (q - 1.0) * e == q * e - e;
    SignOf(q, e);
    SignOf(q - 1.0, e);
  }

  lemma RatioIs(both: nat, area: nat, shape: real)
    requires both <= area && shape >= 0.0
    ensures Ratio(both, area, shape) == None <==> shape == 0.0 && both == area
    ensures Ratio(both, area, shape).Some? ==>
      var score := Ratio(both, area, shape).value;
      && score >= 0.0
      && (score > 1.0 <==> both as real - shape > (area - both) as real)
      && (score == 1.0 <==> both as real - shape == (area - both) as real)
  {
    var either := area as real + shape - both as real;
    if either != 0.0 {
      QuotientIs(both as real, either);
    }
  }

  predicate InOutline(poly: seq<Spot>, w: nat, x: nat, y: nat) {
    var s := SpanOf(poly, RowMiddle(y), |poly|);
    Wide(s) && From(s, w) <= x < To(s, w)
  }

  /** How many of a row's pixels the outline is counted as, its crossings rounded to columns. */
  function ColumnsInRow(poly: seq<Spot>, w: nat, y: nat): nat {
    var s := SpanOf(poly, RowMiddle(y), |poly|);
    if !Wide(s) then 0
    else
      InOrder(s, w);
      To(s, w) - From(s, w)
  }

  function Columns(poly: seq<Spot>, w: nat, rows: nat): nat {
    if rows == 0 then 0 else Columns(poly, w, rows - 1) + ColumnsInRow(poly, w, rows - 1)
  }

  ghost predicate RowIsTheOutline(poly: seq<Spot>, data: seq<bool>, w: nat, h: nat, y: nat)
    requires |data| == w * h && y < h
  {
    forall x :: 0 <= x < w ==> (Marked(data, w, h, x, y) <==> InOutline(poly, w, x, y))
  }

  /** The mask is the pixels the outline is counted as. */
  ghost predicate IsTheOutline(poly: seq<Spot>, data: seq<bool>, w: nat, h: nat, rows: nat)
    requires |data| == w * h && rows <= h
  {
    forall y :: 0 <= y < rows ==> RowIsTheOutline(poly, data, w, h, y)
  }

  lemma OneRow(poly: seq<Spot>, data: seq<bool>, w: nat, h: nat, y: nat)
    requires |data| == w * h && y < h
    ensures
      var both, columns, marked :=
        BothInRow(poly, data, w, h, y), ColumnsInRow(poly, w, y), CountRow(data, w, h, y, 0, w);
      && both <= marked && both <= columns
      && (both == marked == columns <==> RowIsTheOutline(poly, data, w, h, y))
  {
    var s := SpanOf(poly, RowMiddle(y), |poly|);
    hide SpanOf, CountRow, Marked, From, To;
    CountAll(data, w, h, y, 0, w);
    if Wide(s) {
      InOrder(s, w);
      var x0, x1 := From(s, w), To(s, w);
      CountJoins(data, w, h, y, x0, x1);
      CountJoins(data, w, h, y, x1, w);
      CountAll(data, w, h, y, 0, x0);
      CountAll(data, w, h, y, x0, x1);
      CountAll(data, w, h, y, x1, w);
    }
  }

  lemma {:induction false} EveryRow(poly: seq<Spot>, data: seq<bool>, w: nat, h: nat, rows: nat)
    requires |data| == w * h && rows <= h
    ensures
      var both, columns, area := Both(poly, data, w, h, rows), Columns(poly, w, rows), Area(data, w, h, rows);
      && both <= area && both <= columns
      && (both == area == columns <==> IsTheOutline(poly, data, w, h, rows))
  {
    hide SpanOf, CountRow, RowIsTheOutline, BothInRow, ColumnsInRow;
    if rows > 0 {
      EveryRow(poly, data, w, h, rows - 1);
      OneRow(poly, data, w, h, rows - 1);
    }
  }

  /** The mask that is the pixels the outline is counted as. */
  function MaskOf(poly: seq<Spot>, w: nat, h: nat): (data: seq<bool>)
    ensures |data| == w * h
  {
    seq(w * h, i requires 0 <= i < w * h => w > 0 && InOutline(poly, w, i % w, i / w))
  }

  lemma MaskOfIsIt(poly: seq<Spot>, w: nat, h: nat)
    ensures IsTheOutline(poly, MaskOf(poly, w, h), w, h, h)
  {
    var data := MaskOf(poly, w, h);
    forall y, x | 0 <= y < h && 0 <= x < w
      ensures Marked(data, w, h, x, y) <==> InOutline(poly, w, x, y)
    {
      CellOnGrid(w, h, x, y);
      CellOf(w, x, y);
      hide Cell, InOutline;
    }
  }

  ghost predicate AtMostOne(poly: seq<Spot>, data: seq<bool>, w: nat, h: nat)
    requires |data| == w * h
  {
    Score(poly, data, w, h).Some? && Score(poly, data, w, h).value <= 1.0
  }

  /** An outline that covers any row scores at most one, against every mask there could
      be, exactly when the columns it is counted as are no more than its width: when
      rounding its crossings gains nothing over all its rows. */
  lemma AtMostOneExactly(poly: seq<Spot>, w: nat, h: nat)
    requires |poly| >= 3 && !Empty(poly, h)
    ensures (forall data :: |data| == w * h ==> AtMostOne(poly, data, w, h)) <==>
      Columns(poly, w, h) as real <= Shape(poly, h)
  {
    var own := MaskOf(poly, w, h);
    forall data | |data| == w * h
      ensures Columns(poly, w, h) as real <= Shape(poly, h) ==> AtMostOne(poly, data, w, h)
      ensures data == own && AtMostOne(poly, data, w, h) ==> Columns(poly, w, h) as real <= Shape(poly, h)
    {
      OneMask(poly, data, w, h);
      if data == own {
        MaskOfIsIt(poly, w, h);
      }
    }
  }

  lemma OneMask(poly: seq<Spot>, data: seq<bool>, w: nat, h: nat)
    requires |poly| >= 3 && !Empty(poly, h) && |data| == w * h
    ensures Columns(poly, w, h) as real <= Shape(poly, h) ==> AtMostOne(poly, data, w, h)
    ensures IsTheOutline(poly, data, w, h, h) && AtMostOne(poly, data, w, h) ==>
      Columns(poly, w, h) as real <= Shape(poly, h)
  {
    EveryRow(poly, data, w, h, h);
    BothWithin(poly, data, w, h, h);
    hide Both, Area, Shape, Columns, IsTheOutline, Empty;
    RatioIs(Both(poly, data, w, h, h), Area(data, w, h, h), Shape(poly, h));
  }

  /** Of such an outline, the score is one exactly when its columns are just its width
      and the mask is the pixels it is counted as. */
  lemma OneExactlyWhenTheMaskIsTheOutline(poly: seq<Spot>, data: seq<bool>, w: nat, h: nat)
    requires |data| == w * h && |poly| >= 3 && Columns(poly, w, h) as real <= Shape(poly, h)
    requires Area(data, w, h, h) > 0 || !Empty(poly, h)
    ensures Score(poly, data, w, h).Some? && 0.0 <= Score(poly, data, w, h).value <= 1.0
    ensures Score(poly, data, w, h) == Some(1.0) <==>
      Columns(poly, w, h) as real == Shape(poly, h) && IsTheOutline(poly, data, w, h, h)
  {
    EveryRow(poly, data, w, h, h);
    BothWithin(poly, data, w, h, h);
    hide Both, Area, Shape, Columns, IsTheOutline, Empty;
    RatioIs(Both(poly, data, w, h, h), Area(data, w, h, h), Shape(poly, h));
  }

  lemma UprightCross(a: Spot, b: Spot, yy: real)
    requires Crosses(a, b, yy) && a.0 == b.0
    ensures CrossedAt(a, b, yy) == a.0
  {
    assert b.0 - a.0 == 0.0;
  }

  lemma UprightSpan(poly: seq<Spot>, low: real, high: real)
    requires low < high && |poly| == 4
    requires poly[0] == (low, 0.0) && poly[1] == (high, 0.0) && poly[2] == (high, 1.0) && poly[3] == (low, 1.0)
    ensures SpanOf(poly, 0.5, 4) == Span(low, high)
  {
    UprightCross(poly[1], poly[2], 0.5);
    UprightCross(poly[3], poly[0], 0.5);
    hide CrossedAt;
    assert SpanOf(poly, 0.5, 1) == Nothing;
    assert SpanOf(poly, 0.5, 2) == Span(high, high);
    assert SpanOf(poly, 0.5, 3) == Span(high, high);
  }

  lemma OnePixel(data: seq<bool>, w: nat, h: nat)
    requires w == 1 && h == 1 && data == [true]
    ensures CountRow(data, w, h, 0, 0, 1) == 1 && Area(data, w, h, h) == 1
  {
    assert Marked(data, w, h, 0, 0);
    assert CountRow(data, w, h, 0, 0, 0) == 0;
    assert Area(data, w, h, 0) == 0;
  }

  lemma ThinRow(poly: seq<Spot>, data: seq<bool>, w: nat, h: nat)
    requires w == 1 && h == 1 && |data| == w * h && SpanOf(poly, RowMiddle(0), |poly|) == Span(0.4, 0.6)
    requires CountRow(data, w, h, 0, 0, w) == 1
    ensures BothInRow(poly, data, w, h, 0) == 1 && WidthInRow(poly, 0) == 0.2
  {
    hide SpanOf, CountRow;
    var s := Span(0.4, 0.6);
    assert From(s, w) == 0 && To(s, w) == 1;
  }

  lemma OneRowOnly(poly: seq<Spot>, data: seq<bool>, w: nat, h: nat)
    requires h == 1 && |data| == w * h
    ensures Both(poly, data, w, h, h) == BothInRow(poly, data, w, h, 0) && Shape(poly, h) == WidthInRow(poly, 0)
  {
    hide BothInRow, WidthInRow;
    assert Both(poly, data, w, h, h - 1) == 0 && Shape(poly, h - 1) == 0.0;
  }

  lemma ThinScore(poly: seq<Spot>, data: seq<bool>, w: nat, h: nat)
    requires w == 1 && h == 1 && data == [true] && |poly| == 4 && SpanOf(poly, RowMiddle(0), 4) == Span(0.4, 0.6)
    ensures Score(poly, data, w, h) == Some(5.0)
  {
    OnePixel(data, w, h);
    ThinRow(poly, data, w, h);
    OneRowOnly(poly, data, w, h);
    hide SpanOf, CountRow, Area, Both, Shape, BothInRow, WidthInRow, RowMiddle;
  }

  /** Off whole columns it may score more than one: an outline a fifth of a pixel wide,
      counted as the whole pixel it is on, scores five. */
  lemma MayScoreMoreThanOne() returns (poly: seq<Spot>, data: seq<bool>, w: nat, h: nat)
    ensures |poly| == 4 && |data| == w * h && Score(poly, data, w, h) == Some(5.0)
  {
    poly, data, w, h := [(0.4, 0.0), (0.6, 0.0), (0.6, 1.0), (0.4, 1.0)], [true], 1, 1;
    hide SpanOf, Score;
    UprightSpan(poly, 0.4, 0.6);
    ThinScore(poly, data, w, h);
  }
}
