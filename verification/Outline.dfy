/** What the overlap score counts: pixels by their middles, and widths by where rows
    cross the outline. */
module Outline {
  import opened Grid
  import opened Options
  import opened Overlap

  // ---------- Where a row crosses ----------

  /** The crossing is the one place at that height on the line through the side's ends,
      and it is between them. */
  lemma CrossedOnTheSide(a: Spot, b: Spot, yy: real, x: real)
    requires Crosses(a, b, yy)
    ensures (x - a.0) * (b.1 - a.1) == (yy - a.1) * (b.0 - a.0) <==> x == CrossedAt(a, b, yy)
    ensures Least(a.0, b.0) <= CrossedAt(a, b, yy) <= Most(a.0, b.0)
  {
    var t, d := (yy - a.1) / (b.1 - a.1), b.1 - a.1;
    assert t * d == yy - a.1;
    assert CrossedAt(a, b, yy) - a.0 == t * (b.0 - a.0);
    assert t * (b.0 - a.0) * d == t * d * (b.0 - a.0);
    if (x - a.0) * d == (yy - a.1) * (b.0 - a.0) {
      assert (x - CrossedAt(a, b, yy)) * d == 0.0;
    }
    ShareOfTheWay(yy - a.1, d, t);
    Within(a.0, b.0, t);
  }

  lemma ShareOfTheWay(p: real, d: real, t: real)
    requires d != 0.0 && t * d == p && (if d > 0.0 then 0.0 <= p < d else d <= p <= 0.0)
    ensures 0.0 <= t <= 1.0
  {
    assert (t - 1.0) * d == p - d;
    if d > 0.0 {
      assert t < 0.0 ==> t * d < 0.0;
      assert t > 1.0 ==> (t - 1.0) * d > 0.0;
    } else {
      assert t < 0.0 ==> t * d > 0.0;
      assert t > 1.0 ==> (t - 1.0) * d < 0.0;
    }
  }

  lemma NotNegative(a: real, b: real)
    requires a >= 0.0 && b >= 0.0
    ensures a * b >= 0.0
  {
  }

  lemma Within(a: real, b: real, t: real)
    requires 0.0 <= t <= 1.0
    ensures Least(a, b) <= a + t * (b - a) <= Most(a, b)
  {
    NotNegative(t, if a <= b then b - a else a - b);
    NotNegative(1.0 - t, if a <= b then b - a else a - b);
    if a <= b {
      assert (1.0 - t) * (b - a) == b - a - t * (b - a);
    } else {
      assert t * (b - a) == 0.0 - t * (a - b);
      assert (1.0 - t) * (a - b) == a - b - t * (a - b);
    }
  }

  /** Side `i` of the outline crosses at this height, at `x`. */
  ghost predicate SideCrossesAt(poly: seq<Spot>, yy: real, i: nat, x: real)
    requires i < |poly|
  {
    var a, b := poly[i], poly[(i + 1) % |poly|];
    Crosses(a, b, yy) && x == CrossedAt(a, b, yy)
  }

  /** Of the crossings of the first `n` sides, the span has the least, the most and all. */
  ghost predicate SpansThem(s: Span, poly: seq<Spot>, yy: real, n: nat)
    requires n <= |poly|
  {
    match s
    case Nothing => forall i, x :: 0 <= i < n ==> !SideCrossesAt(poly, yy, i, x)
    case Span(low, high) =>
      && (exists i :: 0 <= i < n && SideCrossesAt(poly, yy, i, low))
      && (exists i :: 0 <= i < n && SideCrossesAt(poly, yy, i, high))
      && (forall i, x :: 0 <= i < n && SideCrossesAt(poly, yy, i, x) ==> low <= x <= high)
  }

  lemma {:induction false} SpanIs(poly: seq<Spot>, yy: real, n: nat)
    requires n <= |poly|
    ensures SpansThem(SpanOf(poly, yy, n), poly, yy, n)
  {
    if n > 0 {
      SpanIs(poly, yy, n - 1);
      var before, after := SpanOf(poly, yy, n - 1), SpanOf(poly, yy, n);
      var a, b := poly[n - 1], poly[n % |poly|];
      hide CrossedAt;
      if Crosses(a, b, yy) {
        assert SideCrossesAt(poly, yy, n - 1, CrossedAt(a, b, yy));
        if before.Span? {
          var i :| 0 <= i < n - 1 && SideCrossesAt(poly, yy, i, before.low);
          var j :| 0 <= j < n - 1 && SideCrossesAt(poly, yy, j, before.high);
        }
      }
    }
  }

  // ---------- Which pixels, and how wide ----------

  /** A pixel is counted as the outline's when its middle is right of the least crossing
      of its row's middle, and not right of the most. */
  lemma CountedByItsMiddle(poly: seq<Spot>, w: nat, x: nat, y: nat)
    requires x < w
    ensures
      var s := SpanOf(poly, y as real + 0.5, |poly|);
      InOutline(poly, w, x, y) <==> s.Span? && s.low < x as real + 0.5 <= s.high
  {
    var s := SpanOf(poly, y as real + 0.5, |poly|);
    hide SpanOf;
    if s.Span? {
      RoundedPast(s.low, x);
      RoundedPast(s.high, x);
    }
  }

  lemma RoundedPast(v: real, x: nat)
    ensures Rounded(v) <= x <==> v < x as real + 0.5
  {
  }

  /** A row adds to the outline's size what is between its outermost crossings. */
  lemma ShapeByRows(poly: seq<Spot>, rows: nat)
    ensures Shape(poly, 0) == 0.0
    ensures
      var s := SpanOf(poly, rows as real + 0.5, |poly|);
      Shape(poly, rows + 1) - Shape(poly, rows) == if s.Span? then s.high - s.low else 0.0
  {
    SpanIs(poly, rows as real + 0.5, |poly|);
    hide SpanOf, SideCrossesAt;
  }

  // ---------- The counts ----------

  /** The pixels of the first rows that are in the mask. */
  ghost function MarkedPixels(data: seq<bool>, w: nat, h: nat, rows: nat): set<(nat, nat)>
    requires |data| == w * h && rows <= h
  {
    set x: nat, y: nat | x < w && y < rows && Marked(data, w, h, x, y) :: (x, y)
  }

  /** And of those, the ones counted as the outline's. */
  ghost function SharedPixels(poly: seq<Spot>, data: seq<bool>, w: nat, h: nat, rows: nat): set<(nat, nat)>
    requires |data| == w * h && rows <= h
  {
    set x: nat, y: nat | x < w && y < rows && Marked(data, w, h, x, y) && InOutline(poly, w, x, y) :: (x, y)
  }

  ghost function Stretch(data: seq<bool>, w: nat, h: nat, y: nat, x0: nat, x1: nat): set<(nat, nat)>
    requires |data| == w * h && y < h && x0 <= x1 <= w
  {
    set x: nat | x0 <= x < x1 && Marked(data, w, h, x, y) :: (x, y)
  }

  lemma {:induction false} CountIsSize(data: seq<bool>, w: nat, h: nat, y: nat, x0: nat, x1: nat)
    requires |data| == w * h && y < h && x0 <= x1 <= w
    ensures CountRow(data, w, h, y, x0, x1) == |Stretch(data, w, h, y, x0, x1)|
    decreases x1
  {
    hide Marked;
    if x1 == x0 {
      assert Stretch(data, w, h, y, x0, x1) == {};
    } else {
      CountIsSize(data, w, h, y, x0, x1 - 1);
      var before := Stretch(data, w, h, y, x0, x1 - 1);
      assert (x1 - 1, y) !in before;
      assert Stretch(data, w, h, y, x0, x1) == if Marked(data, w, h, x1 - 1, y) then before + {(x1 - 1, y)} else before;
    }
  }

  lemma Together(a: set<(nat, nat)>, b: set<(nat, nat)>, y: nat)
    requires (forall p :: p in a ==> p.1 < y) && (forall p :: p in b ==> p.1 == y)
    ensures |a + b| == |a| + |b|
  {
    assert a * b == {};
  }

  /** The area is how many pixels are in the mask. */
  lemma {:induction false} AreaIsSize(data: seq<bool>, w: nat, h: nat, rows: nat)
    requires |data| == w * h && rows <= h
    ensures Area(data, w, h, rows) == |MarkedPixels(data, w, h, rows)|
  {
    hide Marked, CountRow;
    if rows == 0 {
      assert MarkedPixels(data, w, h, 0) == {};
    } else {
      var y := rows - 1;
      AreaIsSize(data, w, h, y);
      CountIsSize(data, w, h, y, 0, w);
      var before, more := MarkedPixels(data, w, h, y), Stretch(data, w, h, y, 0, w);
      Together(before, more, y);
      assert MarkedPixels(data, w, h, rows) == before + more;
    }
  }

  /** What both cover is how many pixels are in both. */
  lemma {:induction false} BothIsSize(poly: seq<Spot>, data: seq<bool>, w: nat, h: nat, rows: nat)
    requires |data| == w * h && rows <= h
    ensures Both(poly, data, w, h, rows) == |SharedPixels(poly, data, w, h, rows)|
  {
    hide Marked, CountRow, SpanOf, InOutline;
    if rows == 0 {
      assert SharedPixels(poly, data, w, h, 0) == {};
    } else {
      var y := rows - 1;
      BothIsSize(poly, data, w, h, y);
      var more := SharedInRow(poly, data, w, h, y);
      Together(SharedPixels(poly, data, w, h, y), more, y);
      assert SharedPixels(poly, data, w, h, rows) == SharedPixels(poly, data, w, h, y) + more;
    }
  }

  lemma SharedInRow(poly: seq<Spot>, data: seq<bool>, w: nat, h: nat, y: nat) returns (more: set<(nat, nat)>)
    requires |data| == w * h && y < h
    ensures more == set x: nat | x < w && Marked(data, w, h, x, y) && InOutline(poly, w, x, y) :: (x, y)
    ensures |more| == BothInRow(poly, data, w, h, y)
  {
    var s := SpanOf(poly, RowMiddle(y), |poly|);
    hide Marked, CountRow, SpanOf, From, To;
    if Wide(s) {
      InOrder(s, w);
      CountIsSize(data, w, h, y, From(s, w), To(s, w));
      more := Stretch(data, w, h, y, From(s, w), To(s, w));
    } else {
      more := {};
    }
  }

  /** Of so many pixels in both, over what is in either; none where that is nothing. */
  predicate IsTheScore(score: Option<real>, both: nat, area: nat, shape: real) {
    var either := area as real + shape - both as real;
    match score
    case None => either == 0.0
    case Some(v) => either != 0.0 && v * either == both as real
  }

  lemma RatioIsTheScore(both: nat, area: nat, shape: real)
    ensures IsTheScore(Ratio(both, area, shape), both, area, shape)
  {
  }

  /** The score is how many pixels are in the mask and the outline, over how many are in
      the mask and the outline's size together, less those; there is none where that
      is nothing, and it is nothing of an outline of fewer than three corners. */
  lemma ScoreCounted(poly: seq<Spot>, data: seq<bool>, w: nat, h: nat)
    requires |data| == w * h
    ensures
      if |poly| < 3 then Score(poly, data, w, h) == Some(0.0)
      else IsTheScore(Score(poly, data, w, h), |SharedPixels(poly, data, w, h, h)|, |MarkedPixels(data, w, h, h)|,
                      Shape(poly, h))
  {
    AreaIsSize(data, w, h, h);
    BothIsSize(poly, data, w, h, h);
    hide Both, Area, Shape, SharedPixels, MarkedPixels, Ratio, IsTheScore;
    RatioIsTheScore(|SharedPixels(poly, data, w, h, h)|, |MarkedPixels(data, w, h, h)|, Shape(poly, h));
  }

  // ---------- Which sides cross ----------

  /** Above this height. */
  predicate Above(a: Spot, yy: real) {
    a.1 > yy
  }

  /** A side crosses at a height exactly when one of its ends is above it and the other is
      not, so an end at that height is counted with what is below. */
  lemma CrossesWhenApart(a: Spot, b: Spot, yy: real)
    ensures Crosses(a, b, yy) <==> Above(a, yy) != Above(b, yy)
  {
  }

  /** How many of the first `n` sides cross. */
  function Crossings(poly: seq<Spot>, yy: real, n: nat): nat
    requires n <= |poly|
  {
    if n == 0 then 0
    else Crossings(poly, yy, n - 1) + if Crosses(poly[n - 1], Corner(poly, n), yy) then 1 else 0
  }

  /** The first corner again after the last. */
  function Corner(poly: seq<Spot>, n: nat): Spot
    requires 0 < |poly| && n <= |poly|
  {
    if n < |poly| then poly[n] else poly[0]
  }

  lemma {:induction false} CrossingsSoFar(poly: seq<Spot>, yy: real, n: nat)
    requires 0 < |poly| && n <= |poly|
    ensures Crossings(poly, yy, n) % 2 == 0 <==> Above(poly[0], yy) == Above(Corner(poly, n), yy)
  {
    hide Crosses, Above;
    if n > 0 {
      CrossingsSoFar(poly, yy, n - 1);
      CrossesWhenApart(poly[n - 1], Corner(poly, n), yy);
    }
  }

  /** An outline crosses any height an even number of times: what goes in comes out. */
  lemma CrossingsAreEven(poly: seq<Spot>, yy: real)
    requires poly != []
    ensures Crossings(poly, yy, |poly|) % 2 == 0
  {
    CrossingsSoFar(poly, yy, |poly|);
  }
}
