/** Scoring a quad against a piece, cell by cell, and what the cells it counts are. */
module QuadFit {
  import opened BiggestQuad
  import opened Geometry
  import opened Grid
  import opened Options
  import opened Piece

  // ---------- The half-plane test, at twice the scale so that a pixel's centre is whole ----------

  function Doubled(q: Quad): Quad {
    Quad(Scale(2, q.a), Scale(2, q.b), Scale(2, q.c), Scale(2, q.d))
  }

  function Centre(x: int, y: int): Point {
    Point(2 * x + 1, 2 * y + 1)
  }

  /** On the inner side of all four edges. */
  predicate InsideEdges(q: Quad, p: Point) {
    Cross(q.a, q.b, p) >= 0 && Cross(q.b, q.c, p) >= 0 && Cross(q.c, q.d, p) >= 0 && Cross(q.d, q.a, p) >= 0
  }

  predicate InsideAt(q: Quad, x: int, y: int) {
    InsideEdges(Doubled(q), Centre(x, y))
  }

  /** Which side of a line from `a` through `b` a place is on, anywhere on the picture. */
  function SideOf(a: Point, b: Point, x: real, y: real): real {
    (b.x - a.x) as real * (y - a.y as real) - (b.y - a.y) as real * (x - a.x as real)
  }

  lemma DoubledSide(a: Point, b: Point, x: int, y: int)
    ensures Cross(Scale(2, a), Scale(2, b), Centre(x, y)) as real
         == 4.0 * SideOf(a, b, x as real + 0.5, y as real + 0.5)
  {
    var m, n, s, t := b.x - a.x, b.y - a.y, 2 * x + 1 - 2 * a.x, 2 * y + 1 - 2 * a.y;
    assert Cross(Scale(2, a), Scale(2, b), Centre(x, y)) == 2 * (m * t - n * s);
    Cast(m, t);
    Cast(n, s);
    assert t as real == 2.0 * (y as real + 0.5 - a.y as real);
    assert s as real == 2.0 * (x as real + 0.5 - a.x as real);
  }

  lemma Cast(a: int, b: int)
    ensures (a * b) as real == a as real * b as real
  {
  }

  /** A cell is tested at its middle: half across it and half down. */
  lemma TestedAtItsMiddle(q: Quad, x: int, y: int)
    ensures
      var px, py := x as real + 0.5, y as real + 0.5;
      InsideAt(q, x, y) <==>
        && SideOf(q.a, q.b, px, py) >= 0.0 && SideOf(q.b, q.c, px, py) >= 0.0
        && SideOf(q.c, q.d, px, py) >= 0.0 && SideOf(q.d, q.a, px, py) >= 0.0
  {
    DoubledSide(q.a, q.b, x, y);
    DoubledSide(q.b, q.c, x, y);
    DoubledSide(q.c, q.d, x, y);
    DoubledSide(q.d, q.a, x, y);
    hide SideOf, Cross, Centre, Scale;
  }

  /** A mean of the four corners, each by its share of the weight. */
  predicate MeanOf(q: Quad, p: Point, ka: nat, kb: nat, kc: nat, kd: nat) {
    && ka + kb + kc + kd > 0
    && ka * q.a.x + kb * q.b.x + kc * q.c.x + kd * q.d.x == (ka + kb + kc + kd) * p.x
    && ka * q.a.y + kb * q.b.y + kc * q.c.y + kd * q.d.y == (ka + kb + kc + kd) * p.y
  }

  /** In the convex quad itself: somewhere between its four corners. */
  ghost predicate InTheQuad(q: Quad, p: Point) {
    exists ka: nat, kb: nat, kc: nat, kd: nat :: MeanOf(q, p, ka, kb, kc, kd)
  }

  /** A point by its three areas in a triangle. */
  lemma ByAreas(a: Point, b: Point, c: Point, p: Point)
    ensures Cross(b, c, p) + Cross(c, a, p) + Cross(a, b, p) == Cross(a, b, c)
    ensures Cross(b, c, p) * a.x + Cross(c, a, p) * b.x + Cross(a, b, p) * c.x == Cross(a, b, c) * p.x
    ensures Cross(b, c, p) * a.y + Cross(c, a, p) * b.y + Cross(a, b, p) * c.y == Cross(a, b, c) * p.y
  {
    var u, v, s, t, m, n := a.x, a.y, b.x, b.y, c.x, c.y;
    var ca := s * n - t * m + (t - n) * p.x + (m - s) * p.y;
    var cb := m * v - n * u + (n - v) * p.x + (u - m) * p.y;
    var cc := u * t - v * s + (v - t) * p.x + (s - u) * p.y;
    assert Cross(b, c, p) == ca && Cross(c, a, p) == cb && Cross(a, b, p) == cc;
    assert Cross(a, b, c) == s * n - t * m + m * v - n * u + u * t - v * s;
    hide Cross;
    MeanAlong(s * n - t * m, m * v - n * u, u * t - v * s, u, v, s, t, m, n, p.x, p.y);
  }

  lemma MeanAlong(f: int, g: int, h: int, u: int, v: int, s: int, t: int, m: int, n: int, x: int, y: int)
    requires f == s * n - t * m && g == m * v - n * u && h == u * t - v * s
    ensures (f + (t - n) * x + (m - s) * y) * u + (g + (n - v) * x + (u - m) * y) * s
            + (h + (v - t) * x + (s - u) * y) * m == (f + g + h) * x
    ensures (f + (t - n) * x + (m - s) * y) * v + (g + (n - v) * x + (u - m) * y) * t
            + (h + (v - t) * x + (s - u) * y) * n == (f + g + h) * y
  {
  }

  lemma InATriangle(q: Quad, p: Point)
    requires TurnsPositive(q) && InsideEdges(q, p)
    ensures InTheQuad(q, p)
  {
    CrossAsWedges(q.c, q.a, p);
    CrossAsWedges(q.a, q.c, p);
    CrossAsWedges(q.a, q.c, q.d);
    ByAreas(q.a, q.b, q.c, p);
    ByAreas(q.a, q.c, q.d, p);
    hide Cross, Wedge;
    if Cross(q.c, q.a, p) >= 0 {
      var ka, kb, kc := Cross(q.b, q.c, p), Cross(q.c, q.a, p), Cross(q.a, q.b, p);
      assert MeanOf(q, p, ka, kb, kc, 0);
    } else {
      var ka, kc, kd := Cross(q.c, q.d, p), Cross(q.d, q.a, p), Cross(q.a, q.c, p);
      assert MeanOf(q, p, ka, 0, kc, kd);
    }
  }

  /** An edge sees a mean of four points as the same mean of what it sees of each. */
  lemma EdgeOfMean(o: Point, e: Point, q: Quad, p: Point, ka: nat, kb: nat, kc: nat, kd: nat)
    requires MeanOf(q, p, ka, kb, kc, kd)
    ensures ka * Cross(o, e, q.a) + kb * Cross(o, e, q.b) + kc * Cross(o, e, q.c) + kd * Cross(o, e, q.d)
         == (ka + kb + kc + kd) * Cross(o, e, p)
  {
    var k, m, n := ka + kb + kc + kd, e.x - o.x, e.y - o.y;
    var c := n * o.x - m * o.y;
    Affine(m, n, c, o, e, q.a);
    Affine(m, n, c, o, e, q.b);
    Affine(m, n, c, o, e, q.c);
    Affine(m, n, c, o, e, q.d);
    Affine(m, n, c, o, e, p);
    hide Cross;
    Weighted(ka, m, n, c, q.a);
    Weighted(kb, m, n, c, q.b);
    Weighted(kc, m, n, c, q.c);
    Weighted(kd, m, n, c, q.d);
    Weighted(k, m, n, c, p);
    SumOut(m, ka * q.a.y, kb * q.b.y, kc * q.c.y, kd * q.d.y);
    SumOut(n, ka * q.a.x, kb * q.b.x, kc * q.c.x, kd * q.d.x);
    SumOut(c, ka, kb, kc, kd);
    assert c * k == k * c && c * ka == ka * c && c * kb == kb * c && c * kc == kc * c && c * kd == kd * c;
  }

  lemma Weighted(k: nat, m: int, n: int, c: int, p: Point)
    ensures k * (m * p.y - n * p.x + c) == m * (k * p.y) - n * (k * p.x) + k * c
  {
  }

  lemma SumOut(m: int, a: int, b: int, c: int, d: int)
    ensures m * (a + b + c + d) == m * a + m * b + m * c + m * d
  {
  }

  lemma Affine(m: int, n: int, c: int, o: Point, e: Point, p: Point)
    requires m == e.x - o.x && n == e.y - o.y && c == n * o.x - m * o.y
    ensures Cross(o, e, p) == m * p.y - n * p.x + c
  {
  }

  lemma EdgeKeepsMeans(o: Point, e: Point, q: Quad, p: Point)
    requires InTheQuad(q, p)
    requires Cross(o, e, q.a) >= 0 && Cross(o, e, q.b) >= 0 && Cross(o, e, q.c) >= 0 && Cross(o, e, q.d) >= 0
    ensures Cross(o, e, p) >= 0
  {
    var ka: nat, kb: nat, kc: nat, kd: nat :| MeanOf(q, p, ka, kb, kc, kd);
    EdgeOfMean(o, e, q, p, ka, kb, kc, kd);
    hide Cross;
    NonNegativeProduct(ka, Cross(o, e, q.a));
    NonNegativeProduct(kb, Cross(o, e, q.b));
    NonNegativeProduct(kc, Cross(o, e, q.c));
    NonNegativeProduct(kd, Cross(o, e, q.d));
    PositiveFactor(ka + kb + kc + kd, Cross(o, e, p));
  }

  /** Of a quad that turns the right way at all four corners, the four half-planes
      are exactly the quad: no more of the plane, and no less. */
  lemma HalfPlanesAreTheQuad(q: Quad, p: Point)
    requires TurnsPositive(q)
    ensures InsideEdges(q, p) <==> InTheQuad(q, p)
  {
    if InsideEdges(q, p) {
      InATriangle(q, p);
    }
    if InTheQuad(q, p) {
      CrossAsWedges(q.b, q.c, q.a);
      CrossAsWedges(q.c, q.d, q.b);
      CrossAsWedges(q.d, q.a, q.c);
      CrossAsWedges(q.a, q.b, q.d);
      FlatEdge(q.a, q.b);
      FlatEdge(q.b, q.c);
      FlatEdge(q.c, q.d);
      FlatEdge(q.d, q.a);
      hide Cross, Wedge, InTheQuad;
      EdgeKeepsMeans(q.a, q.b, q, p);
      EdgeKeepsMeans(q.b, q.c, q, p);
      EdgeKeepsMeans(q.c, q.d, q, p);
      EdgeKeepsMeans(q.d, q.a, q, p);
    }
  }

  lemma FlatEdge(o: Point, e: Point)
    ensures Cross(o, e, o) == 0 && Cross(o, e, e) == 0
  {
  }

  lemma DoubledTurns(q: Quad)
    requires TurnsPositive(q)
    ensures TurnsPositive(Doubled(q))
  {
    FourTimes(q.a, q.b, q.c);
    FourTimes(q.b, q.c, q.d);
    FourTimes(q.c, q.d, q.a);
    FourTimes(q.d, q.a, q.b);
  }

  lemma FourTimes(o: Point, a: Point, b: Point)
    ensures Cross(Scale(2, o), Scale(2, a), Scale(2, b)) == 4 * Cross(o, a, b)
  {
    var p, q, r, s := a.x - o.x, a.y - o.y, b.x - o.x, b.y - o.y;
    assert Cross(Scale(2, o), Scale(2, a), Scale(2, b)) == (2 * p) * (2 * s) - (2 * q) * (2 * r);
  }

  // ---------- The score ----------

  /** For a quad that turns at every corner, the test passes a pixel exactly when its
      centre is in the quad itself. */
  lemma InsideIsInTheQuad(q: Quad, x: int, y: int)
    requires TurnsPositive(q)
    ensures InsideAt(q, x, y) <==> InTheQuad(Doubled(q), Centre(x, y))
  {
    DoubledTurns(q);
    hide TurnsPositive, InTheQuad, InsideEdges;
    HalfPlanesAreTheQuad(Doubled(q), Centre(x, y));
  }

  /** The cells, of the first `n`, whose centres are in the quad. */
  ghost function CellsIn(q: Quad, w: nat, n: nat): set<nat>
    requires w > 0
  {
    set i: nat | i < n && InTheQuad(Doubled(q), Centre(Across(w, i), Down(w, i)))
  }

  /** So the cells scored are exactly those with their centres in the quad. */
  lemma CoveredAreTheCellsIn(q: Quad, w: nat, n: nat)
    requires w > 0 && TurnsPositive(q)
    ensures Covered(q, w, n) == CellsIn(q, w, n)
  {
    hide TurnsPositive, InTheQuad, InsideAt;
    forall i: nat | i < n
      ensures InsideAt(q, Across(w, i), Down(w, i)) <==> InTheQuad(Doubled(q), Centre(Across(w, i), Down(w, i)))
    {
      InsideIsInTheQuad(q, Across(w, i), Down(w, i));
    }
  }

  /** The cells, of the first `n`, that pass the test. */
  ghost function Covered(q: Quad, w: nat, n: nat): set<nat>
    requires w > 0
  {
    set i: nat | i < n && InsideAt(q, Across(w, i), Down(w, i))
  }

  ghost function MarksTo(piece: seq<byte>, n: nat): set<nat> {
    set i: nat | i < n && i < |piece| && piece[i] != 0
  }

  /** What the counts say: both over either, between nothing and everything. */
  ghost predicate Describes(fit: real, marks: set<nat>, covered: set<nat>) {
    && 0.0 <= fit <= 1.0
    && fit * |marks + covered| as real == |marks * covered| as real
    && (fit == 1.0 <==> marks == covered)
    && (fit == 0.0 <==> marks !! covered)
  }

  ghost function BothTo(piece: seq<byte>, q: Quad, w: nat, n: nat): set<nat>
    requires w > 0
  {
    MarksTo(piece, n) * Covered(q, w, n)
  }

  lemma CoveredNext(q: Quad, w: nat, n: nat)
    requires w > 0
    ensures |Covered(q, w, n + 1)| == |Covered(q, w, n)| + if InsideAt(q, Across(w, n), Down(w, n)) then 1 else 0
  {
    hide InsideAt, Across, Down;
    if InsideAt(q, Across(w, n), Down(w, n)) {
      assert Covered(q, w, n + 1) == Covered(q, w, n) + {n};
    } else {
      assert Covered(q, w, n + 1) == Covered(q, w, n);
    }
  }

  lemma BothNext(piece: seq<byte>, q: Quad, w: nat, n: nat)
    requires w > 0 && n < |piece|
    ensures |BothTo(piece, q, w, n + 1)|
         == |BothTo(piece, q, w, n)| + if InsideAt(q, Across(w, n), Down(w, n)) && piece[n] != 0 then 1 else 0
  {
    hide InsideAt, Across, Down;
    assert BothTo(piece, q, w, n) ==
      set i: nat | i < n && i < |piece| && piece[i] != 0 && InsideAt(q, Across(w, i), Down(w, i));
    assert BothTo(piece, q, w, n + 1) ==
      set i: nat | i < n + 1 && i < |piece| && piece[i] != 0 && InsideAt(q, Across(w, i), Down(w, i));
    if InsideAt(q, Across(w, n), Down(w, n)) && piece[n] != 0 {
      assert BothTo(piece, q, w, n + 1) == BothTo(piece, q, w, n) + {n};
    } else {
      assert BothTo(piece, q, w, n + 1) == BothTo(piece, q, w, n);
    }
  }

  /** One more pixel looked at. */
  lemma Counted(piece: seq<byte>, q: Quad, w: nat, h: nat, x: nat, y: nat)
    requires OnGrid(w, h, x, y) && |piece| == w * h
    ensures 0 <= Cell(w, x, y) < |piece|
    ensures
      var n, on := Cell(w, x, y), InsideAt(q, x, y);
      && |Covered(q, w, n + 1)| == |Covered(q, w, n)| + (if on then 1 else 0)
      && |BothTo(piece, q, w, n + 1)| == |BothTo(piece, q, w, n)| + (if on && piece[n] != 0 then 1 else 0)
  {
    hide InsideAt, Covered, BothTo;
    CellOnGrid(w, h, x, y);
    CellOf(w, x, y);
    CoveredNext(q, w, Cell(w, x, y));
    BothNext(piece, q, w, Cell(w, x, y));
  }

  lemma Sizes(a: set<nat>, b: set<nat>)
    ensures |a + b| == |a| + |b| - |a * b|
    ensures |a * b| <= |a| && |a * b| <= |b|
    ensures |a * b| == |a| == |b| <==> a == b
    ensures |a * b| == 0 <==> a !! b
  {
    assert a == a * b + (a - b) && b == a * b + (b - a);
    assert a + b == a * b + (a - b) + (b - a);
    if |a * b| == |a| == |b| {
      assert |a - b| == 0 && |b - a| == 0;
    }
    if a == b {
      assert a * b == a;
    }
    assert |a * b| == 0 <==> a * b == {};
  }

  /** The share of the two together that both cover, of sets not both empty. */
  lemma Scored(marks: set<nat>, covered: set<nat>)
    requires |marks| > 0
    ensures |marks| + |covered| - |marks * covered| > 0
    ensures Describes(|marks * covered| as real / (|marks| + |covered| - |marks * covered|) as real, marks, covered)
  {
    Sizes(marks, covered);
    var both, either := |marks * covered|, |marks + covered|;
    Share(both, either);
  }

  lemma Share(both: nat, either: nat)
    requires 0 < either && both <= either
    ensures var f := both as real / either as real;
      && 0.0 <= f <= 1.0 && f * either as real == both as real
      && (f == 1.0 <==> both == either) && (f == 0.0 <==> both == 0)
  {
    var f := both as real / either as real;
    assert f * either as real == both as real;
  }

  /** One number over another; nothing over nothing is no number. */
  function Quotient(n: nat, d: nat): Option<real> {
    if d == 0 then None else Some(n as real / d as real)
  }

  /** The piece's cells that pass the test, over those of either, for whatever area is
      given; and for the piece's own, the share of the two together that both cover. */
  method QuadFit(piece: array<byte>, area: nat, q: Quad, w: nat, h: nat) returns (fit: Option<real>)
    requires piece.Length == w * h
    ensures w == 0 ==> fit == Quotient(0, area)
    ensures w > 0 ==>
      var marks, covered := Marks(piece[..]), Covered(q, w, w * h);
      |marks * covered| <= |covered| && fit == Quotient(|marks * covered|, area + |covered| - |marks * covered|)
    ensures w > 0 && area > 0 && area == |Marks(piece[..])| ==>
      fit.Some? && Describes(fit.value, Marks(piece[..]), Covered(q, w, w * h))
  {
    hide InsideAt, Describes, Covered, BothTo, Marks;
    var both, quad := 0, 0;
    NothingYet(piece[..], q, w);
    for y := 0 to h
      invariant w > 0 ==> Tally(piece[..], q, w, Cell(w, 0, y), both, quad)
      invariant w == 0 ==> both == 0 && quad == 0
    {
      for x := 0 to w
        invariant w > 0 ==> Tally(piece[..], q, w, Cell(w, x, y), both, quad)
        invariant w == 0 ==> both == 0 && quad == 0
      {
        Counted(piece[..], q, w, h, x, y);
        if InsideAt(q, x, y) {
          quad := quad + 1;
          if piece[y * w + x] != 0 {
            both := both + 1;
          }
        }
        assert Cell(w, x, y) + 1 == Cell(w, x + 1, y);
      }
      assert Cell(w, w, y) == Cell(w, 0, y + 1);
    }
    if w > 0 {
      Finished(piece[..], q, w, h, both, quad);
    }
    var either := area + quad - both;
    fit := if either == 0 then None else Some(both as real / either as real);
  }

  ghost predicate Tally(piece: seq<byte>, q: Quad, w: nat, n: nat, both: nat, quad: nat)
    requires w > 0
  {
    quad == |Covered(q, w, n)| && both == |BothTo(piece, q, w, n)|
  }

  lemma NothingYet(piece: seq<byte>, q: Quad, w: nat)
    ensures w > 0 ==> Tally(piece, q, w, Cell(w, 0, 0), 0, 0)
  {
    if w > 0 {
      hide InsideAt;
      assert Covered(q, w, 0) == {} && BothTo(piece, q, w, 0) == {};
    }
  }

  lemma Finished(piece: seq<byte>, q: Quad, w: nat, h: nat, both: nat, quad: nat)
    requires w > 0 && |piece| == w * h && Tally(piece, q, w, Cell(w, 0, h), both, quad)
    ensures quad == |Covered(q, w, w * h)| && both == |Marks(piece) * Covered(q, w, w * h)| <= quad
    ensures |Marks(piece)| > 0 ==>
      && |Marks(piece)| + quad - both > 0
      && Describes(both as real / (|Marks(piece)| + quad - both) as real, Marks(piece), Covered(q, w, w * h))
  {
    hide InsideAt, Describes, Covered;
    assert Cell(w, 0, h) == w * h;
    assert MarksTo(piece, w * h) == Marks(piece);
    Sizes(Marks(piece), Covered(q, w, w * h));
    if |Marks(piece)| > 0 {
      Scored(Marks(piece), Covered(q, w, w * h));
    }
  }
}
