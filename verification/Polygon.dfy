/** Convex polygons: from what each edge says to what any three corners say. */
module Polygon {
  import opened Geometry

  function Next(n: nat, i: nat): (r: nat)
    requires i < n
    ensures r < n
  {
    if i + 1 == n then 0 else i + 1
  }

  function Previous(n: nat, i: nat): (r: nat)
    requires i < n
    ensures r < n
    ensures Next(n, r) == i
  {
    if i == 0 then n - 1 else i - 1
  }

  /** Every corner turns the same way, the last and the first included. */
  ghost predicate TurnsAtEveryCorner(poly: seq<Point>) {
    forall i: nat :: i < |poly| ==>
      Cross(poly[i], poly[Next(|poly|, i)], poly[Next(|poly|, Next(|poly|, i))]) > 0
  }

  /** On or inside every edge. */
  ghost predicate Encloses(poly: seq<Point>, q: Point) {
    forall i: nat :: i < |poly| ==> Cross(poly[i], poly[Next(|poly|, i)], q) >= 0
  }

  ghost predicate Distinct(poly: seq<Point>) {
    forall i: nat, j: nat :: i < j < |poly| ==> poly[i] != poly[j]
  }

  /** Any three corners, taken in order, turn the same way: the strongest thing
      to say of a convex polygon, since dropping corners keeps it. */
  ghost predicate ConvexPosition(poly: seq<Point>) {
    forall i: nat, j: nat, k: nat :: i < j < k < |poly| ==> Cross(poly[i], poly[j], poly[k]) > 0
  }

  function Dot(u: Point, v: Point): int {
    u.x * v.x + u.y * v.y
  }

  lemma DotPositive(d: Point)
    requires d != Point(0, 0)
    ensures Dot(d, d) > 0
  {
    assert d.x != 0 ==> d.x * d.x > 0;
    assert d.y != 0 ==> d.y * d.y > 0;
    assert d.x * d.x >= 0 && d.y * d.y >= 0;
  }

  lemma Combine(p: int, q: int, a: Point, b: Point, c: Point, ab: int, bc: int, ac: int)
    requires b.x * ac == c.x * ab + a.x * bc
    requires b.y * ac == c.y * ab + a.y * bc
    ensures (p * b.x + q * b.y) * ac == (p * c.x + q * c.y) * ab + (p * a.x + q * a.y) * bc
  {
    calc {
      (p * b.x + q * b.y) * ac;
      p * (b.x * ac) + q * (b.y * ac);
      p * (c.x * ab + a.x * bc) + q * (c.y * ab + a.y * bc);
      (p * c.x + q * c.y) * ab + (p * a.x + q * a.y) * bc;
    }
  }

  lemma Rearrange(n: int, we: int, t: int, de: int, r: int, dw: int)
    requires n * we == r * (-dw) + t * de
    ensures n * we == t * de - dw * r
  {
  }

  /** A vector's part along `d` and across it, seen by any third vector. */
  lemma AlongAndAcross(d: Point, w: Point, e: Point)
    ensures Dot(d, d) * Wedge(w, e) == Dot(w, d) * Wedge(d, e) - Wedge(d, w) * Dot(e, d)
  {
    WedgeIdentity(w, d, e);
    Combine(d.x, d.y, w, d, e, Wedge(w, d), Wedge(d, e), Wedge(w, e));
    assert Wedge(w, d) == -Wedge(d, w);
    Rearrange(Dot(d, d), Wedge(w, e), Dot(w, d), Wedge(d, e), Dot(e, d), Wedge(d, w));
  }

  /** Along a line, the side `e` puts a vector on is the sign of how far along it is. */
  lemma AlongALine(d: Point, w: Point, e: Point)
    requires d != Point(0, 0) && Wedge(d, w) == 0
    ensures Dot(d, d) > 0
    ensures Dot(d, d) * Wedge(w, e) == Dot(w, d) * Wedge(d, e)
  {
    DotPositive(d);
    AlongAndAcross(d, w, e);
    assert Wedge(d, w) * Dot(e, d) == 0;
  }

  lemma AtTheStart(d: Point, w: Point)
    requires d != Point(0, 0) && Wedge(d, w) == 0 && Dot(w, d) == 0
    ensures w == Point(0, 0)
  {
    AlongALine(d, w, Point(1, 0));
    AlongALine(d, w, Point(0, 1));
    PositiveFactor(Dot(d, d), w.x);
    PositiveFactor(Dot(d, d), -w.y);
    assert Wedge(w, Point(1, 0)) == -w.y && Wedge(w, Point(0, 1)) == w.x;
  }

  /** A product's sign, for reading sides off `AlongALine`. */
  lemma SignOf(n: int, x: int, t: int, y: int)
    requires n > 0 && n * x == t * y
    ensures t > 0 && y > 0 ==> x > 0
    ensures t < 0 && y > 0 ==> x < 0
    ensures t > 0 && x >= 0 ==> y >= 0
    ensures t < 0 && x >= 0 ==> y <= 0
    ensures y == 0 ==> x == 0
  {
    PositiveFactor(n, x);
    if t > 0 {
      PositiveFactor(t, y);
    } else if t < 0 {
      PositiveFactor(-t, y);
      assert (-t) * y == -(t * y);
    }
  }

  /** Seen from either end of an edge, a corner strictly between the ends cannot turn. */
  lemma BetweenCannotTurn(d: Point, w: Point, e: Point)
    requires d != Point(0, 0) && Wedge(d, w) == 0
    requires 0 < Dot(w, d) < Dot(d, d)
    requires Wedge(w, e) >= 0 && Wedge(Minus(w, d), e) >= 0
    ensures Wedge(d, e) == 0
  {
    var v := Minus(w, d);
    assert Wedge(d, v) == 0;
    assert Dot(v, d) == Dot(w, d) - Dot(d, d);
    AlongALine(d, w, e);
    AlongALine(d, v, e);
    SignOf(Dot(d, d), Wedge(w, e), Dot(w, d), Wedge(d, e));
    SignOf(Dot(d, d), Wedge(v, e), Dot(v, d), Wedge(d, e));
  }

  /** Before the edge `b`, `c`: the corner at `b` would put it outside. */
  lemma NotBefore(a: Point, b: Point, c: Point, q: Point)
    requires b != c && Cross(a, b, c) > 0 && Cross(a, b, q) >= 0 && Cross(b, c, q) == 0
    ensures Dot(Minus(q, b), Minus(c, b)) >= 0
  {
    var d, w, e := Minus(c, b), Minus(q, b), Minus(a, b);
    CrossAsWedges(b, c, q);
    CrossAsWedges(a, b, c);
    CrossAsWedges(a, b, q);
    CrossAsWedges(b, c, a);
    CrossAsWedges(b, q, a);
    AlongALine(d, w, e);
    SignOf(Dot(d, d), Wedge(w, e), Dot(w, d), Wedge(d, e));
  }

  /** After the edge `b`, `c`: the corner at `c` would put it outside. */
  lemma NotAfter(b: Point, c: Point, d: Point, q: Point)
    requires b != c && Cross(b, c, d) > 0 && Cross(c, d, q) >= 0 && Cross(b, c, q) == 0
    ensures Dot(Minus(q, b), Minus(c, b)) <= Dot(Minus(c, b), Minus(c, b))
  {
    var v, w, e := Minus(c, b), Minus(q, c), Minus(d, c);
    CrossAsWedges(b, c, q);
    CrossAsWedges(b, c, d);
    CrossAsWedges(c, d, q);
    AlongALine(v, w, e);
    assert Wedge(e, w) == -Wedge(w, e);
    assert Dot(Minus(q, b), v) == Dot(w, v) + Dot(v, v);
    hide Dot, Wedge, Cross;
    SignOf(Dot(v, v), Wedge(w, e), Dot(w, v), Wedge(v, e));
  }

  /** With both ends of an edge on one side of `f` and `q` between them, `f` lies along the edge. */
  lemma FlatBetween(b: Point, c: Point, q: Point, f: Point)
    requires b != c && Wedge(Minus(c, b), Minus(q, b)) == 0
    requires 0 < Dot(Minus(q, b), Minus(c, b)) < Dot(Minus(c, b), Minus(c, b))
    requires Wedge(f, Minus(b, q)) >= 0 && Wedge(f, Minus(c, q)) >= 0
    ensures Wedge(Minus(c, b), f) == 0
  {
    var v, w := Minus(c, b), Minus(q, b);
    assert Minus(w, v) == Minus(q, c);
    Reversed(f, b, q);
    Reversed(f, c, q);
    BetweenCannotTurn(v, w, f);
  }

  lemma Reversed(f: Point, b: Point, q: Point)
    ensures Wedge(f, Minus(b, q)) == Wedge(Minus(q, b), f)
  {
  }

  /** A corner that turns is not strictly between an edge's ends. */
  lemma NotBetween(b: Point, c: Point, before: Point, q: Point, after: Point)
    requires b != c && Cross(b, c, q) == 0 && Cross(before, q, after) > 0
    requires Cross(q, after, b) >= 0 && Cross(q, after, c) >= 0
    requires Cross(before, q, b) >= 0 && Cross(before, q, c) >= 0
    ensures !(0 < Dot(Minus(q, b), Minus(c, b)) < Dot(Minus(c, b), Minus(c, b)))
  {
    var v, w := Minus(c, b), Minus(q, b);
    if 0 < Dot(w, v) < Dot(v, v) {
      var e, f := Minus(after, q), Minus(q, before);
      CrossAsWedges(b, c, q);
      CrossAsWedges(q, after, b);
      CrossAsWedges(q, after, c);
      CrossAsWedges(before, q, b);
      CrossAsWedges(before, q, c);
      FlatBetween(b, c, q, e);
      FlatBetween(b, c, q, f);
      CrossAsWedges(before, q, after);
      AlongALine(v, f, e);
      SignOf(Dot(v, v), Wedge(f, e), Dot(f, v), Wedge(v, e));
    }
  }

  /** A corner on the line of an edge is one of the edge's ends. */
  lemma CornerOnAnEdge(a: Point, b: Point, c: Point, d: Point, before: Point, q: Point, after: Point)
    requires b != c && Cross(a, b, c) > 0 && Cross(b, c, d) > 0 && Cross(before, q, after) > 0
    requires Cross(b, c, q) == 0 && Cross(a, b, q) >= 0 && Cross(c, d, q) >= 0
    requires Cross(q, after, b) >= 0 && Cross(q, after, c) >= 0
    requires Cross(before, q, b) >= 0 && Cross(before, q, c) >= 0
    ensures q == b || q == c
  {
    var v, w := Minus(c, b), Minus(q, b);
    CrossAsWedges(b, c, q);
    NotBefore(a, b, c, q);
    NotAfter(b, c, d, q);
    if Dot(w, v) == 0 {
      AtTheStart(v, w);
    } else if Dot(w, v) == Dot(v, v) {
      assert Dot(Minus(q, c), v) == 0 && Wedge(v, Minus(q, c)) == 0;
      AtTheStart(v, Minus(q, c));
    } else {
      NotBetween(b, c, before, q, after);
    }
  }

  /** Every other corner is strictly inside every edge. */
  lemma StrictlyInside(poly: seq<Point>, m: nat, i: nat)
    requires |poly| >= 3 && TurnsAtEveryCorner(poly) && Distinct(poly)
    requires forall q :: q in poly ==> Encloses(poly, q)
    requires m < |poly| && i < |poly| && i != m && i != Next(|poly|, m)
    ensures Cross(poly[m], poly[Next(|poly|, m)], poly[i]) > 0
  {
    var n := |poly|;
    var m1 := Next(n, m);
    var m0 := Previous(n, m);
    var i0 := Previous(n, i);
    assert Encloses(poly, poly[i]) && Encloses(poly, poly[m]) && Encloses(poly, poly[m1]);
    if Cross(poly[m], poly[m1], poly[i]) == 0 {
      CornerOnAnEdge(poly[m0], poly[m], poly[m1], poly[Next(n, m1)], poly[i0], poly[i], poly[Next(n, i)]);
    }
  }

  /** Turning the same way twice inside a cone that is not the whole plane. */
  lemma TurningInACone(s: Point, r: Point, a: Point, b: Point, c: Point)
    requires Wedge(s, a) + Wedge(a, r) > 0 && Wedge(s, b) + Wedge(b, r) > 0 && Wedge(s, c) + Wedge(c, r) > 0
    requires Wedge(a, b) > 0 && Wedge(b, c) > 0
    ensures Wedge(a, c) > 0
  {
    var p, q := r.y - s.y, s.x - r.x;
    assert Wedge(s, a) + Wedge(a, r) == p * a.x + q * a.y;
    assert Wedge(s, b) + Wedge(b, r) == p * b.x + q * b.y;
    assert Wedge(s, c) + Wedge(c, r) == p * c.x + q * c.y;
    WedgeIdentity(a, b, c);
    var fa, fb, fc := p * a.x + q * a.y, p * b.x + q * b.y, p * c.x + q * c.y;
    var ab, bc, ac := Wedge(a, b), Wedge(b, c), Wedge(a, c);
    Combine(p, q, a, b, c, ab, bc, ac);
    NonNegativeProduct(fc, ab);
    NonNegativeProduct(fa, bc);
    PositiveFactor(fb, ac);
  }

  /** Seen from corner `i`, the others lie in a cone between its two neighbours. */
  lemma InTheCone(poly: seq<Point>, i: nat, m: nat)
    requires |poly| >= 3 && TurnsAtEveryCorner(poly) && Distinct(poly)
    requires forall q :: q in poly ==> Encloses(poly, q)
    requires i < |poly| && m < |poly| && i != m
    ensures
      var s := Minus(poly[Next(|poly|, i)], poly[i]);
      var r := Minus(poly[Previous(|poly|, i)], poly[i]);
      Wedge(s, Minus(poly[m], poly[i])) + Wedge(Minus(poly[m], poly[i]), r) > 0
  {
    var n := |poly|;
    var next, before := Next(n, i), Previous(n, i);
    CrossAsWedges(poly[i], poly[next], poly[m]);
    CrossAsWedges(poly[before], poly[i], poly[m]);
    CrossAsWedges(poly[i], poly[m], poly[before]);
    assert Encloses(poly, poly[m]);
    assert Cross(poly[i], poly[next], poly[m]) >= 0;
    assert Cross(poly[before], poly[i], poly[m]) >= 0;
    if m != next {
      StrictlyInside(poly, i, m);
    } else {
      StrictlyInside(poly, before, m);
    }
  }

  lemma {:induction false} Fan(poly: seq<Point>, i: nat, j: nat, k: nat)
    requires |poly| >= 3 && TurnsAtEveryCorner(poly) && Distinct(poly)
    requires forall q :: q in poly ==> Encloses(poly, q)
    requires i < j < k < |poly|
    ensures Cross(poly[i], poly[j], poly[k]) > 0
    decreases k
  {
    StrictlyInside(poly, k - 1, i);
    CrossAsWedges(poly[k - 1], poly[k], poly[i]);
    if j < k - 1 {
      Fan(poly, i, j, k - 1);
      InTheCone(poly, i, j);
      InTheCone(poly, i, k - 1);
      InTheCone(poly, i, k);
      var o := poly[i];
      CrossAsWedges(o, poly[j], poly[k - 1]);
      CrossAsWedges(o, poly[k - 1], poly[k]);
      CrossAsWedges(o, poly[j], poly[k]);
      TurningInACone(Minus(poly[Next(|poly|, i)], o), Minus(poly[Previous(|poly|, i)], o),
                     Minus(poly[j], o), Minus(poly[k - 1], o), Minus(poly[k], o));
    }
  }

  /** What the edges say, all together: any three corners turn the same way. */
  lemma EdgesMakeItConvex(poly: seq<Point>)
    requires |poly| >= 3 && TurnsAtEveryCorner(poly) && Distinct(poly)
    requires forall q :: q in poly ==> Encloses(poly, q)
    ensures ConvexPosition(poly)
  {
    forall i: nat, j: nat, k: nat | i < j < k < |poly|
      ensures Cross(poly[i], poly[j], poly[k]) > 0
    {
      Fan(poly, i, j, k);
    }
  }
}
