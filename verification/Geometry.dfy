/** Points on the pixel grid, and which way three of them turn.

    The coordinates of a pixel's corner are whole numbers, so every turn here is
    exact. `y` grows downwards, as in a photograph, and a positive `Cross` is a
    turn to the right on the screen. */
module Geometry {

  datatype Point = Point(x: int, y: int)

  function Minus(a: Point, b: Point): Point {
    Point(a.x - b.x, a.y - b.y)
  }

  function Scale(k: int, a: Point): Point {
    Point(k * a.x, k * a.y)
  }

  function Wedge(u: Point, v: Point): int {
    u.x * v.y - u.y * v.x
  }

  /** Twice the signed area of the triangle `o`, `a`, `b`. */
  function Cross(o: Point, a: Point, b: Point): int {
    (a.x - o.x) * (b.y - o.y) - (a.y - o.y) * (b.x - o.x)
  }

  lemma CrossAsWedges(o: Point, a: Point, b: Point)
    ensures Cross(o, a, b) == Wedge(Minus(a, o), Minus(b, o))
    ensures Cross(o, a, b) == Wedge(Minus(a, o), Minus(b, a))
    ensures Cross(o, a, b) == Cross(a, b, o) == Cross(b, o, a)
    ensures Cross(a, o, b) == -Cross(o, a, b)
  {
    var p, q, r, s := a.x - o.x, a.y - o.y, b.x - o.x, b.y - o.y;
    assert Cross(o, a, b) == p * s - q * r;
    assert Wedge(Minus(a, o), Minus(b, a)) == p * (s - q) - q * (r - p);
    assert Cross(a, b, o) == (r - p) * (-q) - (s - q) * (-p);
    assert Cross(b, o, a) == (-r) * (q - s) - (-s) * (p - r);
    assert Cross(a, o, b) == (-p) * (s - q) - (-q) * (r - p);
  }

  // ---------- The order the corners are sorted in ----------

  /** Left to right, and downwards within a column. */
  predicate Forward(v: Point) {
    v.x > 0 || (v.x == 0 && v.y >= 0)
  }

  /** `a` is not after `b`, walking in direction `dir` (1 forwards, -1 back). */
  predicate Order(dir: int, a: Point, b: Point) {
    Forward(Scale(dir, Minus(b, a)))
  }

  lemma OrderLaws(dir: int, a: Point, b: Point, c: Point)
    requires dir == 1 || dir == -1
    ensures Order(dir, a, b) || Order(dir, b, a)
    ensures Order(dir, a, b) && Order(dir, b, a) ==> a == b
    ensures Order(dir, a, b) && Order(dir, b, c) ==> Order(dir, a, c)
    ensures Order(dir, a, b) <==> Order(-dir, b, a)
  {
  }

  /** Plücker's relation in the plane, for any linear measure of a vector. */
  lemma WedgeIdentity(a: Point, b: Point, c: Point)
    ensures b.x * Wedge(a, c) == c.x * Wedge(a, b) + a.x * Wedge(b, c)
    ensures b.y * Wedge(a, c) == c.y * Wedge(a, b) + a.y * Wedge(b, c)
  {
  }

  lemma PositiveFactor(k: int, n: int)
    requires k > 0
    ensures k * n > 0 <==> n > 0
    ensures k * n >= 0 <==> n >= 0
    ensures k * n == 0 <==> n == 0
  {
    if n > 0 {
      assert k * n > 0;
    } else if n < 0 {
      assert k * (-n) > 0;
      assert k * n == -(k * (-n));
    }
  }

  lemma NonNegativeProduct(k: int, n: int)
    requires k >= 0 && n >= 0
    ensures k * n >= 0
    ensures k > 0 && n > 0 ==> k * n > 0
  {
  }

  /** Turning the same way twice, all the while heading forwards, is turning that way. */
  lemma TurningOn(a: Point, b: Point, c: Point)
    requires Forward(a) && Forward(b) && Forward(c) && b != Point(0, 0)
    requires Wedge(a, b) >= 0 && Wedge(b, c) >= 0
    ensures Wedge(a, c) >= 0
    ensures Wedge(a, b) > 0 && Wedge(b, c) > 0 ==> Wedge(a, c) > 0
  {
    WedgeIdentity(a, b, c);
    if b.x > 0 {
      NonNegativeProduct(c.x, Wedge(a, b));
      NonNegativeProduct(a.x, Wedge(b, c));
      PositiveFactor(b.x, Wedge(a, c));
      if a.x == 0 {
        NonNegativeProduct(a.y, b.x);
        assert Wedge(a, b) == -(a.y * b.x) <= 0;
      }
    } else {
      assert Wedge(a, b) == a.x * b.y;
      assert Wedge(b, c) == -(b.y * c.x);
      PositiveFactor(b.y, -c.x);
      assert b.y * -c.x == -(b.y * c.x);
      assert c.x == 0;
      NonNegativeProduct(a.x, c.y);
    }
  }

  lemma WedgeScale(dir: int, u: Point, v: Point)
    requires dir == 1 || dir == -1
    ensures Wedge(Scale(dir, u), Scale(dir, v)) == Wedge(u, v)
  {
    if dir == 1 {
      assert Scale(dir, u) == u && Scale(dir, v) == v;
    } else {
      assert Scale(dir, u) == Point(-u.x, -u.y) && Scale(dir, v) == Point(-v.x, -v.y);
    }
  }

  /** `TurningOn`, heading either way. */
  lemma TurningOnEitherWay(dir: int, a: Point, b: Point, c: Point)
    requires dir == 1 || dir == -1
    requires Forward(Scale(dir, a)) && Forward(Scale(dir, b)) && Forward(Scale(dir, c)) && b != Point(0, 0)
    requires Wedge(a, b) >= 0 && Wedge(b, c) >= 0
    ensures Wedge(a, c) >= 0
    ensures Wedge(a, b) > 0 && Wedge(b, c) > 0 ==> Wedge(a, c) > 0
  {
    WedgeScale(dir, a, b);
    WedgeScale(dir, b, c);
    WedgeScale(dir, a, c);
    TurningOn(Scale(dir, a), Scale(dir, b), Scale(dir, c));
  }
}
