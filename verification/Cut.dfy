/** Four corners, which of them make a face, and the projection of the unit square onto one. */
module Cut {
  import opened Options

  /** `x` grows to the right and `y` downwards; the unit is the whole picture or one pixel. */
  datatype Spot = Spot(x: real, y: real)

  /** Corners in the order a path round the face meets them, `a` to `d`. */
  datatype Corners = Corners(a: Spot, b: Spot, c: Spot, d: Spot)

  function At(q: Corners, i: int): Spot {
    if i == 0 then q.a else if i == 1 then q.b else if i == 2 then q.c else q.d
  }

  /** Which way the path from `a` through `b` to `c` turns, and how sharply. */
  function Turn(a: Spot, b: Spot, c: Spot): real {
    (b.x - a.x) * (c.y - b.y) - (b.y - a.y) * (c.x - b.x)
  }

  // ---------- Which corners are a face ----------

  /** What an edge adds to twice the area. */
  function Sweep(a: Spot, b: Spot): real {
    a.x * b.y - b.x * a.y
  }

  function TwiceArea(q: Corners): real {
    Sweep(q.a, q.b) + Sweep(q.b, q.c) + Sweep(q.c, q.d) + Sweep(q.d, q.a)
  }

  predicate TurnsClockwise(q: Corners) {
    Turn(q.a, q.b, q.c) > 0.0 && Turn(q.b, q.c, q.d) > 0.0 && Turn(q.c, q.d, q.a) > 0.0 && Turn(q.d, q.a, q.b) > 0.0
  }

  /** Every turn clockwise, and an area of 0.01 or more. */
  predicate Face(q: Corners) {
    TurnsClockwise(q) && TwiceArea(q) / 2.0 >= 0.01
  }

  method IsFace(q: Corners) returns (face: bool)
    ensures face <==> Face(q)
  {
    hide Turn, Sweep;
    var twice := 0.0;
    for i := 0 to 4
      invariant i >= 1 ==> Turn(q.a, q.b, q.c) > 0.0
      invariant i >= 2 ==> Turn(q.b, q.c, q.d) > 0.0
      invariant i >= 3 ==> Turn(q.c, q.d, q.a) > 0.0
      invariant i >= 4 ==> Turn(q.d, q.a, q.b) > 0.0
      invariant twice == TwiceTo(q, i)
    {
      var a, b, c := At(q, i), At(q, (i + 1) % 4), At(q, (i + 2) % 4);
      twice := twice + Sweep(a, b);
      if Turn(a, b, c) <= 0.0 {
        return false;
      }
    }
    return twice / 2.0 >= 0.01;
  }

  /** The area the guard compares is that of the two triangles on a diagonal. */
  lemma AreaByTriangles(q: Corners)
    ensures TwiceArea(q) == Turn(q.a, q.b, q.c) + Turn(q.c, q.d, q.a)
  {
    SweepsTurn(q.a, q.b, q.c);
    SweepsTurn(q.c, q.d, q.a);
    hide Turn;
    assert Sweep(q.c, q.a) == 0.0 - Sweep(q.a, q.c);
  }

  lemma SweepsTurn(a: Spot, b: Spot, c: Spot)
    ensures Sweep(a, b) + Sweep(b, c) + Sweep(c, a) == Turn(a, b, c)
  {
  }

  /** An upright rectangle is a face exactly when it covers a hundredth, named from its top
      left on, or from its bottom right. */
  lemma RectangleIsAFace(x: real, y: real, w: real, h: real)
    ensures
      var q := Corners(Spot(x, y), Spot(x + w, y), Spot(x + w, y + h), Spot(x, y + h));
      Face(q) <==> w * h >= 0.01
  {
    var q := Corners(Spot(x, y), Spot(x + w, y), Spot(x + w, y + h), Spot(x, y + h));
    AreaByTriangles(q);
    RightTurn(x, y, w, h);
  }

  lemma RightTurn(x: real, y: real, w: real, h: real)
    ensures Turn(Spot(x, y), Spot(x + w, y), Spot(x + w, y + h)) == w * h
    ensures Turn(Spot(x + w, y), Spot(x + w, y + h), Spot(x, y + h)) == w * h
    ensures Turn(Spot(x + w, y + h), Spot(x, y + h), Spot(x, y)) == w * h
    ensures Turn(Spot(x, y + h), Spot(x, y), Spot(x + w, y)) == w * h
  {
    assert (0.0 - h) * (0.0 - w) == h * w && w * h == h * w;
  }

  ghost function TwiceTo(q: Corners, n: nat): real {
    (if n > 0 then Sweep(q.a, q.b) else 0.0) + (if n > 1 then Sweep(q.b, q.c) else 0.0)
    + (if n > 2 then Sweep(q.c, q.d) else 0.0) + (if n > 3 then Sweep(q.d, q.a) else 0.0)
  }

  /** The same four, named from the one before. */
  function Turned(q: Corners): Corners {
    Corners(q.d, q.a, q.b, q.c)
  }

  /** Renaming the corners keeps the guard's answer, and has order four. */
  lemma TurnedIsStillAFace(q: Corners)
    ensures Face(Turned(q)) <==> Face(q)
    ensures Turned(Turned(Turned(Turned(q)))) == q
  {
    assert TwiceArea(Turned(q)) == TwiceArea(q);
  }

  /** The eight numbers kept, and the corners back from them. */
  function ToCorners(q: Corners): seq<real> {
    [q.a.x, q.a.y, q.b.x, q.b.y, q.c.x, q.c.y, q.d.x, q.d.y]
  }

  function FromCorners(c: seq<real>): Corners
    requires |c| == 8
  {
    Corners(Spot(c[0], c[1]), Spot(c[2], c[3]), Spot(c[4], c[5]), Spot(c[6], c[7]))
  }

  lemma CornersRoundTrip(q: Corners, c: seq<real>)
    requires |c| == 8
    ensures |ToCorners(q)| == 8 && FromCorners(ToCorners(q)) == q
    ensures ToCorners(FromCorners(c)) == c
  {
  }

  // ---------- The projection ----------

  datatype Map = Map(a: real, b: real, c: real, d: real, e: real, f: real, g: real, h: real)

  function InPixels(p: Spot, width: real, height: real): Spot {
    Spot(p.x * width, p.y * height)
  }

  function QuadInPixels(q: Corners, width: real, height: real): Corners {
    Corners(InPixels(q.a, width, height), InPixels(q.b, width, height),
            InPixels(q.c, width, height), InPixels(q.d, width, height))
  }

  /** How far the quad is from a parallelogram. */
  function Gap(p: Corners): Spot {
    Spot(p.a.x - p.b.x + p.c.x - p.d.x, p.a.y - p.b.y + p.c.y - p.d.y)
  }

  function Determinant(u: Spot, v: Spot): real {
    u.x * v.y - v.x * u.y
  }

  function From(p: Spot, o: Spot): Spot {
    Spot(p.x - o.x, p.y - o.y)
  }

  /** Heckbert's map of the unit square to four points; `None` when its system has no
      one solution. */
  function Projection(q: Corners, width: real, height: real): Option<Map> {
    var p := QuadInPixels(q, width, height);
    var d1, d2, d3 := From(p.b, p.c), From(p.d, p.c), Gap(p);
    if d3.x != 0.0 || d3.y != 0.0 then
      var det := Determinant(d1, d2);
      if det == 0.0 then None else Some(Spread(p, Determinant(d3, d2) / det, Determinant(d1, d3) / det))
    else Some(Spread(p, 0.0, 0.0))
  }

  function Spread(p: Corners, g: real, h: real): Map {
    Map(p.b.x - p.a.x + g * p.b.x, p.d.x - p.a.x + h * p.d.x, p.a.x,
        p.b.y - p.a.y + g * p.b.y, p.d.y - p.a.y + h * p.d.y, p.a.y, g, h)
  }

  function Linear(a: real, b: real, c: real, u: real, v: real): real {
    a * u + b * v + c
  }

  function Denominator(m: Map, u: real, v: real): real {
    Linear(m.g, m.h, 1.0, u, v)
  }

  function AcrossPart(m: Map, u: real, v: real): real {
    Linear(m.a, m.b, m.c, u, v)
  }

  function DownPart(m: Map, u: real, v: real): real {
    Linear(m.d, m.e, m.f, u, v)
  }

  function Over(x: real, z: real): real
    requires z != 0.0
  {
    x / z
  }

  /** The image of `(u, v)`; `None` where the denominator is zero. */
  function Project(m: Map, u: real, v: real): Option<Spot> {
    var z := Denominator(m, u, v);
    if z == 0.0 then None else Some(Spot(Over(AcrossPart(m, u, v), z), Over(DownPart(m, u, v), z)))
  }

  // ---------- What the corners' turns say of it ----------

  lemma TurnScales(a: Spot, b: Spot, c: Spot, width: real, height: real)
    ensures Turn(InPixels(a, width, height), InPixels(b, width, height), InPixels(c, width, height))
         == (width * height) * Turn(a, b, c)
  {
    var p, q, r, s := b.x - a.x, c.y - b.y, b.y - a.y, c.x - b.x;
    assert (p * width) * (q * height) == (width * height) * (p * q);
    assert (r * height) * (s * width) == (width * height) * (r * s);
    assert b.x * width - a.x * width == p * width && c.y * height - b.y * height == q * height;
    assert b.y * height - a.y * height == r * height && c.x * width - b.x * width == s * width;
  }

  lemma PositiveProduct(k: real, n: real)
    requires k > 0.0
    ensures n > 0.0 ==> k * n > 0.0
    ensures n >= 0.0 ==> k * n >= 0.0
    ensures k * n == 0.0 ==> n == 0.0
    ensures k * n >= 0.0 ==> n >= 0.0
    ensures k * n > 0.0 ==> n > 0.0
  {
    if n < 0.0 {
      assert k * (-n) > 0.0;
    }
  }

  lemma PixelsTurnClockwise(q: Corners, width: real, height: real)
    requires TurnsClockwise(q) && width > 0.0 && height > 0.0
    ensures TurnsClockwise(QuadInPixels(q, width, height))
  {
    var k := width * height;
    TurnScales(q.a, q.b, q.c, width, height);
    TurnScales(q.b, q.c, q.d, width, height);
    TurnScales(q.c, q.d, q.a, width, height);
    TurnScales(q.d, q.a, q.b, width, height);
    hide Turn;
    PositiveProduct(width, height);
    PositiveProduct(k, Turn(q.a, q.b, q.c));
    PositiveProduct(k, Turn(q.b, q.c, q.d));
    PositiveProduct(k, Turn(q.c, q.d, q.a));
    PositiveProduct(k, Turn(q.d, q.a, q.b));
  }

  /** A turn by the coordinates' products, for comparing turns. */
  lemma Expanded(a: Spot, b: Spot, c: Spot)
    ensures Turn(a, b, c) == a.x * b.y - b.x * a.y + (b.x * c.y - c.x * b.y) + (c.x * a.y - a.x * c.y)
  {
  }

  lemma TurnsBalance(p: Corners)
    ensures Turn(p.a, p.b, p.c) + Turn(p.c, p.d, p.a) == Turn(p.d, p.a, p.b) + Turn(p.b, p.c, p.d)
  {
    Expanded(p.a, p.b, p.c);
    Expanded(p.b, p.c, p.d);
    Expanded(p.c, p.d, p.a);
    Expanded(p.d, p.a, p.b);
    hide Turn;
  }

  /** Four points of the plane, each by the turn at the one across from it, cancel. */
  lemma TurnsCancel(p: Corners)
    ensures Turn(p.b, p.c, p.d) * p.a.x - Turn(p.c, p.d, p.a) * p.b.x
          + Turn(p.d, p.a, p.b) * p.c.x - Turn(p.a, p.b, p.c) * p.d.x == 0.0
    ensures Turn(p.b, p.c, p.d) * p.a.y - Turn(p.c, p.d, p.a) * p.b.y
          + Turn(p.d, p.a, p.b) * p.c.y - Turn(p.a, p.b, p.c) * p.d.y == 0.0
  {
  }

  /** What `g` and `h` are of the turn at the face's far corner. */
  lemma ByTurns(p: Corners, g: real, h: real)
    requires var t := Turn(p.b, p.c, p.d);
      && t * g == Turn(p.c, p.d, p.a) - t
      && t * h == Turn(p.a, p.b, p.c) - t
    ensures var m, t := Spread(p, g, h), Turn(p.b, p.c, p.d);
      && t * m.a == Turn(p.c, p.d, p.a) * p.b.x - t * p.a.x
      && t * m.b == Turn(p.a, p.b, p.c) * p.d.x - t * p.a.x
      && t * m.d == Turn(p.c, p.d, p.a) * p.b.y - t * p.a.y
      && t * m.e == Turn(p.a, p.b, p.c) * p.d.y - t * p.a.y
  {
    var t, m := Turn(p.b, p.c, p.d), Spread(p, g, h);
    hide Turn;
    Stretch(t, g, Turn(p.c, p.d, p.a), p.b.x, p.a.x);
    Stretch(t, h, Turn(p.a, p.b, p.c), p.d.x, p.a.x);
    Stretch(t, g, Turn(p.c, p.d, p.a), p.b.y, p.a.y);
    Stretch(t, h, Turn(p.a, p.b, p.c), p.d.y, p.a.y);
  }

  lemma Stretch(t: real, g: real, s: real, to: real, from: real)
    requires t * g == s - t
    ensures t * (to - from + g * to) == s * to - t * from
  {
    assert t * (g * to) == (t * g) * to;
    assert t * (to - from + g * to) == t * to - t * from + t * (g * to);
  }

  /** The map's determinants are turns of the face. */
  lemma DeterminantsAreTurns(p: Corners)
    ensures Determinant(From(p.b, p.c), From(p.d, p.c)) == -Turn(p.b, p.c, p.d)
    ensures -Determinant(Gap(p), From(p.d, p.c)) == Turn(p.c, p.d, p.a) - Turn(p.b, p.c, p.d)
    ensures -Determinant(From(p.b, p.c), Gap(p)) == Turn(p.a, p.b, p.c) - Turn(p.b, p.c, p.d)
  {
    var d1, d2, d3 := From(p.b, p.c), From(p.d, p.c), Gap(p);
    // With c at the origin: b is d1, d is d2 and a is d1 + d2 + d3.
    assert Turn(p.b, p.c, p.d) == (-d1.x) * d2.y - (-d1.y) * d2.x;
    assert Turn(p.c, p.d, p.a) == d2.x * (d1.y + d3.y) - d2.y * (d1.x + d3.x);
    assert Turn(p.a, p.b, p.c) == (-d2.x - d3.x) * (-d1.y) - (-d2.y - d3.y) * (-d1.x);
  }

  lemma OverTheTurn(t: real, det: real, n: real)
    requires t > 0.0 && det == -t
    ensures t * (n / det) == -n
  {
    assert det * (n / det) == n;
  }

  /** The map of a face, by the turns at the corners. */
  ghost predicate MapByTurns(p: Corners, m: Map) {
    var t := Turn(p.b, p.c, p.d);
    && m == Spread(p, m.g, m.h)
    && t * m.g == Turn(p.c, p.d, p.a) - t
    && t * m.h == Turn(p.a, p.b, p.c) - t
  }

  /** The guard makes the map: the determinant is the far corner's turn, so it is not zero. */
  lemma GuardMakesTheMap(q: Corners, width: real, height: real)
    requires TurnsClockwise(q) && width > 0.0 && height > 0.0
    ensures Projection(q, width, height).Some?
    ensures TurnsClockwise(QuadInPixels(q, width, height))
    ensures MapByTurns(QuadInPixels(q, width, height), Projection(q, width, height).value)
  {
    PixelsTurnClockwise(q, width, height);
    var p := QuadInPixels(q, width, height);
    var t, d1, d2, d3 := Turn(p.b, p.c, p.d), From(p.b, p.c), From(p.d, p.c), Gap(p);
    DeterminantsAreTurns(p);
    var det := Determinant(d1, d2);
    OverTheTurn(t, det, Determinant(d3, d2));
    OverTheTurn(t, det, Determinant(d1, d3));
    if d3 == Spot(0.0, 0.0) {
      assert Determinant(d3, d2) == 0.0 && Determinant(d1, d3) == 0.0;
    }
    hide Turn, Determinant, Spread, QuadInPixels;
  }

  /** What each corner weighs in the image of `(u, v)`: the bilinear weight, times the
      turn at the opposite corner. */
  datatype Weights = Weights(a: real, b: real, c: real, d: real) {
    function Sum(): real { a + b + c + d }

    function Of(a': real, b': real, c': real, d': real): real {
      a * a' + b * b' + c * c' + d * d'
    }
  }

  function WeightsOf(ta: real, tb: real, tc: real, td: real, u: real, v: real): Weights {
    Weights(ta * ((1.0 - u) * (1.0 - v)), tb * (u * (1.0 - v)), tc * (u * v), td * ((1.0 - u) * v))
  }

  function WeightsAt(p: Corners, u: real, v: real): Weights {
    WeightsOf(Turn(p.b, p.c, p.d), Turn(p.c, p.d, p.a), Turn(p.d, p.a, p.b), Turn(p.a, p.b, p.c), u, v)
  }

  predicate OnTheFace(u: real, v: real) {
    0.0 <= u <= 1.0 && 0.0 <= v <= 1.0
  }

  /** `at` is the mean of the corners by these weights, none of them less than nothing. */
  predicate MeanOfCorners(p: Corners, w: Weights, at: Spot) {
    && w.a >= 0.0 && w.b >= 0.0 && w.c >= 0.0 && w.d >= 0.0 && w.Sum() > 0.0
    && w.Sum() * at.x == w.Of(p.a.x, p.b.x, p.c.x, p.d.x)
    && w.Sum() * at.y == w.Of(p.a.y, p.b.y, p.c.y, p.d.y)
  }

  /** A function with no mixed term is the bilinear mean of its values at the corners. */
  lemma Bilinear(ka: real, kb: real, kc: real, kd: real, u: real, v: real)
    requires ka - kb + kc - kd == 0.0
    ensures WeightsOf(ka, kb, kc, kd, u, v).Sum() == (kb - ka) * u + (kd - ka) * v + ka
  {
    var uv := u * v;
    assert ka * ((1.0 - u) * (1.0 - v)) == ka - ka * u - ka * v + ka * uv;
    assert kb * (u * (1.0 - v)) == kb * u - kb * uv;
    assert kd * ((1.0 - u) * v) == kd * v - kd * uv;
    NoTwist(ka, kb, kc, kd, uv);
  }

  lemma NoTwist(ka: real, kb: real, kc: real, kd: real, uv: real)
    requires ka - kb + kc - kd == 0.0
    ensures ka * uv - kb * uv + kc * uv - kd * uv == 0.0
  {
    assert (ka - kb + kc - kd) * uv == ka * uv - kb * uv + kc * uv - kd * uv;
  }

  lemma SumByWeights(ta: real, tb: real, tc: real, td: real, g: real, h: real, u: real, v: real)
    requires ta - tb + tc - td == 0.0
    requires ta * g == tb - ta && ta * h == td - ta
    ensures ta * Linear(g, h, 1.0, u, v) == WeightsOf(ta, tb, tc, td, u, v).Sum()
  {
    hide Linear, WeightsOf, Weights.Sum;
    calc {
      ta * Linear(g, h, 1.0, u, v);
      { Distributes(ta, g, h, 1.0, u, v, tb - ta, td - ta); }
      (tb - ta) * u + (td - ta) * v + ta;
      { Bilinear(ta, tb, tc, td, u, v); }
      WeightsOf(ta, tb, tc, td, u, v).Sum();
    }
  }

  lemma PartByWeights(ta: real, tb: real, tc: real, td: real, pa: real, pb: real, pc: real, pd: real,
                      a: real, b: real, u: real, v: real)
    requires ta * pa - tb * pb + tc * pc - td * pd == 0.0
    requires ta * a == tb * pb - ta * pa && ta * b == td * pd - ta * pa
    ensures ta * Linear(a, b, pa, u, v) == WeightsOf(ta, tb, tc, td, u, v).Of(pa, pb, pc, pd)
  {
    Bilinear(ta * pa, tb * pb, tc * pc, td * pd, u, v);
    WeighedFirst(ta, tb, tc, td, pa, pb, pc, pd, u, v);
    hide WeightsOf, Weights.Sum, Weights.Of, Linear;
    Distributes(ta, a, b, pa, u, v, tb * pb - ta * pa, td * pd - ta * pa);
  }

  lemma Distributes(t: real, a: real, b: real, c: real, u: real, v: real, ta: real, tb: real)
    requires t * a == ta && t * b == tb
    ensures t * Linear(a, b, c, u, v) == ta * u + tb * v + t * c
  {
    Reassociate(t, a, u, ta);
    Reassociate(t, b, v, tb);
  }

  lemma Reassociate(t: real, a: real, u: real, ta: real)
    requires t * a == ta
    ensures t * (a * u) == ta * u
  {
    assert t * (a * u) == (t * a) * u;
  }

  lemma WeighedFirst(ta: real, tb: real, tc: real, td: real, pa: real, pb: real, pc: real, pd: real, u: real, v: real)
    ensures WeightsOf(ta, tb, tc, td, u, v).Of(pa, pb, pc, pd)
         == WeightsOf(ta * pa, tb * pb, tc * pc, td * pd, u, v).Sum()
  {
    Swapped(ta, (1.0 - u) * (1.0 - v), pa);
    Swapped(tb, u * (1.0 - v), pb);
    Swapped(tc, u * v, pc);
    Swapped(td, (1.0 - u) * v, pd);
  }

  lemma Swapped(t: real, k: real, p: real)
    ensures t * k * p == t * p * k
  {
  }

  /** The far corner's turn times the map's three linear parts. */
  lemma PartsByWeights(p: Corners, m: Map, u: real, v: real)
    requires MapByTurns(p, m)
    ensures
      var t, w := Turn(p.b, p.c, p.d), WeightsAt(p, u, v);
      && t * Denominator(m, u, v) == w.Sum()
      && t * AcrossPart(m, u, v) == w.Of(p.a.x, p.b.x, p.c.x, p.d.x)
      && t * DownPart(m, u, v) == w.Of(p.a.y, p.b.y, p.c.y, p.d.y)
  {
    hide Turn, WeightsAt, Denominator, AcrossPart, DownPart, Weights.Sum, Weights.Of, MapByTurns;
    DenominatorByWeights(p, m, u, v);
    AcrossByWeights(p, m, u, v);
    DownByWeights(p, m, u, v);
  }

  lemma DenominatorByWeights(p: Corners, m: Map, u: real, v: real)
    requires MapByTurns(p, m)
    ensures Turn(p.b, p.c, p.d) * Denominator(m, u, v) == WeightsAt(p, u, v).Sum()
  {
    TurnsBalance(p);
    hide Turn, WeightsOf, Spread, Weights.Sum, Linear;
    SumByWeights(Turn(p.b, p.c, p.d), Turn(p.c, p.d, p.a), Turn(p.d, p.a, p.b), Turn(p.a, p.b, p.c), m.g, m.h, u, v);
  }

  lemma AcrossByWeights(p: Corners, m: Map, u: real, v: real)
    requires MapByTurns(p, m)
    ensures Turn(p.b, p.c, p.d) * AcrossPart(m, u, v) == WeightsAt(p, u, v).Of(p.a.x, p.b.x, p.c.x, p.d.x)
  {
    hide Turn, WeightsOf, Spread, Weights.Of, Linear;
    TurnsCancel(p);
    ByTurns(p, m.g, m.h);
    SpreadStart(p, m.g, m.h);
    PartByWeights(Turn(p.b, p.c, p.d), Turn(p.c, p.d, p.a), Turn(p.d, p.a, p.b), Turn(p.a, p.b, p.c),
                  p.a.x, p.b.x, p.c.x, p.d.x, m.a, m.b, u, v);
  }

  lemma DownByWeights(p: Corners, m: Map, u: real, v: real)
    requires MapByTurns(p, m)
    ensures Turn(p.b, p.c, p.d) * DownPart(m, u, v) == WeightsAt(p, u, v).Of(p.a.y, p.b.y, p.c.y, p.d.y)
  {
    hide Turn, WeightsOf, Spread, Weights.Of, Linear;
    TurnsCancel(p);
    ByTurns(p, m.g, m.h);
    SpreadStart(p, m.g, m.h);
    PartByWeights(Turn(p.b, p.c, p.d), Turn(p.c, p.d, p.a), Turn(p.d, p.a, p.b), Turn(p.a, p.b, p.c),
                  p.a.y, p.b.y, p.c.y, p.d.y, m.d, m.e, u, v);
  }

  lemma SpreadStart(p: Corners, g: real, h: real)
    ensures Spread(p, g, h).c == p.a.x && Spread(p, g, h).f == p.a.y
  {
  }

  lemma Divides(t: real, z: real, x: real)
    requires z > 0.0
    ensures (t * z) * (x / z) == t * x
  {
    assert z * (x / z) == x;
    assert (t * z) * (x / z) == t * (z * (x / z));
  }

  lemma MeanFromParts(p: Corners, w: Weights, t: real, z: real, x: real, y: real)
    requires t > 0.0 && w.a >= 0.0 && w.b >= 0.0 && w.c >= 0.0 && w.d >= 0.0 && w.Sum() > 0.0
    requires t * z == w.Sum()
    requires t * x == w.Of(p.a.x, p.b.x, p.c.x, p.d.x) && t * y == w.Of(p.a.y, p.b.y, p.c.y, p.d.y)
    ensures z > 0.0 && MeanOfCorners(p, w, Spot(Over(x, z), Over(y, z)))
  {
    PositiveProduct(t, z);
    Divides(t, z, x);
    Divides(t, z, y);
  }

  /** For every face and every point of it, the map does not divide by zero, and
      gives a mean of the face's corners in the photograph. */
  lemma ProjectsOntoTheFace(q: Corners, width: real, height: real, u: real, v: real)
    requires TurnsClockwise(q) && width > 0.0 && height > 0.0 && OnTheFace(u, v)
    ensures Projection(q, width, height).Some?
    ensures
      var p, m := QuadInPixels(q, width, height), Projection(q, width, height).value;
      && Denominator(m, u, v) > 0.0
      && Project(m, u, v).Some?
      && MeanOfCorners(p, WeightsAt(p, u, v), Project(m, u, v).value)
  {
    hide Turn, Projection, WeightsAt, QuadInPixels, Denominator, AcrossPart, DownPart, Over, MapByTurns;
    GuardMakesTheMap(q, width, height);
    var p, m := QuadInPixels(q, width, height), Projection(q, width, height).value;
    PartsByWeights(p, m, u, v);
    WeightsPositive(p, u, v);
    MeanFromParts(p, WeightsAt(p, u, v), Turn(p.b, p.c, p.d), Denominator(m, u, v),
                  AcrossPart(m, u, v), DownPart(m, u, v));
  }

  lemma SharesAdd(u: real, v: real)
    requires OnTheFace(u, v)
    ensures (1.0 - u) * (1.0 - v) >= 0.0 && u * (1.0 - v) >= 0.0 && u * v >= 0.0 && (1.0 - u) * v >= 0.0
    ensures (1.0 - u) * (1.0 - v) + u * (1.0 - v) + u * v + (1.0 - u) * v == 1.0
  {
    NotNegative(1.0 - u, 1.0 - v);
    NotNegative(u, 1.0 - v);
    NotNegative(u, v);
    NotNegative(1.0 - u, v);
  }

  lemma NotNegative(k: real, n: real)
    requires k >= 0.0 && n >= 0.0
    ensures k * n >= 0.0
  {
  }

  lemma WeightsPositive(p: Corners, u: real, v: real)
    requires TurnsClockwise(p) && OnTheFace(u, v)
    ensures var w := WeightsAt(p, u, v);
      w.a >= 0.0 && w.b >= 0.0 && w.c >= 0.0 && w.d >= 0.0 && w.Sum() > 0.0
  {
    hide Turn;
    SharesAdd(u, v);
    ShareOut(Turn(p.b, p.c, p.d), Turn(p.c, p.d, p.a), Turn(p.d, p.a, p.b), Turn(p.a, p.b, p.c),
             (1.0 - u) * (1.0 - v), u * (1.0 - v), u * v, (1.0 - u) * v);
  }

  lemma ShareOut(ta: real, tb: real, tc: real, td: real, k: real, l: real, m: real, n: real)
    requires ta > 0.0 && tb > 0.0 && tc > 0.0 && td > 0.0
    requires k >= 0.0 && l >= 0.0 && m >= 0.0 && n >= 0.0 && k + l + m + n > 0.0
    ensures ta * k >= 0.0 && tb * l >= 0.0 && tc * m >= 0.0 && td * n >= 0.0
    ensures ta * k + tb * l + tc * m + td * n > 0.0
  {
    PositiveProduct(ta, k);
    PositiveProduct(tb, l);
    PositiveProduct(tc, m);
    PositiveProduct(td, n);
  }

  // ---------- The corners, the inside, straight lines, and no two places read as one ----------

  lemma AllOnOne(s: real, x: real, px: real, w: real)
    requires s > 0.0 && w == s && s * x == w * px
    ensures x == px
  {
    PositiveProduct(s, x - px);
    assert s * (x - px) == 0.0;
  }

  lemma TopCorners(ta: real, tb: real, tc: real, td: real)
    ensures WeightsOf(ta, tb, tc, td, 0.0, 0.0) == Weights(ta, 0.0, 0.0, 0.0)
    ensures WeightsOf(ta, tb, tc, td, 1.0, 0.0) == Weights(0.0, tb, 0.0, 0.0)
    ensures WeightsOf(ta, tb, tc, td, 1.0, 1.0) == Weights(0.0, 0.0, tc, 0.0)
    ensures WeightsOf(ta, tb, tc, td, 0.0, 1.0) == Weights(0.0, 0.0, 0.0, td)
  {
  }

  lemma MeanOfOne(p: Corners, w: Weights, at: Spot)
    requires MeanOfCorners(p, w, at)
    ensures w.b == 0.0 && w.c == 0.0 && w.d == 0.0 ==> at == p.a
    ensures w.a == 0.0 && w.c == 0.0 && w.d == 0.0 ==> at == p.b
    ensures w.a == 0.0 && w.b == 0.0 && w.d == 0.0 ==> at == p.c
    ensures w.a == 0.0 && w.b == 0.0 && w.c == 0.0 ==> at == p.d
  {
    if w.b == 0.0 && w.c == 0.0 && w.d == 0.0 {
      AllOnOne(w.Sum(), at.x, p.a.x, w.a);
      AllOnOne(w.Sum(), at.y, p.a.y, w.a);
    }
    if w.a == 0.0 && w.c == 0.0 && w.d == 0.0 {
      AllOnOne(w.Sum(), at.x, p.b.x, w.b);
      AllOnOne(w.Sum(), at.y, p.b.y, w.b);
    }
    if w.a == 0.0 && w.b == 0.0 && w.d == 0.0 {
      AllOnOne(w.Sum(), at.x, p.c.x, w.c);
      AllOnOne(w.Sum(), at.y, p.c.y, w.c);
    }
    if w.a == 0.0 && w.b == 0.0 && w.c == 0.0 {
      AllOnOne(w.Sum(), at.x, p.d.x, w.d);
      AllOnOne(w.Sum(), at.y, p.d.y, w.d);
    }
  }

  /** The map takes (0,0), (1,0), (1,1) and (0,1) to `a`, `b`, `c` and `d`. */
  lemma CornersOnCorners(q: Corners, width: real, height: real)
    requires TurnsClockwise(q) && width > 0.0 && height > 0.0
    ensures Projection(q, width, height).Some?
    ensures
      var p, m := QuadInPixels(q, width, height), Projection(q, width, height).value;
      && Project(m, 0.0, 0.0) == Some(p.a) && Project(m, 1.0, 0.0) == Some(p.b)
      && Project(m, 1.0, 1.0) == Some(p.c) && Project(m, 0.0, 1.0) == Some(p.d)
  {
    hide Projection, QuadInPixels, MeanOfCorners, WeightsOf, Turn, Denominator, TurnsClockwise;
    var p := QuadInPixels(q, width, height);
    ProjectsOntoTheFace(q, width, height, 0.0, 0.0);
    ProjectsOntoTheFace(q, width, height, 1.0, 0.0);
    ProjectsOntoTheFace(q, width, height, 1.0, 1.0);
    ProjectsOntoTheFace(q, width, height, 0.0, 1.0);
    var m := Projection(q, width, height).value;
    TopCorners(Turn(p.b, p.c, p.d), Turn(p.c, p.d, p.a), Turn(p.d, p.a, p.b), Turn(p.a, p.b, p.c));
    MeanOfOne(p, WeightsAt(p, 0.0, 0.0), Project(m, 0.0, 0.0).value);
    MeanOfOne(p, WeightsAt(p, 1.0, 0.0), Project(m, 1.0, 0.0).value);
    MeanOfOne(p, WeightsAt(p, 1.0, 1.0), Project(m, 1.0, 1.0).value);
    MeanOfOne(p, WeightsAt(p, 0.0, 1.0), Project(m, 0.0, 1.0).value);
  }

  /** On the inner side of all four edges. */
  predicate InsideEdges(p: Corners, at: Spot) {
    Turn(p.a, p.b, at) >= 0.0 && Turn(p.b, p.c, at) >= 0.0 && Turn(p.c, p.d, at) >= 0.0 && Turn(p.d, p.a, at) >= 0.0
  }

  lemma TurnIsAffine(o: Spot, e: Spot, at: Spot, m: real, n: real, k: real)
    requires m == e.x - o.x && n == e.y - o.y && k == n * e.x - m * e.y
    ensures Turn(o, e, at) == m * at.y - n * at.x + k
  {
  }

  lemma Weighed(w: real, m: real, n: real, k: real, x: real, y: real)
    ensures w * (m * y - n * x + k) == m * (w * y) - n * (w * x) + k * w
  {
  }

  lemma SumOut(m: real, a: real, b: real, c: real, d: real)
    ensures m * (a + b + c + d) == m * a + m * b + m * c + m * d
  {
  }

  /** An edge sees a mean of the corners as the same mean of what it sees of each. */
  lemma EdgeOfMean(o: Spot, e: Spot, p: Corners, w: Weights, at: Spot)
    requires MeanOfCorners(p, w, at)
    ensures w.Sum() * Turn(o, e, at)
         == w.Of(Turn(o, e, p.a), Turn(o, e, p.b), Turn(o, e, p.c), Turn(o, e, p.d))
  {
    var m, n := e.x - o.x, e.y - o.y;
    var k := n * e.x - m * e.y;
    TurnIsAffine(o, e, at, m, n, k);
    TurnIsAffine(o, e, p.a, m, n, k);
    TurnIsAffine(o, e, p.b, m, n, k);
    TurnIsAffine(o, e, p.c, m, n, k);
    TurnIsAffine(o, e, p.d, m, n, k);
    hide Turn;
    OfLine(w, m, n, k, p);
    Weighed(w.Sum(), m, n, k, at.x, at.y);
  }

  lemma OfLine(w: Weights, m: real, n: real, k: real, p: Corners)
    ensures w.Of(m * p.a.y - n * p.a.x + k, m * p.b.y - n * p.b.x + k, m * p.c.y - n * p.c.x + k,
                 m * p.d.y - n * p.d.x + k)
         == m * w.Of(p.a.y, p.b.y, p.c.y, p.d.y) - n * w.Of(p.a.x, p.b.x, p.c.x, p.d.x) + k * w.Sum()
  {
    Weighed(w.a, m, n, k, p.a.x, p.a.y);
    Weighed(w.b, m, n, k, p.b.x, p.b.y);
    Weighed(w.c, m, n, k, p.c.x, p.c.y);
    Weighed(w.d, m, n, k, p.d.x, p.d.y);
    SumOut(m, w.a * p.a.y, w.b * p.b.y, w.c * p.c.y, w.d * p.d.y);
    SumOut(n, w.a * p.a.x, w.b * p.b.x, w.c * p.c.x, w.d * p.d.x);
    SumOut(k, w.a, w.b, w.c, w.d);
  }

  lemma EdgeKeepsMeans(o: Spot, e: Spot, p: Corners, w: Weights, at: Spot)
    requires MeanOfCorners(p, w, at)
    requires Turn(o, e, p.a) >= 0.0 && Turn(o, e, p.b) >= 0.0 && Turn(o, e, p.c) >= 0.0 && Turn(o, e, p.d) >= 0.0
    ensures Turn(o, e, at) >= 0.0
  {
    EdgeOfMean(o, e, p, w, at);
    hide Turn;
    NotNegative(w.a, Turn(o, e, p.a));
    NotNegative(w.b, Turn(o, e, p.b));
    NotNegative(w.c, Turn(o, e, p.c));
    NotNegative(w.d, Turn(o, e, p.d));
    PositiveProduct(w.Sum(), Turn(o, e, at));
  }

  lemma EdgesSeeCorners(p: Corners)
    requires TurnsClockwise(p)
    ensures InsideEdges(p, p.a) && InsideEdges(p, p.b) && InsideEdges(p, p.c) && InsideEdges(p, p.d)
  {
    TurnRound(p.a, p.b, p.c);
    TurnRound(p.b, p.c, p.d);
    TurnRound(p.c, p.d, p.a);
    TurnRound(p.d, p.a, p.b);
    hide Turn;
  }

  lemma TurnRound(a: Spot, b: Spot, c: Spot)
    ensures Turn(a, b, c) == Turn(b, c, a) && Turn(a, b, a) == 0.0 && Turn(a, b, b) == 0.0
  {
    Expanded(a, b, c);
    Expanded(b, c, a);
  }

  /** The image of the unit square is on the inner side of all four edges. */
  lemma StaysInside(q: Corners, width: real, height: real, u: real, v: real)
    requires TurnsClockwise(q) && width > 0.0 && height > 0.0 && OnTheFace(u, v)
    ensures Projection(q, width, height).Some? && Project(Projection(q, width, height).value, u, v).Some?
    ensures InsideEdges(QuadInPixels(q, width, height), Project(Projection(q, width, height).value, u, v).value)
  {
    hide Turn, Projection, QuadInPixels, MeanOfCorners, WeightsAt, Denominator, TurnsClockwise;
    ProjectsOntoTheFace(q, width, height, u, v);
    PixelsTurnClockwise(q, width, height);
    var p, w := QuadInPixels(q, width, height), WeightsAt(QuadInPixels(q, width, height), u, v);
    var at := Project(Projection(q, width, height).value, u, v).value;
    EdgesSeeCorners(p);
    EdgeKeepsMeans(p.a, p.b, p, w, at);
    EdgeKeepsMeans(p.b, p.c, p, w, at);
    EdgeKeepsMeans(p.c, p.d, p, w, at);
    EdgeKeepsMeans(p.d, p.a, p, w, at);
  }

  /** `s` of the way from `a` to `b`. */
  function Mix(a: real, b: real, s: real): real {
    (1.0 - s) * a + s * b
  }

  function Along(a: Spot, b: Spot, s: real): Spot {
    Spot(Mix(a.x, b.x, s), Mix(a.y, b.y, s))
  }

  /** How far along the line in the photograph a point `s` along the face's line falls. */
  function Foreshortened(z1: real, z2: real, s: real): real
    requires Mix(z1, z2, s) != 0.0
  {
    Over(s * z2, Mix(z1, z2, s))
  }

  lemma MixPositive(z1: real, z2: real, s: real)
    requires z1 > 0.0 && z2 > 0.0 && 0.0 <= s <= 1.0
    ensures Mix(z1, z2, s) > 0.0
  {
    NotNegative(1.0 - s, z1);
    NotNegative(s, z2);
    if s == 1.0 {
      PositiveProduct(s, z2);
    } else {
      PositiveProduct(1.0 - s, z1);
    }
  }

  lemma ForeshortenedIsAPart(z1: real, z2: real, s: real)
    requires z1 > 0.0 && z2 > 0.0 && 0.0 <= s <= 1.0
    ensures Mix(z1, z2, s) > 0.0
    ensures
      var z, k := Mix(z1, z2, s), Foreshortened(z1, z2, s);
      0.0 <= k <= 1.0 && k * z == s * z2 && z * (1.0 - k) == (1.0 - s) * z1
  {
    MixPositive(z1, z2, s);
    NotNegative(1.0 - s, z1);
    NotNegative(s, z2);
    var z := Mix(z1, z2, s);
    var k := s * z2 / z;
    assert k * z == s * z2;
    assert z * (1.0 - k) == z - k * z;
    PositiveProduct(z, k);
    PositiveProduct(z, 1.0 - k);
  }

  lemma PartAlong(x1: real, z1: real, x2: real, z2: real, s: real)
    requires z1 > 0.0 && z2 > 0.0 && 0.0 <= s <= 1.0
    ensures Mix(z1, z2, s) > 0.0
    ensures Over(Mix(x1, x2, s), Mix(z1, z2, s)) == Mix(Over(x1, z1), Over(x2, z2), Foreshortened(z1, z2, s))
  {
    ForeshortenedIsAPart(z1, z2, s);
    var a, b := x1 / z1, x2 / z2;
    assert a * z1 == x1 && b * z2 == x2;
    SamePart(s, Foreshortened(z1, z2, s), Mix(z1, z2, s), z1, z2, a, b);
    hide Foreshortened;
  }

  lemma SamePart(s: real, k: real, z: real, z1: real, z2: real, a: real, b: real)
    requires z > 0.0 && k * z == s * z2 && z * (1.0 - k) == (1.0 - s) * z1
    ensures Over(Mix(a * z1, b * z2, s), z) == Mix(a, b, k)
  {
    var n := Mix(a * z1, b * z2, s);
    assert n == ((1.0 - s) * z1) * a + (s * z2) * b;
    assert n == (z * (1.0 - k)) * a + (k * z) * b;
    assert n == z * Mix(a, b, k);
  }

  /** A segment over which the denominator is positive goes onto a segment, monotonically. */
  lemma StraightStaysStraight(m: Map, p: Spot, r: Spot, s: real)
    requires Denominator(m, p.x, p.y) > 0.0 && Denominator(m, r.x, r.y) > 0.0 && 0.0 <= s <= 1.0
    ensures
      var on := Along(p, r, s);
      var z1, z2 := Denominator(m, p.x, p.y), Denominator(m, r.x, r.y);
      && Denominator(m, on.x, on.y) == Mix(z1, z2, s) > 0.0
      && 0.0 <= Foreshortened(z1, z2, s) <= 1.0
      && Project(m, p.x, p.y).Some? && Project(m, r.x, r.y).Some?
      && Project(m, on.x, on.y)
         == Some(Along(Project(m, p.x, p.y).value, Project(m, r.x, r.y).value, Foreshortened(z1, z2, s)))
  {
    var z1, z2 := Denominator(m, p.x, p.y), Denominator(m, r.x, r.y);
    hide Denominator, AcrossPart, DownPart, Over, Mix, Foreshortened;
    PartsOn(m, p, r, s);
    ForeshortenedIsAPart(z1, z2, s);
    PartAlong(AcrossPart(m, p.x, p.y), z1, AcrossPart(m, r.x, r.y), z2, s);
    PartAlong(DownPart(m, p.x, p.y), z1, DownPart(m, r.x, r.y), z2, s);
  }

  lemma PartsOn(m: Map, p: Spot, r: Spot, s: real)
    ensures
      var on := Along(p, r, s);
      && Denominator(m, on.x, on.y) == Mix(Denominator(m, p.x, p.y), Denominator(m, r.x, r.y), s)
      && AcrossPart(m, on.x, on.y) == Mix(AcrossPart(m, p.x, p.y), AcrossPart(m, r.x, r.y), s)
      && DownPart(m, on.x, on.y) == Mix(DownPart(m, p.x, p.y), DownPart(m, r.x, r.y), s)
  {
    hide Mix, Linear;
    PartOn(m.g, m.h, 1.0, p, r, s);
    PartOn(m.a, m.b, m.c, p, r, s);
    PartOn(m.d, m.e, m.f, p, r, s);
  }

  lemma PartOn(a: real, b: real, c: real, p: Spot, r: Spot, s: real)
    ensures var on := Along(p, r, s);
      Linear(a, b, c, on.x, on.y) == Mix(Linear(a, b, c, p.x, p.y), Linear(a, b, c, r.x, r.y), s)
  {
  }

  lemma SameRatio(x1: real, z1: real, x2: real, z2: real)
    requires z1 > 0.0 && z2 > 0.0 && Over(x1, z1) == Over(x2, z2)
    ensures z2 * x1 - z1 * x2 == 0.0
  {
    var r := x1 / z1;
    assert x1 == r * z1 && x2 == r * z2;
    assert z2 * (r * z1) == z1 * (r * z2);
  }

  lemma LinearCombines(a: real, b: real, c: real, p: Spot, r: Spot, z1: real, z2: real)
    ensures z2 * Linear(a, b, c, p.x, p.y) - z1 * Linear(a, b, c, r.x, r.y)
         == a * (z2 * p.x - z1 * r.x) + b * (z2 * p.y - z1 * r.y) + c * (z2 - z1)
  {
  }

  predicate Gone(a: real, b: real, c: real, k1: real, k2: real, k3: real) {
    a * k1 + b * k2 + c * k3 == 0.0
  }

  predicate Cancel(g: real, h: real, k1: real, k2: real, u: real, v: real) {
    (g * k1) * u + (h * k2) * v == 0.0
  }

  predicate Apart(u: Spot, v: Spot) {
    u.x * v.y - u.y * v.x > 0.0
  }

  /** With the last part taken out, what is left is along the face's two edges from its first corner. */
  lemma AlongTheEdges(p: real, q: real, u: real, v: real, to: real, across: real, from: real, g: real, h: real,
                      k1: real, k2: real, k3: real)
    requires u == to - from && v == across - from
    requires p == u + g * to && q == v + h * across
    requires Gone(p, q, from, k1, k2, k3) && Gone(g, h, 1.0, k1, k2, k3)
    ensures Cancel(1.0 + g, 1.0 + h, k1, k2, u, v)
  {
    assert k3 == -(g * k1) - h * k2;
    assert from * k3 == -(from * (g * k1)) - from * (h * k2);
    assert (to - from + g * to) * k1 == to * k1 - from * k1 + to * (g * k1);
    assert (across - from + h * across) * k2 == across * k2 - from * k2 + across * (h * k2);
    var gk, hk := g * k1, h * k2;
    assert ((1.0 + g) * k1) == k1 + gk && ((1.0 + h) * k2) == k2 + hk;
    assert (k1 + gk) * (to - from) == to * k1 - from * k1 + to * gk - from * gk;
    assert (k2 + hk) * (across - from) == across * k2 - from * k2 + across * hk - from * hk;
  }

  /** Two directions that turn are independent. */
  lemma Independent(j: real, k: real, ux: real, uy: real, vx: real, vy: real)
    requires j * ux + k * vx == 0.0 && j * uy + k * vy == 0.0
    requires ux * vy - uy * vx > 0.0
    ensures j == 0.0 && k == 0.0
  {
    var d := ux * vy - uy * vx;
    assert d * j == 0.0 by {
      assert (j * ux + k * vx) * vy - (j * uy + k * vy) * vx == d * j;
    }
    assert d * k == 0.0 by {
      assert (j * uy + k * vy) * ux - (j * ux + k * vx) * uy == d * k;
    }
    PositiveProduct(d, j);
    PositiveProduct(d, k);
  }

  lemma GrowthPositive(t: real, g: real, s: real)
    requires t > 0.0 && s > 0.0 && t * g == s - t
    ensures 1.0 + g > 0.0
  {
    assert t * (1.0 + g) == s;
    PositiveProduct(t, 1.0 + g);
  }

  lemma OnlyZero(k: real, n: real)
    requires k > 0.0 && k * n == 0.0
    ensures n == 0.0
  {
    PositiveProduct(k, n);
  }

  /** The map is one to one on the unit square. */
  lemma NoTwoReadAsOne(q: Corners, width: real, height: real, p: Spot, r: Spot)
    requires TurnsClockwise(q) && width > 0.0 && height > 0.0 && OnTheFace(p.x, p.y) && OnTheFace(r.x, r.y)
    requires Projection(q, width, height).Some?
    requires var m := Projection(q, width, height).value;
      Project(m, p.x, p.y) == Project(m, r.x, r.y)
    ensures p == r
  {
    hide Projection, QuadInPixels, Linear, Over, Turn, MeanOfCorners, WeightsAt;
    ProjectsOntoTheFace(q, width, height, p.x, p.y);
    ProjectsOntoTheFace(q, width, height, r.x, r.y);
    GuardMakesTheMap(q, width, height);
    var f, m := QuadInPixels(q, width, height), Projection(q, width, height).value;
    var z1, z2 := Denominator(m, p.x, p.y), Denominator(m, r.x, r.y);
    SameRatio(AcrossPart(m, p.x, p.y), z1, AcrossPart(m, r.x, r.y), z2);
    SameRatio(DownPart(m, p.x, p.y), z1, DownPart(m, r.x, r.y), z2);
    OneFromOne(f, m, p, r);
  }

  lemma OneFromOne(f: Corners, m: Map, p: Spot, r: Spot)
    requires TurnsClockwise(f) && MapByTurns(f, m)
    requires Denominator(m, p.x, p.y) > 0.0 && Denominator(m, r.x, r.y) > 0.0
    requires var z1, z2 := Denominator(m, p.x, p.y), Denominator(m, r.x, r.y);
      && z2 * AcrossPart(m, p.x, p.y) - z1 * AcrossPart(m, r.x, r.y) == 0.0
      && z2 * DownPart(m, p.x, p.y) - z1 * DownPart(m, r.x, r.y) == 0.0
    ensures p == r
  {
    hide Linear, MapByTurns, TurnsClockwise;
    var z1, z2 := Denominator(m, p.x, p.y), Denominator(m, r.x, r.y);
    var k1, k2, k3 := z2 * p.x - z1 * r.x, z2 * p.y - z1 * r.y, z2 - z1;
    Commutes(z1, z2);
    Vanishes(m.a, m.b, m.c, p, r, z1, z2);
    Vanishes(m.d, m.e, m.f, p, r, z1, z2);
    Vanishes(m.g, m.h, 1.0, p, r, z1, z2);
    NoPartLeft(f, m, k1, k2, k3);
    SameSpot(m.g, m.h, k1, k2, k3, z1, z2, p, r);
  }

  lemma Vanishes(a: real, b: real, c: real, p: Spot, r: Spot, z1: real, z2: real)
    requires z2 * Linear(a, b, c, p.x, p.y) - z1 * Linear(a, b, c, r.x, r.y) == 0.0
    ensures Gone(a, b, c, z2 * p.x - z1 * r.x, z2 * p.y - z1 * r.y, z2 - z1)
  {
    LinearCombines(a, b, c, p, r, z1, z2);
  }

  /** The map's three parts vanish together only at nothing. */
  lemma NoPartLeft(f: Corners, m: Map, k1: real, k2: real, k3: real)
    requires TurnsClockwise(f) && MapByTurns(f, m)
    requires Gone(m.a, m.b, m.c, k1, k2, k3) && Gone(m.d, m.e, m.f, k1, k2, k3) && Gone(m.g, m.h, 1.0, k1, k2, k3)
    ensures k1 == 0.0 && k2 == 0.0
  {
    SpreadParts(f, m.g, m.h);
    EdgesOf(f);
    hide Turn, Spread;
    GrowthPositive(Turn(f.b, f.c, f.d), m.g, Turn(f.c, f.d, f.a));
    GrowthPositive(Turn(f.b, f.c, f.d), m.h, Turn(f.a, f.b, f.c));
    var u, v := Spot(f.b.x - f.a.x, f.b.y - f.a.y), Spot(f.d.x - f.a.x, f.d.y - f.a.y);
    BothVanish(m, f.a, f.b, f.d, u, v, k1, k2, k3);
  }

  lemma SpreadParts(p: Corners, g: real, h: real)
    ensures PartsFrom(Spread(p, g, h), p.a, p.b, p.d)
  {
  }

  ghost predicate PartsFrom(m: Map, a: Spot, b: Spot, d: Spot) {
    && m.a == b.x - a.x + m.g * b.x && m.b == d.x - a.x + m.h * d.x && m.c == a.x
    && m.d == b.y - a.y + m.g * b.y && m.e == d.y - a.y + m.h * d.y && m.f == a.y
  }

  lemma BothVanish(m: Map, a: Spot, b: Spot, d: Spot, u: Spot, v: Spot, k1: real, k2: real, k3: real)
    requires PartsFrom(m, a, b, d) && 1.0 + m.g > 0.0 && 1.0 + m.h > 0.0
    requires u == Spot(b.x - a.x, b.y - a.y) && v == Spot(d.x - a.x, d.y - a.y)
    requires Apart(u, v)
    requires Gone(m.a, m.b, m.c, k1, k2, k3) && Gone(m.d, m.e, m.f, k1, k2, k3) && Gone(m.g, m.h, 1.0, k1, k2, k3)
    ensures k1 == 0.0 && k2 == 0.0
  {
    hide Gone, Cancel, Apart;
    AlongTheEdges(m.a, m.b, u.x, v.x, b.x, d.x, a.x, m.g, m.h, k1, k2, k3);
    AlongTheEdges(m.d, m.e, u.y, v.y, b.y, d.y, a.y, m.g, m.h, k1, k2, k3);
    OnlyZeroes(1.0 + m.g, 1.0 + m.h, k1, k2, u, v);
  }

  lemma OnlyZeroes(g: real, h: real, k1: real, k2: real, u: Spot, v: Spot)
    requires g > 0.0 && h > 0.0 && Apart(u, v)
    requires Cancel(g, h, k1, k2, u.x, v.x) && Cancel(g, h, k1, k2, u.y, v.y)
    ensures k1 == 0.0 && k2 == 0.0
  {
    Independent(g * k1, h * k2, u.x, u.y, v.x, v.y);
    OnlyZero(g, k1);
    OnlyZero(h, k2);
  }

  lemma Commutes(a: real, b: real)
    ensures a * b == b * a
  {
  }

  lemma EdgesOf(f: Corners)
    ensures Turn(f.d, f.a, f.b) == (f.b.x - f.a.x) * (f.d.y - f.a.y) - (f.b.y - f.a.y) * (f.d.x - f.a.x)
  {
    Expanded(f.d, f.a, f.b);
  }

  lemma SameSpot(g: real, h: real, k1: real, k2: real, k3: real, z1: real, z2: real, p: Spot, r: Spot)
    requires k1 == 0.0 && k2 == 0.0 && g * k1 + h * k2 + 1.0 * k3 == 0.0 && z1 > 0.0
    requires k1 == z2 * p.x - z1 * r.x && k2 == z2 * p.y - z1 * r.y && k3 == z2 - z1
    ensures p == r
  {
    assert z2 == z1;
    assert z1 * (p.x - r.x) == 0.0 && z1 * (p.y - r.y) == 0.0;
    OnlyZero(z1, p.x - r.x);
    OnlyZero(z1, p.y - r.y);
  }
}
