/** The projection reaches the whole face: the inverse of what `Cut` proves of it. */
module Onto {
  import opened Cut
  import opened Options

  // ---------- The face's turns, by determinants from its first corner ----------

  lemma Bilinear3(u: Spot, c: Spot, w: Spot, v: Spot)
    ensures Determinant(u, c) * (w.x * v.y) == u.x * c.y * w.x * v.y - c.x * u.y * w.x * v.y
    ensures Determinant(u, c) * (v.x * w.y) == u.x * c.y * v.x * w.y - c.x * u.y * v.x * w.y
  {
  }

  /** Plücker's relation for four directions in the plane. */
  lemma FourDirections(u: Spot, c: Spot, w: Spot, v: Spot)
    ensures Determinant(u, c) * Determinant(w, v) - Determinant(u, w) * Determinant(c, v)
          + Determinant(u, v) * Determinant(c, w) == 0.0
  {
    Bilinear3(u, c, w, v);
    Bilinear3(u, w, c, v);
    Bilinear3(u, v, c, w);
    assert Determinant(w, v) == w.x * v.y - v.x * w.y;
    assert Determinant(c, v) == c.x * v.y - v.x * c.y;
    assert Determinant(c, w) == c.x * w.y - w.x * c.y;
  }

  lemma TurnFrom(o: Spot, a: Spot, b: Spot, c: Spot)
    ensures Turn(a, b, c)
         == Determinant(From(a, o), From(b, o)) + Determinant(From(b, o), From(c, o))
            + Determinant(From(c, o), From(a, o))
  {
  }

  lemma Exchanged(u: Spot, v: Spot)
    ensures Determinant(u, v) == -Determinant(v, u)
  {
  }

  lemma NoDirection(o: Spot, v: Spot)
    ensures Determinant(From(o, o), v) == 0.0 && Determinant(v, From(o, o)) == 0.0
  {
  }

  lemma FromTheFirst(p: Corners, at: Spot)
    ensures
      var u, c, v, w := From(p.b, p.a), From(p.c, p.a), From(p.d, p.a), From(at, p.a);
      && Turn(p.a, p.b, p.c) == Determinant(u, c)
      && Turn(p.d, p.a, p.b) == Determinant(u, v)
      && Turn(p.c, p.d, p.a) == Determinant(c, v)
      && Turn(p.b, p.c, p.d) == Determinant(c, v) - Determinant(u, v) + Determinant(u, c)
      && Turn(p.d, p.a, at) == Determinant(w, v)
      && Turn(p.a, p.b, at) == Determinant(u, w)
      && Turn(p.b, p.c, at) == Determinant(c, w) - Determinant(u, w) + Determinant(u, c)
      && Turn(p.c, p.d, at) == Determinant(c, v) - Determinant(w, v) - Determinant(c, w)
  {
    var u, c, v, w := From(p.b, p.a), From(p.c, p.a), From(p.d, p.a), From(at, p.a);
    TurnFrom(p.a, p.a, p.b, p.c);
    TurnFrom(p.a, p.d, p.a, p.b);
    TurnFrom(p.a, p.c, p.d, p.a);
    TurnFrom(p.a, p.b, p.c, p.d);
    TurnFrom(p.a, p.d, p.a, at);
    TurnFrom(p.a, p.a, p.b, at);
    TurnFrom(p.a, p.b, p.c, at);
    TurnFrom(p.a, p.c, p.d, at);
    NoDirection(p.a, u);
    NoDirection(p.a, c);
    NoDirection(p.a, v);
    NoDirection(p.a, w);
    Exchanged(v, u);
    Exchanged(w, u);
    Exchanged(v, w);
    Exchanged(w, c);
    hide Turn, Determinant, From;
  }

  /** What a point is from the edges it is to be found between: `x` and `y` its turns at
      the first two, `x3` and `y3` at the ones across from them. */
  ghost predicate Across(r: real, s: real, t: real, d: real, x: real, y: real, x3: real, y3: real) {
    && r * d - r * x - (r - t) * y == d * x3
    && s * d - (s - t) * x - s * y == d * y3
  }

  lemma AcrossFrom(uc: real, uv: real, cv: real, uw: real, cw: real, wv: real)
    requires uc * wv - uw * cv + uv * cw == 0.0
    ensures Across(uc, cv, cv - uv + uc, uv, wv, uw, cw - uw + uc, cv - wv - cw)
  {
    assert uc * uv - uc * wv - (uc - (cv - uv + uc)) * uw == uc * uv - uc * wv - uv * uw + cv * uw;
    assert uv * (cw - uw + uc) == uv * cw - uv * uw + uv * uc;
    assert cv * uv - (cv - (cv - uv + uc)) * wv - cv * uw == cv * uv - uv * wv + uc * wv - cv * uw;
    assert uv * (cv - wv - cw) == uv * cv - uv * wv - uv * cw;
  }

  lemma TurnsAcross(p: Corners, at: Spot)
    ensures Across(Turn(p.a, p.b, p.c), Turn(p.c, p.d, p.a), Turn(p.b, p.c, p.d), Turn(p.d, p.a, p.b),
                   Turn(p.d, p.a, at), Turn(p.a, p.b, at), Turn(p.b, p.c, at), Turn(p.c, p.d, at))
  {
    var u, c, v, w := From(p.b, p.a), From(p.c, p.a), From(p.d, p.a), From(at, p.a);
    FromTheFirst(p, at);
    FourDirections(u, c, w, v);
    hide Turn, Determinant, Across, From;
    AcrossFrom(Determinant(u, c), Determinant(u, v), Determinant(c, v), Determinant(u, w), Determinant(c, w),
      Determinant(w, v));
  }

  /** A point as a mean of the first corner and its neighbours, by its turns. */
  lemma ByThree(p: Corners, at: Spot)
    ensures
      var d, x, y := Turn(p.d, p.a, p.b), Turn(p.d, p.a, at), Turn(p.a, p.b, at);
      && MeanOfThree(d, x, y, p.a.x, p.b.x, p.d.x, at.x)
      && MeanOfThree(d, x, y, p.a.y, p.b.y, p.d.y, at.y)
  {
    var u, v, w := From(p.b, p.a), From(p.d, p.a), From(at, p.a);
    FromTheFirst(p, at);
    hide Turn;
    InTwoDirections(u, v, w);
    var d, x, y := Determinant(u, v), Determinant(w, v), Determinant(u, w);
    hide Determinant;
    Moved(d, x, y, p.a.x, p.b.x, p.d.x, at.x);
    Moved(d, x, y, p.a.y, p.b.y, p.d.y, at.y);
  }

  lemma InTwoDirections(u: Spot, v: Spot, w: Spot)
    ensures Determinant(u, v) * w.x == Determinant(w, v) * u.x + Determinant(u, w) * v.x
    ensures Determinant(u, v) * w.y == Determinant(w, v) * u.y + Determinant(u, w) * v.y
  {
  }

  lemma Moved(d: real, x: real, y: real, a: real, b: real, e: real, at: real)
    requires d * (at - a) == x * (b - a) + y * (e - a)
    ensures MeanOfThree(d, x, y, a, b, e, at)
  {
  }

  // ---------- Where it is read from ----------

  /** How far across and down, over how far that is of, times what makes them whole. */
  datatype Found = Found(k1: real, k2: real, k3: real)

  function FoundAt(r: real, s: real, t: real, d: real, x: real, y: real): Found {
    Found(t * (r * x), t * (s * y), d * (s * r) - (s - t) * (r * x) - (r - t) * (s * y))
  }

  lemma Positive(a: real, b: real)
    requires a > 0.0 && b > 0.0
    ensures a * b > 0.0
  {
  }

  lemma NoLess(a: real, b: real)
    requires a >= 0.0 && b >= 0.0
    ensures a * b >= 0.0
  {
  }

  lemma LeftOverOne(r: real, s: real, t: real, d: real, x: real, y: real, far: real)
    requires r * d - r * x - (r - t) * y == d * far
    ensures d * (s * r) - s * (r * x) - (r - t) * (s * y) == s * (d * far)
  {
    var rx := r * x;
    assert s * (d * far) == s * (r * d) - s * rx - s * ((r - t) * y);
    assert s * ((r - t) * y) == (r - t) * (s * y);
    assert s * (r * d) == d * (s * r);
  }

  lemma Distributed(s: real, t: real, n: real)
    ensures (s - t) * n == s * n - t * n
  {
  }

  /** What is left across and down is what the far edges see. */
  lemma LeftOver(r: real, s: real, t: real, d: real, x: real, y: real, x3: real, y3: real)
    requires Across(r, s, t, d, x, y, x3, y3)
    ensures var f := FoundAt(r, s, t, d, x, y); f.k3 - f.k1 == s * (d * x3) && f.k3 - f.k2 == r * (d * y3)
  {
    LeftOverOne(r, s, t, d, x, y, x3);
    assert s * d - s * y - (s - t) * x == d * y3;
    LeftOverOne(s, r, t, d, y, x, y3);
    Distributed(s, t, r * x);
    Distributed(r, t, s * y);
    assert r * s == s * r;
  }

  lemma FoundOnTheFace(r: real, s: real, t: real, d: real, x: real, y: real, x3: real, y3: real)
    requires r > 0.0 && s > 0.0 && t > 0.0 && d > 0.0 && x >= 0.0 && y >= 0.0 && x3 >= 0.0 && y3 >= 0.0
    requires Across(r, s, t, d, x, y, x3, y3)
    ensures var f := FoundAt(r, s, t, d, x, y); 0.0 <= f.k1 <= f.k3 && 0.0 <= f.k2 <= f.k3 && f.k3 > 0.0
  {
    var f := FoundAt(r, s, t, d, x, y);
    LeftOver(r, s, t, d, x, y, x3, y3);
    NoLess(r, x);
    NoLess(s, y);
    NoLess(t, r * x);
    NoLess(t, s * y);
    NoLess(d, x3);
    NoLess(d, y3);
    NoLess(s, d * x3);
    NoLess(r, d * y3);
    Positive(s, r);
    Positive(d, s * r);
    if f.k3 <= 0.0 {
      NoFactor(t, r * x);
      NoFactor(t, s * y);
    }
  }

  lemma NoFactor(k: real, n: real)
    requires k > 0.0 && k * n == 0.0
    ensures n == 0.0
  {
  }

  /** A part of the map, at what was found. */
  predicate PartIs(a: real, b: real, c: real, f: Found, l: real) {
    a * f.k1 + b * f.k2 + c * f.k3 == l
  }

  /** A point's place along one axis, as a mean of three. */
  predicate MeanOfThree(d: real, x: real, y: real, a: real, b: real, e: real, at: real) {
    d * at == (d - x - y) * a + x * b + y * e
  }

  /** How the map's numbers are of the turns. */
  predicate OfTurns(t: real, m: real, s: real, b: real, a: real) {
    t * m == s * b - t * a
  }

  function Scaled(at: real, l: real): real {
    at * l
  }

  /** The map's denominator there, times what makes it whole. */
  function Scale(d: real, s: real, r: real): real {
    d * (s * r)
  }

  /** The map's denominator there, and what is over it. */
  lemma PartsFound(g: real, h: real, r: real, s: real, t: real, d: real, x: real, y: real)
    requires t > 0.0 && t * g == s - t && t * h == r - t
    ensures PartIs(g, h, 1.0, FoundAt(r, s, t, d, x, y), Scale(d, s, r))
  {
    var rx, sy := r * x, s * y;
    assert g * (t * rx) == (t * g) * rx && h * (t * sy) == (t * h) * sy;
    assert 1.0 * FoundAt(r, s, t, d, x, y).k3 == FoundAt(r, s, t, d, x, y).k3;
  }

  lemma PartFound(a: real, b: real, e: real, m: real, n: real, r: real, s: real, t: real, d: real, x: real, y: real,
                  at: real)
    requires t > 0.0 && OfTurns(t, m, s, b, a) && OfTurns(t, n, r, e, a)
    requires MeanOfThree(d, x, y, a, b, e, at)
    ensures PartIs(m, n, a, FoundAt(r, s, t, d, x, y), Scaled(at, Scale(d, s, r)))
  {
    var rx, sy, sr, f := r * x, s * y, s * r, FoundAt(r, s, t, d, x, y);
    assert m * f.k1 == (t * m) * rx && n * f.k2 == (t * n) * sy;
    assert (s * b - t * a) * rx == b * (s * rx) - t * (a * rx);
    assert (r * e - t * a) * sy == e * (r * sy) - t * (a * sy);
    assert s * rx == sr * x && r * sy == sr * y;
    assert a * f.k3 == a * (d * sr) - a * ((s - t) * rx) - a * ((r - t) * sy);
    assert a * ((s - t) * rx) == a * (s * rx) - t * (a * rx);
    assert a * ((r - t) * sy) == a * (r * sy) - t * (a * sy);
    assert at * (d * sr) == sr * (d * at);
    assert sr * ((d - x - y) * a + x * b + y * e) ==
      a * (d * sr) - a * (sr * x) - a * (sr * y) + b * (sr * x) + e * (sr * y);
  }

  lemma OverBoth(a: real, b: real, c: real, f: Found, l: real)
    requires f.k3 > 0.0 && PartIs(a, b, c, f, l)
    ensures Linear(a, b, c, f.k1 / f.k3, f.k2 / f.k3) == l / f.k3
  {
    var u, v := f.k1 / f.k3, f.k2 / f.k3;
    assert u * f.k3 == f.k1 && v * f.k3 == f.k2;
    assert (a * u + b * v + c) * f.k3 == a * (u * f.k3) + b * (v * f.k3) + c * f.k3;
    Divided(a * u + b * v + c, f.k3, l);
  }

  lemma Divided(q: real, k: real, l: real)
    requires k > 0.0 && q * k == l
    ensures q == l / k
  {
    var p := l / k;
    assert p * k == l;
    assert (q - p) * k == 0.0;
    NoFactor(k, q - p);
  }

  lemma Ratio(at: real, l: real, k: real, x: real, z: real)
    requires k > 0.0 && l > 0.0 && x == Scaled(at, l) / k && z == l / k
    ensures z > 0.0 && Over(x, z) == at
  {
    assert z * k == l && x * k == at * l;
    assert z <= 0.0 ==> z * k <= 0.0;
    assert (at * z) * k == at * (z * k);
    Divided(at * z, k, at * l);
    Divided(at, z, x);
  }

  lemma Part(k: real, of: real)
    requires of > 0.0 && 0.0 <= k <= of
    ensures 0.0 <= k / of <= 1.0
  {
    var q := k / of;
    assert q * of == k;
    assert q < 0.0 ==> q * of < 0.0;
    assert q > 1.0 ==> (q - 1.0) * of > 0.0;
  }

  /** The map's numbers, of the turns at the corners. */
  lemma MapOfTurns(p: Corners, m: Map)
    requires MapByTurns(p, m)
    ensures
      var r, s, t := Turn(p.a, p.b, p.c), Turn(p.c, p.d, p.a), Turn(p.b, p.c, p.d);
      && t * m.g == s - t && t * m.h == r - t && m.c == p.a.x && m.f == p.a.y
      && OfTurns(t, m.a, s, p.b.x, p.a.x) && OfTurns(t, m.b, r, p.d.x, p.a.x)
      && OfTurns(t, m.d, s, p.b.y, p.a.y) && OfTurns(t, m.e, r, p.d.y, p.a.y)
  {
    var r, s, t := Turn(p.a, p.b, p.c), Turn(p.c, p.d, p.a), Turn(p.b, p.c, p.d);
    hide Turn, OfTurns;
    FootOf(t, m.g, s, p.b.x, p.a.x, m.a);
    FootOf(t, m.h, r, p.d.x, p.a.x, m.b);
    FootOf(t, m.g, s, p.b.y, p.a.y, m.d);
    FootOf(t, m.h, r, p.d.y, p.a.y, m.e);
  }

  lemma FootOf(t: real, g: real, s: real, b: real, a: real, m: real)
    requires t * g == s - t && m == b - a + g * b
    ensures OfTurns(t, m, s, b, a)
  {
    Stretch(t, g, s, b, a);
  }

  lemma ReadFrom(p: Corners, m: Map, at: Spot) returns (u: real, v: real)
    requires TurnsClockwise(p) && MapByTurns(p, m) && InsideEdges(p, at)
    ensures OnTheFace(u, v) && Project(m, u, v) == Some(at)
  {
    var r, s, t, d := Turn(p.a, p.b, p.c), Turn(p.c, p.d, p.a), Turn(p.b, p.c, p.d), Turn(p.d, p.a, p.b);
    var x, y, x3, y3 := Turn(p.d, p.a, at), Turn(p.a, p.b, at), Turn(p.b, p.c, at), Turn(p.c, p.d, at);
    hide Turn, Across, FoundAt, Scale, PartIs, MeanOfThree, OfTurns, MapByTurns, Project, OnTheFace, Scaled;
    TurnsAcross(p, at);
    ByThree(p, at);
    MapOfTurns(p, m);
    FoundOnTheFace(r, s, t, d, x, y, x3, y3);
    var f, l := FoundAt(r, s, t, d, x, y), Scale(d, s, r);
    PartsFound(m.g, m.h, r, s, t, d, x, y);
    PartFound(p.a.x, p.b.x, p.d.x, m.a, m.b, r, s, t, d, x, y, at.x);
    PartFound(p.a.y, p.b.y, p.d.y, m.d, m.e, r, s, t, d, x, y, at.y);
    ScalePositive(d, s, r);
    u, v := FoundThere(m, f, l, at);
  }

  lemma ScalePositive(d: real, s: real, r: real)
    requires d > 0.0 && s > 0.0 && r > 0.0
    ensures Scale(d, s, r) > 0.0
  {
    Positive(s, r);
    Positive(d, s * r);
  }

  lemma FoundThere(m: Map, f: Found, l: real, at: Spot) returns (u: real, v: real)
    requires f.k3 > 0.0 && l > 0.0 && 0.0 <= f.k1 <= f.k3 && 0.0 <= f.k2 <= f.k3
    requires PartIs(m.g, m.h, 1.0, f, l)
    requires PartIs(m.a, m.b, m.c, f, Scaled(at.x, l)) && PartIs(m.d, m.e, m.f, f, Scaled(at.y, l))
    ensures OnTheFace(u, v) && Project(m, u, v) == Some(at)
  {
    hide PartIs, Linear, Over;
    u, v := f.k1 / f.k3, f.k2 / f.k3;
    Part(f.k1, f.k3);
    Part(f.k2, f.k3);
    OverBoth(m.g, m.h, 1.0, f, l);
    OverBoth(m.a, m.b, m.c, f, Scaled(at.x, l));
    OverBoth(m.d, m.e, m.f, f, Scaled(at.y, l));
    Ratio(at.x, l, f.k3, AcrossPart(m, u, v), Denominator(m, u, v));
    Ratio(at.y, l, f.k3, DownPart(m, u, v), Denominator(m, u, v));
  }

  /** A point on the inner side of all four edges is the image of one point of the unit
      square, and of no other. */
  lemma EveryPointIsRead(q: Corners, width: real, height: real, at: Spot) returns (u: real, v: real)
    requires TurnsClockwise(q) && width > 0.0 && height > 0.0 && InsideEdges(QuadInPixels(q, width, height), at)
    ensures Projection(q, width, height).Some? && OnTheFace(u, v)
    ensures Project(Projection(q, width, height).value, u, v) == Some(at)
    ensures forall w, z :: OnTheFace(w, z) && Project(Projection(q, width, height).value, w, z) == Some(at) ==>
      w == u && z == v
  {
    hide Projection, QuadInPixels, MapByTurns, InsideEdges, TurnsClockwise, Project;
    GuardMakesTheMap(q, width, height);
    var m := Projection(q, width, height).value;
    u, v := ReadFrom(QuadInPixels(q, width, height), m, at);
    forall w, z | OnTheFace(w, z) && Project(m, w, z) == Some(at)
      ensures w == u && z == v
    {
      NoTwoReadAsOne(q, width, height, Spot(w, z), Spot(u, v));
    }
  }
}
