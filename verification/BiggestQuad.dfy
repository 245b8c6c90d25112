/** Four of a polygon's corners, in order, whose area no other four exceed. */
module BiggestQuad {
  import opened Geometry
  import opened Options
  import opened Polygon

  datatype Quad = Quad(a: Point, b: Point, c: Point, d: Point)

  /** Twice a triangle's area, so that it is a whole number. */
  function Twice(a: Point, b: Point, c: Point): nat {
    var t := Cross(a, b, c);
    if t < 0 then -t else t
  }

  // ---------- The candidates ----------

  /** Every `step`-th of the points, the first included. */
  function EveryNth(points: seq<Point>, step: nat): (r: seq<Point>)
    requires step > 0
    ensures |r| == (|points| + step - 1) / step
    ensures forall k :: 0 <= k < |r| ==> k * step < |points| && r[k] == points[k * step]
  {
    if points == [] then []
    else
      var last := |points| - 1;
      var rest := EveryNth(points[..last], step);
      assert rest == EveryNth(points[..last], step);
      OneMore(last, step);
      if last % step == 0 then rest + [points[last]] else rest
  }

  lemma OneMore(last: nat, step: nat)
    requires step > 0
    ensures last % step == 0 ==> (last + step) / step == (last + step - 1) / step + 1
    ensures last % step == 0 ==> (last + step - 1) / step * step == last
    ensures last % step != 0 ==> (last + step) / step == (last + step - 1) / step
  {
    var q, r := last / step, last % step;
    assert last == q * step + r;
    if r == 0 {
      Quotient(last + step, step, q + 1, 0);
      Quotient(last + step - 1, step, q, step - 1);
    } else {
      Quotient(last + step, step, q + 1, r);
      Quotient(last + step - 1, step, q + 1, r - 1);
    }
  }

  lemma Quotient(n: nat, d: nat, q: nat, r: nat)
    requires d > 0 && r < d && n == q * d + r
    ensures n / d == q
  {
    var e := n / d - q;
    assert n == (n / d) * d + n % d;
    assert e * d == r - n % d;
    assert e >= 1 ==> e * d >= d;
    assert e <= -1 ==> e * d + d <= 0;
  }

  /** The least stride that leaves at most eighty of `n` corners. */
  function Step(n: nat): nat {
    var up := (n + 79) / 80;
    if up < 1 then 1 else up
  }

  function Candidates(points: seq<Point>): seq<Point> {
    EveryNth(points, Step(|points|))
  }

  lemma AtMostEighty(points: seq<Point>)
    ensures |Candidates(points)| <= 80
    ensures |points| <= 80 ==> Candidates(points) == points
  {
    var n, step := |points|, Step(|points|);
    var r := Candidates(points);
    assert 80 * step >= n;
    assert |r| > 0 ==> (|r| - 1) * step < n;
    assert |r| > 80 ==> (|r| - 81) * step >= 0;
    assert (|r| - 81) * step == (|r| - 1) * step - 80 * step;
    if n <= 80 {
      assert step == 1;
      assert forall k :: 0 <= k < |r| ==> r[k] == points[k * 1];
    }
  }

  /** And any shorter stride leaves more. */
  lemma ShorterLeavesMore(points: seq<Point>, step: nat)
    requires 0 < step < Step(|points|)
    ensures |EveryNth(points, step)| > 80
  {
    var n := |points|;
    assert 80 * (Step(n) - 1) < n;
    assert 80 * step <= 80 * (Step(n) - 1);
    MoreThanEighty(n, step);
  }

  lemma MoreThanEighty(n: nat, step: nat)
    requires step > 0 && 80 * step < n
    ensures (n + step - 1) / step > 80
  {
    var q, r := (n + step - 1) / step, (n + step - 1) % step;
    assert n + step - 1 == q * step + r;
    assert q <= 80 ==> q * step <= 80 * step;
  }

  // ---------- Which quads, and how large ----------

  /** `j` is between `i` and `k` going round, and `l` between `k` and `i`. */
  predicate Crosswise(n: nat, i: int, j: int, k: int, l: int) {
    0 <= i < j < k < n && (k < l < n || 0 <= l < i)
  }

  /** Twice the two triangles on the diagonal from `i` to `k`. */
  function Size(p: seq<Point>, i: int, j: int, k: int, l: int): nat
    requires Crosswise(|p|, i, j, k, l)
  {
    Twice(p[i], p[j], p[k]) + Twice(p[k], p[l], p[i])
  }

  function QuadOf(p: seq<Point>, i: int, j: int, k: int, l: int): Quad
    requires Crosswise(|p|, i, j, k, l)
  {
    Quad(p[i], p[j], p[k], p[l])
  }

  /** The quad has its corners on the points, in order round them, and is `most` large. */
  ghost predicate Sized(p: seq<Point>, q: Quad, most: int) {
    exists i, j, k, l ::
      Crosswise(|p|, i, j, k, l) && q == QuadOf(p, i, j, k, l) && most == Size(p, i, j, k, l)
  }

  /** None from before row `i`, column `k` of the search is larger. */
  ghost predicate NoneLarger(p: seq<Point>, most: int, i: int, k: int) {
    forall i', j', k', l' :: Crosswise(|p|, i', j', k', l') && (i' < i || (i' == i && k' < k)) ==>
      Size(p, i', j', k', l') <= most
  }

  ghost predicate Largest(p: seq<Point>, q: Quad) {
    exists most :: Sized(p, q, most) && NoneLarger(p, most, |p|, 0)
  }

  // ---------- The search ----------

  /** Of the points from `from` on to `upto`, round past the end, the one that
      makes the largest triangle on the side from `a` to `b`; −1 of none. */
  method Farthest(p: seq<Point>, a: nat, b: nat, from: nat, upto: nat) returns (t: int, at: int)
    requires a < |p| && b < |p| && from <= upto
    ensures from == upto ==> t == -1 && at == -1
    ensures from < upto ==>
      (exists m :: from <= m < upto && at == m % |p|) && t == Twice(p[a], p[at], p[b])
    ensures forall m :: from <= m < upto ==> Twice(p[a], p[m % |p|], p[b]) <= t
  {
    t, at := -1, -1;
    for m := from to upto
      invariant m == from ==> t == -1 && at == -1
      invariant m > from ==>
        (exists m' :: from <= m' < m && at == m' % |p|) && t == Twice(p[a], p[at], p[b])
      invariant forall m' :: from <= m' < m ==> Twice(p[a], p[m' % |p|], p[b]) <= t
    {
      var u := Twice(p[a], p[m % |p|], p[b]);
      if u > t {
        t, at := u, m % |p|;
      }
    }
  }

  lemma RoundPastTheEnd(n: nat, m: nat)
    requires n > 0 && m < 2 * n
    ensures m % n == if m < n then m else m - n
  {
  }

  /** No quad on one diagonal is larger than the farthest points on either side make it. */
  lemma OneDiagonal(p: seq<Point>, i: nat, k: nat, a: int, b: int, j: int, l: int)
    requires i + 2 <= k < |p| && Crosswise(|p|, i, j, k, l)
    requires forall m :: i + 1 <= m < k ==> Twice(p[i], p[m % |p|], p[k]) <= a
    requires forall m :: k + 1 <= m < |p| + i ==> Twice(p[k], p[m % |p|], p[i]) <= b
    ensures Size(p, i, j, k, l) <= a + b
  {
    hide Twice;
    RoundPastTheEnd(|p|, j);
    assert Twice(p[i], p[j % |p|], p[k]) <= a;
    var m := if l < i then l + |p| else l;
    RoundPastTheEnd(|p|, m);
    assert Twice(p[k], p[m % |p|], p[i]) <= b;
  }

  lemma ColumnDone(p: seq<Point>, i: nat, k: nat, a: int, b: int, most: int, next: int)
    requires i + 2 <= k < |p| && NoneLarger(p, most, i, k) && most <= next
    requires k + 1 < |p| + i ==> a + b <= next
    requires forall m :: i + 1 <= m < k ==> Twice(p[i], p[m % |p|], p[k]) <= a
    requires forall m :: k + 1 <= m < |p| + i ==> Twice(p[k], p[m % |p|], p[i]) <= b
    ensures NoneLarger(p, next, i, k + 1)
  {
    hide Twice, Size;
    forall i', j, k', l | Crosswise(|p|, i', j, k', l) && (i' < i || (i' == i && k' < k + 1))
      ensures Size(p, i', j, k', l) <= next
    {
      if i' == i && k' == k {
        OneDiagonal(p, i, k, a, b, j, l);
      }
    }
  }

  lemma RowDone(p: seq<Point>, most: int, i: nat, k: nat)
    requires NoneLarger(p, most, i, k) && k >= |p|
    ensures NoneLarger(p, most, i + 1, 0)
  {
  }

  lemma RowBegun(p: seq<Point>, most: int, i: nat)
    requires NoneLarger(p, most, i, 0)
    ensures NoneLarger(p, most, i, i + 2)
  {
  }

  lemma SizedHere(p: seq<Point>, i: nat, j: int, k: nat, l: int)
    requires Crosswise(|p|, i, j, k, l)
    ensures Sized(p, Quad(p[i], p[j], p[k], p[l]), Size(p, i, j, k, l))
  {
  }

  lemma SearchDone(p: seq<Point>, best: Option<Quad>, most: int)
    requires |p| >= 4 && NoneLarger(p, most, |p|, 0)
    requires best.Some? ==> Sized(p, best.value, most)
    requires best.None? ==> most == -1
    ensures best.Some? && Largest(p, best.value)
  {
    assert Crosswise(|p|, 0, 1, 2, 3) && Size(p, 0, 1, 2, 3) <= most;
  }

  /** The largest quad of at most eighty of the points; nothing, of fewer than four. */
  method Find(points: seq<Point>) returns (best: Option<Quad>)
    ensures |Candidates(points)| <= 80
    ensures |Candidates(points)| < 4 ==> best == None
    ensures |Candidates(points)| >= 4 ==> best.Some? && Largest(Candidates(points), best.value)
  {
    AtMostEighty(points);
    var p := EveryNth(points, Step(|points|));
    var n := |p|;
    if n < 4 {
      return None;
    }
    best := None;
    var most := -1;
    assert NoneLarger(p, most, 0, 0);
    hide NoneLarger, Sized, Largest, Twice, EveryNth;
    for i := 0 to n
      invariant best.Some? ==> Sized(p, best.value, most)
      invariant best.None? ==> most == -1
      invariant NoneLarger(p, most, i, 0)
    {
      var k := i + 2;
      RowBegun(p, most, i);
      while k < n
        invariant i + 2 <= k
        invariant best.Some? ==> Sized(p, best.value, most)
        invariant best.None? ==> most == -1
        invariant NoneLarger(p, most, i, k)
      {
        var a, j := Farthest(p, i, k, i + 1, k);
        var b, l := Farthest(p, k, i, k + 1, n + i);
        ghost var before := most;
        if j >= 0 && l >= 0 && a + b > most {
          Placed(n, i, j, k, l);
          SizedHere(p, i, j, k, l);
          most := a + b;
          best := Some(Quad(p[i], p[j], p[k], p[l]));
        }
        ColumnDone(p, i, k, a, b, before, most);
        k := k + 1;
      }
      RowDone(p, most, i, k);
    }
    SearchDone(p, best, most);
  }

  lemma Placed(n: nat, i: nat, j: int, k: nat, l: int)
    requires i + 2 <= k < n
    requires exists m :: i + 1 <= m < k && j == m % n
    requires k + 1 < n + i ==> exists m :: k + 1 <= m < n + i && l == m % n
    requires k + 1 == n + i ==> l == -1
    requires l >= 0
    ensures Crosswise(n, i, j, k, l)
  {
    var m :| i + 1 <= m < k && j == m % n;
    RoundPastTheEnd(n, m);
    if k + 1 < n + i {
      var m' :| k + 1 <= m' < n + i && l == m' % n;
      RoundPastTheEnd(n, m');
    }
  }

  // ---------- On a convex polygon ----------

  ghost predicate TurnsPositive(q: Quad) {
    && Cross(q.a, q.b, q.c) > 0 && Cross(q.b, q.c, q.d) > 0
    && Cross(q.c, q.d, q.a) > 0 && Cross(q.d, q.a, q.b) > 0
  }

  /** Twice the area of a quad, by the shoelace. */
  function Shoelace(q: Quad): int {
    q.a.x * q.b.y - q.b.x * q.a.y + (q.b.x * q.c.y - q.c.x * q.b.y)
    + (q.c.x * q.d.y - q.d.x * q.c.y) + (q.d.x * q.a.y - q.a.x * q.d.y)
  }

  lemma ShoelaceByTriangles(q: Quad)
    ensures Shoelace(q) == Cross(q.a, q.b, q.c) + Cross(q.c, q.d, q.a)
    ensures Shoelace(q) == Cross(q.b, q.c, q.d) + Cross(q.d, q.a, q.b)
  {
    Expanded(q.a, q.b, q.c);
    Expanded(q.c, q.d, q.a);
    Expanded(q.b, q.c, q.d);
    Expanded(q.d, q.a, q.b);
    hide Cross;
  }

  lemma Expanded(o: Point, a: Point, b: Point)
    ensures Cross(o, a, b) == o.x * a.y - a.x * o.y + (a.x * b.y - b.x * a.y) + (b.x * o.y - o.x * b.y)
  {
  }

  lemma Spaced(i: nat, j: nat, step: nat)
    requires step > 0 && i < j
    ensures i * step < j * step
  {
    assert (j - i) * step > 0;
  }

  /** Stepping over corners keeps a polygon convex. */
  lemma EveryNthConvex(points: seq<Point>, step: nat)
    requires step > 0 && ConvexPosition(points)
    ensures ConvexPosition(EveryNth(points, step))
  {
    hide Cross, EveryNth;
    var r := EveryNth(points, step);
    forall i: nat, j: nat, k: nat | i < j < k < |r|
      ensures Cross(r[i], r[j], r[k]) > 0
    {
      Spaced(i, j, step);
      Spaced(j, k, step);
      var a, b, c := i * step, j * step, k * step;
      assert r[i] == points[a] && r[j] == points[b] && r[k] == points[c];
      assert Cross(points[a], points[b], points[c]) > 0;
    }
  }

  /** On a convex polygon every quad in order is convex, and its size is twice its area. */
  lemma CrosswiseConvex(p: seq<Point>, i: int, j: int, k: int, l: int)
    requires ConvexPosition(p) && Crosswise(|p|, i, j, k, l)
    ensures TurnsPositive(QuadOf(p, i, j, k, l))
    ensures Size(p, i, j, k, l) == Shoelace(QuadOf(p, i, j, k, l))
  {
    var q := QuadOf(p, i, j, k, l);
    ShoelaceByTriangles(q);
    CrossAsWedges(q.a, q.b, q.c);
    CrossAsWedges(q.b, q.c, q.d);
    CrossAsWedges(q.c, q.d, q.a);
    CrossAsWedges(q.d, q.a, q.b);
    assert ConvexPosition(p);
    hide Cross;
    if l > k {
      assert Cross(p[i], p[j], p[k]) > 0 && Cross(p[j], p[k], p[l]) > 0;
      assert Cross(p[i], p[k], p[l]) > 0 && Cross(p[i], p[j], p[l]) > 0;
    } else {
      assert Cross(p[l], p[i], p[j]) > 0 && Cross(p[i], p[j], p[k]) > 0;
      assert Cross(p[l], p[j], p[k]) > 0 && Cross(p[l], p[i], p[k]) > 0;
    }
  }

  predicate InOrder(n: nat, i: int, j: int, k: int, l: int) {
    0 <= i < j < k < l < n
  }

  /** On a convex polygon the quad found has the largest area of all those with
      their corners on the candidates, whichever diagonal each was measured on. */
  lemma LargestByArea(p: seq<Point>, q: Quad)
    requires ConvexPosition(p) && Largest(p, q)
    ensures TurnsPositive(q)
    ensures q.a in p && q.b in p && q.c in p && q.d in p
    ensures forall i, j, k, l :: InOrder(|p|, i, j, k, l) ==> Shoelace(Quad(p[i], p[j], p[k], p[l])) <= Shoelace(q)
  {
    hide Shoelace, Size, Cross, ConvexPosition, TurnsPositive;
    var most :| Sized(p, q, most) && NoneLarger(p, most, |p|, 0);
    var a, b, c, d :| Crosswise(|p|, a, b, c, d) && q == QuadOf(p, a, b, c, d) && most == Size(p, a, b, c, d);
    CrosswiseConvex(p, a, b, c, d);
    forall i, j, k, l | InOrder(|p|, i, j, k, l)
      ensures Shoelace(Quad(p[i], p[j], p[k], p[l])) <= Shoelace(q)
    {
      assert Crosswise(|p|, i, j, k, l);
      CrosswiseConvex(p, i, j, k, l);
    }
  }
}
