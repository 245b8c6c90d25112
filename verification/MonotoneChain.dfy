/** Andrew's monotone chain: what each step keeps, and what the two chains make together. */
module MonotoneChain {
  import opened Geometry
  import opened Polygon

  // ---------- One chain of the hull ----------

  ghost predicate Sorted(dir: int, pts: seq<Point>) {
    forall i, j :: 0 <= i < j < |pts| ==> Order(dir, pts[i], pts[j])
  }

  ghost predicate TurnsAlong(c: seq<Point>) {
    forall i: nat :: i + 2 < |c| ==> Cross(c[i], c[i + 1], c[i + 2]) > 0
  }

  /** No edge of the chain has `q` outside it. */
  ghost predicate Within(c: seq<Point>, q: Point) {
    forall i: nat :: i + 1 < |c| ==> Cross(c[i], c[i + 1], q) >= 0
  }

  /** A chain from the first of the points to the last, with none of them outside it. */
  ghost predicate Wraps(dir: int, c: seq<Point>, pts: seq<Point>) {
    && (|pts| == 0 ==> c == [])
    && (|pts| > 0 ==> |c| > 0 && c[0] == pts[0] && c[|c| - 1] == pts[|pts| - 1])
    && (|pts| > 1 ==> |c| > 1)
    && (forall p :: p in c ==> p in pts)
    && Sorted(dir, c)
    && TurnsAlong(c)
    && (forall q :: q in pts ==> Within(c, q))
  }

  /** `t` comes off the chain: what was not outside stays not outside the edge that replaces it. */
  lemma TakeOff(dir: int, o: Point, t: Point, p: Point, q: Point)
    requires dir == 1 || dir == -1
    requires Order(dir, o, t) && Order(dir, t, p) && Order(dir, o, q)
    requires Cross(o, t, p) <= 0 && Cross(o, t, q) >= 0
    requires Order(dir, t, q) ==> Cross(t, p, q) >= 0
    ensures Cross(o, p, q) >= 0
  {
    hide Cross, Wedge, Forward, Scale;
    FourPoints(o, t, p, q);
    if !Order(dir, t, q) {
      var v, w, z := Minus(t, o), Minus(p, t), Minus(q, o);
      CrossAsWedges(o, t, p);
      CrossAsWedges(o, t, q);
      CrossAsWedges(o, p, q);
      WedgeTurned(v, w);
      OrderLaws(dir, t, q, o);
      TurningOnEitherWay(dir, w, v, z);
      WedgeOfSum(v, w, z);
      assert Minus(p, o) == Plus(v, w);
    }
  }

  function Plus(u: Point, v: Point): Point {
    Point(u.x + v.x, u.y + v.y)
  }

  lemma WedgeOfSum(u: Point, v: Point, w: Point)
    ensures Wedge(Plus(u, v), w) == Wedge(u, w) + Wedge(v, w)
  {
  }

  lemma WedgeTurned(u: Point, v: Point)
    ensures Wedge(u, v) == -Wedge(v, u)
    ensures Wedge(Minus(Point(0, 0), u), v) == -Wedge(u, v)
  {
  }

  lemma FourPoints(o: Point, t: Point, p: Point, q: Point)
    ensures Cross(o, p, q) == Cross(o, t, q) - Cross(o, t, p) + Cross(t, p, q)
  {
  }

  /** The new edge `b`, `p`: nothing that came before `b` is outside it. */
  lemma PutOn(dir: int, a: Point, b: Point, p: Point, q: Point)
    requires dir == 1 || dir == -1
    requires Order(dir, a, b) && Order(dir, b, p) && Order(dir, q, b)
    requires Cross(a, b, p) > 0 && Cross(a, b, q) >= 0
    ensures Cross(b, p, q) >= 0
  {
    var r, u, w := Minus(b, q), Minus(b, a), Minus(p, b);
    CrossAsWedges(a, b, p);
    CrossAsWedges(a, b, q);
    CrossAsWedges(b, p, q);
    assert u != Point(0, 0);
    hide Cross, Wedge, Forward, Scale;
    Reversed(u, q, b);
    Reversed(w, q, b);
    TurningOnEitherWay(dir, r, u, w);
  }

  lemma NotStill(a: Point, b: Point, c: Point)
    requires Cross(a, b, c) > 0
    ensures Minus(b, a) != Point(0, 0) && Minus(c, b) != Point(0, 0) && Minus(c, a) != Point(0, 0)
  {
  }

  /** Along a chain that always turns, every edge has what comes after on its inner side. */
  lemma {:induction false} SeesAhead(dir: int, c: seq<Point>, i: nat, k: nat)
    requires dir == 1 || dir == -1
    requires Sorted(dir, c) && TurnsAlong(c)
    requires i + 1 < k < |c|
    ensures Cross(c[i], c[i + 1], c[k]) > 0
    decreases k - i
  {
    if k > i + 2 {
      hide Cross, Wedge, Forward, Scale;
      SeesAhead(dir, c, i + 1, k);
      NotStill(c[i + 1], c[i + 2], c[k]);
      var u, v, w := Minus(c[i + 1], c[i]), Minus(c[i + 2], c[i + 1]), Minus(c[k], c[i + 1]);
      CrossAsWedges(c[i], c[i + 1], c[i + 2]);
      CrossAsWedges(c[i + 1], c[i + 2], c[k]);
      CrossAsWedges(c[i], c[i + 1], c[k]);
      assert Order(dir, c[i], c[i + 1]) && Order(dir, c[i + 1], c[i + 2]) && Order(dir, c[i + 1], c[k]);
      TurningOnEitherWay(dir, u, v, w);
    }
  }

  /** No edge of the longer chain has an earlier point outside it. */
  lemma ExtendsRound(dir: int, c: seq<Point>, first: Point, p: Point, q: Point, i: nat)
    requires dir == 1 || dir == -1
    requires |c| > 0 && c[0] == first && Order(dir, first, q) && Sorted(dir, c) && Order(dir, c[|c| - 1], p)
    requires Within(c, q)
    requires |c| >= 2 ==> Cross(c[|c| - 2], c[|c| - 1], p) > 0
    requires Order(dir, c[|c| - 1], q) ==> Cross(c[|c| - 1], p, q) >= 0
    requires i + 1 < |c + [p]|
    ensures Cross((c + [p])[i], (c + [p])[i + 1], q) >= 0
  {
    var m := |c| - 1;
    if i < m {
      assert Cross(c[i], c[i + 1], q) >= 0;
    } else if !Order(dir, c[m], q) {
      OrderLaws(dir, c[m], q, q);
      if m > 0 {
        assert Cross(c[m - 1], c[m - 1 + 1], q) >= 0;
        assert Order(dir, c[m - 1], c[m]);
        PutOn(dir, c[m - 1], c[m], p, q);
      }
    }
  }

  /** The longer chain is in order, and still turns. */
  lemma ExtendsAlong(dir: int, c: seq<Point>, pts: seq<Point>, p: Point)
    requires dir == 1 || dir == -1
    requires Sorted(dir, pts + [p]) && |c| > 0 && Sorted(dir, c) && TurnsAlong(c)
    requires forall x :: x in c ==> x in pts
    requires |c| >= 2 ==> Cross(c[|c| - 2], c[|c| - 1], p) > 0
    ensures Sorted(dir, c + [p]) && TurnsAlong(c + [p])
    ensures forall x :: x in pts ==> Order(dir, x, p)
    ensures forall x :: x in pts ==> Order(dir, pts[0], x)
  {
    hide Order, Cross;
    var d, all := c + [p], pts + [p];
    forall x | x in pts
      ensures Order(dir, x, p) && Order(dir, pts[0], x)
    {
      var k :| 0 <= k < |pts| && pts[k] == x;
      assert all[k] == x && all[|pts|] == p && all[0] == pts[0];
      OrderLaws(dir, x, x, x);
    }
    forall i, j | 0 <= i < j < |d|
      ensures Order(dir, d[i], d[j])
    {
      assert d[i] in c;
    }
  }

  /** The next point goes on the end. */
  lemma Extends(dir: int, c: seq<Point>, pts: seq<Point>, p: Point)
    requires dir == 1 || dir == -1
    requires |pts| > 0 && Sorted(dir, pts + [p])
    requires |c| > 0 && c[0] == pts[0] && Sorted(dir, c) && TurnsAlong(c)
    requires forall x :: x in c ==> x in pts
    requires forall q :: q in pts ==> Within(c, q)
    requires |c| >= 2 ==> Cross(c[|c| - 2], c[|c| - 1], p) > 0
    requires ClearTo(dir, c[|c| - 1], p, pts)
    ensures Wraps(dir, c + [p], pts + [p])
  {
    var d := c + [p];
    ExtendsAlong(dir, c, pts, p);
    hide Sorted, TurnsAlong, Cross, Order;
    assert c[|c| - 1] in pts;
    forall q | q in pts
      ensures Within(d, q)
    {
      forall i: nat | i + 1 < |d|
        ensures Cross(d[i], d[i + 1], q) >= 0
      {
        ExtendsRound(dir, c, pts[0], p, q, i);
      }
    }
    EndSeen(dir, d);
  }

  /** The end of a chain is outside none of its edges. */
  lemma EndSeen(dir: int, d: seq<Point>)
    requires dir == 1 || dir == -1
    requires |d| > 0 && Sorted(dir, d) && TurnsAlong(d)
    ensures Within(d, d[|d| - 1])
  {
    forall i: nat | i + 1 < |d|
      ensures Cross(d[i], d[i + 1], d[|d| - 1]) >= 0
    {
      if i + 2 < |d| {
        SeesAhead(dir, d, i, |d| - 1);
      }
    }
  }

  /** Nothing further on than `o` is outside the edge from `o` to `p`. */
  ghost predicate ClearTo(dir: int, o: Point, p: Point, done: seq<Point>) {
    forall q :: q in done && Order(dir, o, q) ==> Cross(o, p, q) >= 0
  }

  lemma StillClear(dir: int, whole: seq<Point>, k: nat, p: Point, done: seq<Point>)
    requires dir == 1 || dir == -1
    requires Wraps(dir, whole, done) && Sorted(dir, done + [p])
    requires 2 <= k <= |whole| && Cross(whole[k - 2], whole[k - 1], p) <= 0
    requires ClearTo(dir, whole[k - 1], p, done)
    ensures ClearTo(dir, whole[k - 2], p, done)
  {
    var o, t := whole[k - 2], whole[k - 1];
    assert t in done;
    var at :| 0 <= at < |done| && done[at] == t;
    assert (done + [p])[at] == t && (done + [p])[|done|] == p;
    forall q | q in done && Order(dir, o, q)
      ensures Cross(o, p, q) >= 0
    {
      assert Within(whole, q);
      assert k - 2 + 1 < |whole|;
      TakeOff(dir, o, t, p, q);
    }
  }

  lemma LastIsClear(dir: int, done: seq<Point>, p: Point)
    requires dir == 1 || dir == -1
    requires |done| > 0 && Sorted(dir, done)
    ensures ClearTo(dir, done[|done| - 1], p, done)
  {
    var t := done[|done| - 1];
    forall q | q in done && Order(dir, t, q)
      ensures q == t
    {
      var k :| 0 <= k < |done| && done[k] == q;
      OrderLaws(dir, q, t, t);
    }
  }

  /** The start of a chain still turns, and still has nothing outside it. */
  lemma PartWraps(dir: int, whole: seq<Point>, k: nat, done: seq<Point>)
    requires Wraps(dir, whole, done) && k <= |whole|
    ensures Sorted(dir, whole[..k]) && TurnsAlong(whole[..k])
    ensures forall p :: p in whole[..k] ==> p in done
    ensures forall q :: q in done ==> Within(whole[..k], q)
  {
    forall q | q in done
      ensures Within(whole[..k], q)
    {
      assert Within(whole, q);
    }
  }

  /** The chain cut back far enough, the next point goes on. */
  lemma Wrapped(dir: int, whole: seq<Point>, k: nat, done: seq<Point>, p: Point)
    requires dir == 1 || dir == -1
    requires |done| > 0 && Wraps(dir, whole, done) && Sorted(dir, done + [p])
    requires 1 <= k <= |whole| && ClearTo(dir, whole[k - 1], p, done)
    requires k >= 2 ==> Cross(whole[k - 2], whole[k - 1], p) > 0
    ensures Wraps(dir, whole[..k] + [p], done + [p])
  {
    PartWraps(dir, whole, k, done);
    Extends(dir, whole[..k], done, p);
  }

  lemma FirstWrapped(dir: int, p: Point)
    ensures Wraps(dir, [], []) && Wraps(dir, [p], [p])
  {
  }

  lemma WrapsEnds(dir: int, c: seq<Point>, pts: seq<Point>)
    requires Wraps(dir, c, pts)
    ensures |pts| == 0 ==> c == []
    ensures |pts| > 0 ==> |c| > 0 && c[|c| - 1] == pts[|pts| - 1]
  {
  }

  lemma SortedSoFar(dir: int, pts: seq<Point>, n: nat)
    requires Sorted(dir, pts) && n < |pts|
    ensures Sorted(dir, pts[..n]) && Sorted(dir, pts[..n] + [pts[n]])
    ensures pts[..n + 1] == pts[..n] + [pts[n]]
  {
  }

  /** Andrew's monotone chain, one way: the points in order, and off the chain
      comes whatever the next one makes it turn the wrong way at. */
  method Chain(ghost dir: int, pts: seq<Point>) returns (c: seq<Point>)
    requires dir == 1 || dir == -1
    requires Sorted(dir, pts)
    ensures Wraps(dir, c, pts)
  {
    hide Wraps, Sorted, ClearTo, Order;
    c := [];
    FirstWrapped(dir, Point(0, 0));
    for n := 0 to |pts|
      invariant Wraps(dir, c, pts[..n])
    {
      var p := pts[n];
      ghost var done, whole := pts[..n], c;
      SortedSoFar(dir, pts, n);
      WrapsEnds(dir, c, done);
      if n > 0 {
        LastIsClear(dir, done, p);
      } else {
        FirstWrapped(dir, p);
      }
      while |c| >= 2 && Cross(c[|c| - 2], c[|c| - 1], p) <= 0
        invariant |c| <= |whole| && c == whole[..|c|]
        invariant n == 0 ==> c == []
        invariant n > 0 ==> |c| > 0 && ClearTo(dir, whole[|c| - 1], p, done)
      {
        StillClear(dir, whole, |c|, p, done);
        c := c[..|c| - 1];
      }
      if n > 0 {
        Wrapped(dir, whole, |c|, done, p);
      }
      assert n == 0 ==> c + [p] == [p] && done + [p] == [p];
      c := c + [p];
    }
    assert pts[..|pts|] == pts;
  }

  // ---------- The two chains, end to end ----------

  /** Headed the same way and along the same line, two vectors agree. */
  lemma SameWay(dir: int, v: Point, z: Point)
    requires dir == 1 || dir == -1
    requires Forward(Scale(dir, v)) && Forward(Scale(dir, z)) && v != Point(0, 0) && z != Point(0, 0)
    requires Wedge(v, z) == 0
    ensures Dot(z, v) > 0
  {
    var n, t := Dot(v, v), Dot(z, v);
    AlongALine(v, z, Point(0, dir));
    AlongALine(v, z, Point(-dir, 0));
    var p, q, r, s := dir * v.x, dir * v.y, dir * z.x, dir * z.y;
    assert Wedge(z, Point(0, dir)) == r && Wedge(v, Point(0, dir)) == p;
    assert Wedge(z, Point(-dir, 0)) == s && Wedge(v, Point(-dir, 0)) == q;
    hide Dot, Wedge;
    SignOf(n, r, t, p);
    SignOf(n, s, t, q);
    if t == 0 {
      AtTheStart(v, z);
    }
  }

  /** Where the chains meet they turn, unless everything is on the one line. */
  lemma MeetingOnALine(dir: int, a: Point, m: Point, b: Point, q: Point)
    requires dir == 1 || dir == -1
    requires Order(dir, m, a) && Order(dir, m, b) && a != m && b != m
    requires Cross(a, m, b) == 0 && Cross(a, m, q) >= 0 && Cross(m, b, q) >= 0
    ensures Cross(a, m, q) == 0
  {
    var v, z, e := Minus(a, m), Minus(b, m), Minus(q, m);
    assert Wedge(v, z) == 0 by {
      CrossAsWedges(a, m, b);
      assert Wedge(Minus(m, a), z) == -Wedge(v, z);
    }
    SameWay(dir, v, z);
    AlongALine(v, z, e);
    CrossAsWedges(m, b, q);
    CrossAsWedges(a, m, q);
    assert Wedge(Minus(m, a), e) == -Wedge(v, e);
    SignOf(Dot(v, v), Wedge(z, e), Dot(z, v), Wedge(v, e));
  }

  lemma ThreeOnALine(a: Point, m: Point, r: Point, s: Point, t: Point)
    requires a != m && Cross(a, m, r) == 0 && Cross(a, m, s) == 0 && Cross(a, m, t) == 0
    ensures Cross(r, s, t) == 0
  {
    var d := Minus(m, a);
    CrossAsWedges(a, m, r);
    CrossAsWedges(a, m, s);
    CrossAsWedges(a, m, t);
    CrossAsWedges(r, s, t);
    WedgeAdds(d, Minus(r, a), Minus(s, a));
    WedgeAdds(d, Minus(r, a), Minus(t, a));
    assert Minus(s, r) == Minus(Minus(s, a), Minus(r, a)) && Minus(t, r) == Minus(Minus(t, a), Minus(r, a));
    AlongALine(d, Minus(s, r), Minus(t, r));
    PositiveFactor(Dot(d, d), Cross(r, s, t));
  }

  lemma WedgeAdds(d: Point, u: Point, v: Point)
    ensures Wedge(d, Minus(v, u)) == Wedge(d, v) - Wedge(d, u)
  {
  }

  lemma MeetingTurns(dir: int, a: Point, m: Point, b: Point, r: Point, s: Point, t: Point)
    requires dir == 1 || dir == -1
    requires Order(dir, m, a) && Order(dir, m, b) && a != m && b != m
    requires Cross(a, m, b) >= 0 && Cross(r, s, t) != 0
    requires forall q :: q in {r, s, t} ==> Cross(a, m, q) >= 0 && Cross(m, b, q) >= 0
    ensures Cross(a, m, b) > 0
  {
    if Cross(a, m, b) == 0 {
      MeetingOnALine(dir, a, m, b, r);
      MeetingOnALine(dir, a, m, b, s);
      MeetingOnALine(dir, a, m, b, t);
      ThreeOnALine(a, m, r, s, t);
    }
  }

  /** Not all on one line. */
  ghost predicate Spread(pts: seq<Point>) {
    exists r, s, t :: r in pts && s in pts && t in pts && Cross(r, s, t) != 0
  }

  function Reverse(pts: seq<Point>): (r: seq<Point>)
    ensures |r| == |pts|
    ensures forall i :: 0 <= i < |pts| ==> r[i] == pts[|pts| - 1 - i]
    ensures forall p :: p in r <==> p in pts
  {
    if pts == [] then [] else Reverse(pts[1..]) + [pts[0]]
  }

  lemma ReverseSorts(pts: seq<Point>)
    requires Sorted(1, pts)
    ensures Sorted(-1, Reverse(pts))
  {
    var r := Reverse(pts);
    forall i, j | 0 <= i < j < |r|
      ensures Order(-1, r[i], r[j])
    {
      OrderLaws(1, pts[|pts| - 1 - j], pts[|pts| - 1 - i], r[i]);
    }
  }

  /** Both chains of a spread set of points, each from one extreme corner to the other. */
  ghost predicate BothWays(pts: seq<Point>, lower: seq<Point>, upper: seq<Point>) {
    && Sorted(1, pts) && Spread(pts)
    && Wraps(1, lower, pts)
    && Wraps(-1, upper, Reverse(pts))
  }

  function Joined(lower: seq<Point>, upper: seq<Point>): seq<Point>
    requires |lower| > 0 && |upper| > 0
  {
    lower[..|lower| - 1] + upper[..|upper| - 1]
  }

  lemma ExtremesDiffer(pts: seq<Point>)
    requires Sorted(1, pts) && Spread(pts)
    ensures |pts| >= 2 && pts[0] != pts[|pts| - 1]
  {
    var r, s, t :| r in pts && s in pts && t in pts && Cross(r, s, t) != 0;
    if pts[0] == pts[|pts| - 1] {
      forall q | q in pts
        ensures q == pts[0]
      {
        var k :| 0 <= k < |pts| && pts[k] == q;
        OrderLaws(1, pts[0], q, q);
      }
    }
  }

  lemma ChainEnds(pts: seq<Point>, lower: seq<Point>, upper: seq<Point>)
    requires BothWays(pts, lower, upper)
    ensures |lower| >= 2 && |upper| >= 2
    ensures lower[0] == upper[|upper| - 1] == pts[0]
    ensures upper[0] == lower[|lower| - 1] == pts[|pts| - 1]
    ensures pts[0] != pts[|pts| - 1]
    ensures forall p :: p in lower || p in upper ==> p in pts
  {
    ExtremesDiffer(pts);
  }

  /** Each edge of the whole is an edge of one chain. */
  lemma EdgeOf(lower: seq<Point>, upper: seq<Point>, i: nat)
    requires |lower| >= 2 && |upper| >= 2 && i < |lower| + |upper| - 2
    requires lower[0] == upper[|upper| - 1] && upper[0] == lower[|lower| - 1]
    ensures
      var poly, a := Joined(lower, upper), |lower| - 1;
      && |poly| == |lower| + |upper| - 2
      && if i < a then poly[i] == lower[i] && poly[Next(|poly|, i)] == lower[i + 1]
         else poly[i] == upper[i - a] && poly[Next(|poly|, i)] == upper[i - a + 1]
  {
  }

  lemma JoinedEncloses(pts: seq<Point>, lower: seq<Point>, upper: seq<Point>, q: Point)
    requires BothWays(pts, lower, upper) && q in pts
    ensures |lower| >= 2 && |upper| >= 2 && Encloses(Joined(lower, upper), q)
  {
    ChainEnds(pts, lower, upper);
    var poly := Joined(lower, upper);
    assert Within(lower, q) && Within(upper, q);
    forall i: nat | i < |poly|
      ensures Cross(poly[i], poly[Next(|poly|, i)], q) >= 0
    {
      EdgeOf(lower, upper, i);
    }
  }

  /** Along a chain that turns, no corner comes twice running. */
  lemma StepsForward(dir: int, c: seq<Point>, i: nat)
    requires |c| >= 2 && c[0] != c[|c| - 1] && TurnsAlong(c) && i + 1 < |c|
    ensures c[i] != c[i + 1]
  {
    if i + 2 < |c| {
      assert Cross(c[i], c[i + 1], c[i + 2]) > 0;
    } else if i > 0 {
      assert Cross(c[i - 1], c[i], c[i + 1]) > 0;
    }
  }

  lemma TurnAt(lower: seq<Point>, upper: seq<Point>, i: nat)
    requires |lower| >= 2 && |upper| >= 2 && i < |lower| + |upper| - 2
    requires lower[0] == upper[|upper| - 1] && upper[0] == lower[|lower| - 1]
    requires TurnsAlong(lower) && TurnsAlong(upper)
    requires Cross(lower[|lower| - 2], upper[0], upper[1]) > 0
    requires Cross(upper[|upper| - 2], lower[0], lower[1]) > 0
    ensures
      var poly := Joined(lower, upper);
      var n := |poly|;
      && n == |lower| + |upper| - 2
      && Cross(poly[i], poly[Next(n, i)], poly[Next(n, Next(n, i))]) > 0
  {
    hide Cross;
    var n, a := |lower| + |upper| - 2, |lower| - 1;
    EdgeOf(lower, upper, i);
    EdgeOf(lower, upper, Next(n, i));
    if i + 1 < a {
      assert Cross(lower[i], lower[i + 1], lower[i + 2]) > 0;
    } else if a <= i && i + 1 < n {
      assert Cross(upper[i - a], upper[i - a + 1], upper[i - a + 2]) > 0;
    }
  }

  lemma JoinedTurns(pts: seq<Point>, lower: seq<Point>, upper: seq<Point>)
    requires BothWays(pts, lower, upper)
    ensures |lower| >= 2 && |upper| >= 2 && TurnsAtEveryCorner(Joined(lower, upper))
  {
    hide Cross, Spread, Sorted, Within, TurnsAlong;
    ChainEnds(pts, lower, upper);
    MeetingOf(1, pts, lower, upper, pts, Reverse(pts));
    MeetingOf(-1, pts, upper, lower, Reverse(pts), pts);
    forall i: nat | i < |Joined(lower, upper)|
      ensures Cross(Joined(lower, upper)[i], Joined(lower, upper)[Next(|Joined(lower, upper)|, i)],
                    Joined(lower, upper)[Next(|Joined(lower, upper)|, Next(|Joined(lower, upper)|, i))]) > 0
    {
      TurnAt(lower, upper, i);
    }
  }

  /** The edges of a chain at either end of it. */
  lemma EndEdges(dir: int, c: seq<Point>, pts: seq<Point>, q: Point)
    requires Wraps(dir, c, pts) && |c| >= 2 && c[0] != c[|c| - 1]
    ensures c[0] != c[1] && Order(dir, c[0], c[1]) && c[1] in pts
    ensures c[|c| - 2] != c[|c| - 1] && Order(dir, c[|c| - 2], c[|c| - 1]) && c[|c| - 2] in pts
    ensures q in pts ==> Cross(c[0], c[1], q) >= 0 && Cross(c[|c| - 2], c[|c| - 1], q) >= 0
  {
    StepsForward(dir, c, 0);
    StepsForward(dir, c, |c| - 2);
    if q in pts {
      assert Within(c, q);
      assert 0 + 1 < |c| && |c| - 2 + 1 < |c|;
    }
  }

  /** Where one chain ends and the other begins. */
  lemma MeetingOf(dir: int, pts: seq<Point>, c: seq<Point>, d: seq<Point>, from: seq<Point>, onto: seq<Point>)
    requires dir == 1 || dir == -1
    requires Spread(pts) && (forall q :: q in from <==> q in pts) && (forall q :: q in onto <==> q in pts)
    requires Wraps(dir, c, from) && Wraps(-dir, d, onto)
    requires |c| >= 2 && |d| >= 2 && c[0] == d[|d| - 1] != d[0] == c[|c| - 1]
    ensures Cross(c[|c| - 2], d[0], d[1]) > 0
  {
    var r, s, t :| r in pts && s in pts && t in pts && Cross(r, s, t) != 0;
    hide Wraps, Cross;
    forall q | q in pts
      ensures Cross(c[|c| - 2], d[0], q) >= 0 && Cross(d[0], d[1], q) >= 0
    {
      EndEdges(dir, c, from, q);
      EndEdges(-dir, d, onto, q);
    }
    EndEdges(dir, c, from, r);
    EndEdges(-dir, d, onto, r);
    OrderLaws(dir, c[|c| - 2], d[0], r);
    MeetingTurns(-dir, c[|c| - 2], d[0], d[1], r, s, t);
  }

  // ---------- No corner comes twice ----------

  lemma {:induction false} LooksBack(dir: int, c: seq<Point>, j: nat)
    requires dir == 1 || dir == -1
    requires Sorted(dir, c) && TurnsAlong(c)
    requires 1 <= j && j + 1 < |c|
    ensures Cross(c[0], c[j], c[j + 1]) > 0
  {
    if j > 1 {
      hide Cross, Wedge, Forward, Scale;
      LooksBack(dir, c, j - 1);
      NotStill(c[0], c[j - 1], c[j]);
      var p, q, r := Minus(c[j - 1], c[0]), Minus(c[j], c[j - 1]), Minus(c[j + 1], c[j]);
      CrossAsWedges(c[0], c[j - 1], c[j]);
      CrossAsWedges(c[j - 1], c[j], c[j + 1]);
      CrossAsWedges(c[0], c[j], c[j + 1]);
      assert Cross(c[j - 1], c[j - 1 + 1], c[j - 1 + 2]) > 0;
      assert Order(dir, c[0], c[j - 1]) && Order(dir, c[j - 1], c[j]) && Order(dir, c[j], c[j + 1]);
      TurningOnEitherWay(dir, p, q, r);
      WedgeOfSum(p, q, r);
      assert Minus(c[j], c[0]) == Plus(p, q);
    }
  }

  /** A chain bulges to one side of the line between its ends. */
  lemma Bulges(dir: int, c: seq<Point>, j: nat)
    requires dir == 1 || dir == -1
    requires Sorted(dir, c) && TurnsAlong(c)
    requires 1 <= j && j + 1 < |c|
    ensures Cross(c[0], c[j], c[|c| - 1]) > 0
  {
    LooksBack(dir, c, j);
    if j + 2 < |c| {
      hide Cross, Wedge, Forward, Scale;
      NotStill(c[0], c[j], c[j + 1]);
      SeesAhead(dir, c, j, |c| - 1);
      var p, q, r := Minus(c[j], c[0]), Minus(c[j + 1], c[j]), Minus(c[|c| - 1], c[j]);
      CrossAsWedges(c[0], c[j], c[j + 1]);
      CrossAsWedges(c[j], c[j + 1], c[|c| - 1]);
      CrossAsWedges(c[0], c[j], c[|c| - 1]);
      assert Order(dir, c[0], c[j]) && Order(dir, c[j], c[j + 1]) && Order(dir, c[j], c[|c| - 1]);
      TurningOnEitherWay(dir, p, q, r);
    }
  }

  lemma ChainDistinct(dir: int, c: seq<Point>, i: nat, j: nat)
    requires dir == 1 || dir == -1
    requires Sorted(dir, c) && TurnsAlong(c) && |c| >= 2 && c[0] != c[|c| - 1]
    requires i < j < |c|
    ensures c[i] != c[j]
  {
    StepsForward(dir, c, i);
    assert Order(dir, c[i], c[i + 1]);
    assert i + 1 < j ==> Order(dir, c[i + 1], c[j]);
    OrderLaws(dir, c[i], c[i + 1], c[j]);
  }

  /** Between their ends, one chain is above the line and the other below. */
  lemma OppositeSides(lower: seq<Point>, upper: seq<Point>, i: nat, j: nat)
    requires Sorted(1, lower) && TurnsAlong(lower) && Sorted(-1, upper) && TurnsAlong(upper)
    requires 1 <= i && i + 1 < |lower| && 1 <= j && j + 1 < |upper|
    requires lower[0] == upper[|upper| - 1] && lower[|lower| - 1] == upper[0]
    ensures lower[i] != upper[j]
  {
    Bulges(1, lower, i);
    Bulges(-1, upper, j);
    CrossAsWedges(upper[j], upper[0], lower[0]);
    CrossAsWedges(upper[0], upper[j], lower[0]);
    CrossAsWedges(lower[0], upper[j], upper[0]);
    CrossAsWedges(lower[0], upper[0], upper[j]);
  }

  lemma CornersDiffer(lower: seq<Point>, upper: seq<Point>, i: nat, j: nat)
    requires Sorted(1, lower) && TurnsAlong(lower) && Sorted(-1, upper) && TurnsAlong(upper)
    requires |lower| >= 2 && |upper| >= 2
    requires lower[0] == upper[|upper| - 1] != lower[|lower| - 1] == upper[0]
    requires i < j < |lower| + |upper| - 2
    ensures Joined(lower, upper)[i] != Joined(lower, upper)[j]
  {
    hide Sorted, TurnsAlong;
    var poly, a := Joined(lower, upper), |lower| - 1;
    if j < a {
      ChainDistinct(1, lower, i, j);
    } else if i >= a {
      ChainDistinct(-1, upper, i - a, j - a);
    } else if i == 0 {
      ChainDistinct(-1, upper, j - a, |upper| - 1);
    } else if j == a {
      ChainDistinct(1, lower, i, a);
    } else {
      OppositeSides(lower, upper, i, j - a);
    }
  }

  lemma JoinedDistinct(pts: seq<Point>, lower: seq<Point>, upper: seq<Point>)
    requires BothWays(pts, lower, upper)
    ensures |lower| >= 2 && |upper| >= 2 && Distinct(Joined(lower, upper))
  {
    hide Sorted, TurnsAlong, Spread, Within;
    ChainEnds(pts, lower, upper);
    forall i: nat, j: nat | i < j < |Joined(lower, upper)|
      ensures Joined(lower, upper)[i] != Joined(lower, upper)[j]
    {
      CornersDiffer(lower, upper, i, j);
    }
  }

  lemma TurnsNeedThree(poly: seq<Point>)
    requires |poly| >= 2 && TurnsAtEveryCorner(poly)
    ensures |poly| >= 3
  {
    assert Cross(poly[0], poly[Next(|poly|, 0)], poly[Next(|poly|, Next(|poly|, 0))]) > 0;
  }

  /** The two chains make one convex polygon round all the points, its corners among them. */
  lemma JoinedIsConvex(pts: seq<Point>, lower: seq<Point>, upper: seq<Point>)
    requires BothWays(pts, lower, upper)
    ensures |lower| >= 2 && |upper| >= 2
    ensures
      var poly := Joined(lower, upper);
      && |poly| >= 3
      && TurnsAtEveryCorner(poly)
      && ConvexPosition(poly)
      && (forall p :: p in poly ==> p in pts)
      && (forall q :: q in pts ==> Encloses(poly, q))
  {
    ChainEnds(pts, lower, upper);
    JoinedTurns(pts, lower, upper);
    JoinedDistinct(pts, lower, upper);
    hide BothWays, Wraps, Encloses, Distinct, ConvexPosition, TurnsAtEveryCorner;
    var poly := Joined(lower, upper);
    TurnsNeedThree(poly);
    forall q | q in pts
      ensures Encloses(poly, q)
    {
      JoinedEncloses(pts, lower, upper, q);
    }
    assert forall p :: p in poly ==> p in lower || p in upper;
    EdgesMakeItConvex(poly);
  }
}
