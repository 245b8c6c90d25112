/** Downhill simplex search over any real function: no round loses the best corner. */
module Minimise {
  import opened Options
  import opened Sorting

  type Point = seq<real>

  /** A corner of the simplex with the function's value there. */
  datatype Vertex = Vertex(x: Point, value: real)

  ghost predicate Simplex(f: Point -> real, n: nat, s: seq<Vertex>) {
    |s| == n + 1 && forall i :: 0 <= i < |s| ==> |s[i].x| == n && s[i].value == f(s[i].x)
  }

  // ---------- Sorted by value ----------

  function Value(v: Vertex): real {
    v.value
  }

  lemma SortedSimplex(f: Point -> real, n: nat, s: seq<Vertex>)
    requires Simplex(f, n, s)
    ensures Simplex(f, n, Sorted(s, Value))
  {
    var t := Sorted(s, Value);
    SortedSorts(s, Value);
    forall i | 0 <= i < |t|
      ensures |t[i].x| == n && t[i].value == f(t[i].x)
    {
      assert t[i] in s;
    }
  }

  // ---------- One round ----------

  function SumAt(s: seq<Vertex>, j: nat): real
    requires forall i :: 0 <= i < |s| ==> j < |s[i].x|
  {
    if s == [] then 0.0 else SumAt(s[..|s| - 1], j) + s[|s| - 1].x[j]
  }

  /** The middle of all but the last. */
  function Middle(n: nat, s: seq<Vertex>): (m: Point)
    requires n > 0 && |s| == n + 1 && forall i :: 0 <= i < |s| ==> |s[i].x| == n
    ensures |m| == n
  {
    seq(n, j requires 0 <= j < n => SumAt(s[..n], j) / n as real)
  }

  /** From the middle towards the worst, so many times as far. */
  function Toward(middle: Point, worst: Point, t: real): (p: Point)
    requires |middle| == |worst|
    ensures |p| == |middle|
  {
    seq(|middle|, j requires 0 <= j < |middle| => middle[j] + t * (worst[j] - middle[j]))
  }

  function Halfway(best: Point, p: Point): (q: Point)
    requires |best| == |p|
    ensures |q| == |p|
  {
    seq(|p|, j requires 0 <= j < |p| => best[j] + 0.5 * (p[j] - best[j]))
  }

  function Shrunk(f: Point -> real, n: nat, s: seq<Vertex>): (r: seq<Vertex>)
    requires |s| == n + 1 && forall i :: 0 <= i < |s| ==> |s[i].x| == n
    ensures |r| == |s| && r[0] == s[0]
    ensures forall i :: 1 <= i < |s| ==> r[i] == Vertex(Halfway(s[0].x, s[i].x), f(Halfway(s[0].x, s[i].x)))
  {
    [s[0]] + seq(n, i requires 0 <= i < n =>
      var x := Halfway(s[0].x, s[i + 1].x);
      Vertex(x, f(x)))
  }

  function At(f: Point -> real, x: Point): Vertex {
    Vertex(x, f(x))
  }

  /** The corner to put for the worst of a sorted simplex, if there is one: reflected,
      further out, or nearer in. */
  function InItsPlace(f: Point -> real, n: nat, s: seq<Vertex>): Option<Vertex>
    requires n > 0 && Simplex(f, n, s)
  {
    var best, worst, next, middle := s[0], s[n], s[n - 1], Middle(n, s);
    var reflected := At(f, Toward(middle, worst.x, -1.0));
    if reflected.value < best.value then
      var expanded := At(f, Toward(middle, worst.x, -2.0));
      Some(if expanded.value < reflected.value then expanded else reflected)
    else if reflected.value < next.value then Some(reflected)
    else
      var contracted := At(f, Toward(middle, worst.x, if reflected.value < worst.value then -0.5 else 0.5));
      if contracted.value < reflected.value && contracted.value < worst.value then Some(contracted) else None
  }

  function Round(f: Point -> real, n: nat, s: seq<Vertex>): seq<Vertex>
    requires n > 0 && Simplex(f, n, s)
  {
    SortedSimplex(f, n, s);
    var t := Sorted(s, Value);
    match InItsPlace(f, n, t)
    case Some(v) => t[n := v]
    case None => Shrunk(f, n, t)
  }

  /** What a round does: the worst corner gives way to a better one and the others
      stay, or none was found, the best stays and the rest come halfway to it. */
  lemma RoundReplacesOrShrinks(f: Point -> real, n: nat, s: seq<Vertex>)
    requires n > 0 && Simplex(f, n, s)
    ensures Simplex(f, n, Round(f, n, s))
    ensures
      var t := Sorted(s, Value);
      Simplex(f, n, t) &&
      match InItsPlace(f, n, t)
      case Some(v) => v.value < t[n].value && multiset(Round(f, n, s)) == multiset(s) - multiset{t[n]} + multiset{v}
      case None => Round(f, n, s) == Shrunk(f, n, t)
  {
    var t := Sorted(s, Value);
    SortedSimplex(f, n, s);
    SortedSorts(s, Value);
    assert t[n - 1].value <= t[n].value && t[0].value <= t[n].value;
    hide Sorted;
    PutInIsBetter(f, n, t);
    hide InItsPlace, Middle, Toward, Halfway;
    if InItsPlace(f, n, t).Some? {
      OneReplaced(t, n, InItsPlace(f, n, t).value);
    }
  }

  lemma PutInIsBetter(f: Point -> real, n: nat, s: seq<Vertex>)
    requires n > 0 && Simplex(f, n, s) && s[0].value <= s[n].value && s[n - 1].value <= s[n].value
    ensures InItsPlace(f, n, s).Some? ==>
      var v := InItsPlace(f, n, s).value;
      v.value < s[n].value && |v.x| == n && v.value == f(v.x)
  {
    hide Middle, Toward;
  }

  lemma OneReplaced(s: seq<Vertex>, n: nat, v: Vertex)
    requires |s| == n + 1
    ensures multiset(s[n := v]) == multiset(s) - multiset{s[n]} + multiset{v}
  {
  }

  // ---------- Where the points tried are ----------

  /** A sum over corners is the sum over the first of them and over the rest. */
  lemma {:induction false} SumsJoin(a: seq<Vertex>, b: seq<Vertex>, j: nat)
    requires forall i :: 0 <= i < |a + b| ==> j < |(a + b)[i].x|
    ensures forall i :: 0 <= i < |a| ==> j < |a[i].x|
    ensures forall i :: 0 <= i < |b| ==> j < |b[i].x|
    ensures SumAt(a + b, j) == SumAt(a, j) + SumAt(b, j)
    decreases |b|
  {
    assert forall i :: 0 <= i < |a| ==> a[i] == (a + b)[i];
    assert forall i :: 0 <= i < |b| ==> b[i] == (a + b)[|a| + i];
    if b == [] {
      assert a + b == a;
    } else {
      var less := b[..|b| - 1];
      assert (a + b)[..|a + b| - 1] == a + less;
      SumsJoin(a, less, j);
    }
  }

  /** And over one corner, that corner's own number. */
  lemma SumOfOne(v: Vertex, j: nat)
    requires j < |v.x|
    ensures SumAt([v], j) == v.x[j]
  {
    assert [v][..0] == [];
  }

  /** A point on the line from the worst corner through the mean of the `n` others, where
      `t` of the way back from that mean is: 1 at the worst, −1 as far beyond. */
  ghost predicate OnTheLine(n: nat, s: seq<Vertex>, p: Point, t: real)
    requires |s| == n + 1 && forall i :: 0 <= i < |s| ==> |s[i].x| == n
  {
    |p| == n && forall j :: 0 <= j < n ==> n as real * (p[j] - t * s[n].x[j]) == (1.0 - t) * SumAt(s[..n], j)
  }

  /** There is one such point. */
  lemma OneOnTheLine(n: nat, s: seq<Vertex>, p: Point, t: real)
    requires n > 0 && |s| == n + 1 && forall i :: 0 <= i < |s| ==> |s[i].x| == n
    ensures OnTheLine(n, s, p, t) <==> p == Toward(Middle(n, s), s[n].x, t)
  {
    var q := Toward(Middle(n, s), s[n].x, t);
    hide SumAt, OnTheLine;
    forall j | 0 <= j < n
      ensures n as real * (q[j] - t * s[n].x[j]) == (1.0 - t) * SumAt(s[..n], j)
    {
      Reckoned(n as real, SumAt(s[..n], j), Middle(n, s)[j], s[n].x[j], t);
    }
    hide Toward, Middle;
    TheyAreOne(n, s, p, q, t);
  }

  lemma TheyAreOne(n: nat, s: seq<Vertex>, p: Point, q: Point, t: real)
    requires n > 0 && |s| == n + 1 && |q| == n && forall i :: 0 <= i < |s| ==> |s[i].x| == n
    requires forall j :: 0 <= j < n ==> n as real * (q[j] - t * s[n].x[j]) == (1.0 - t) * SumAt(s[..n], j)
    ensures OnTheLine(n, s, p, t) <==> p == q
  {
    hide SumAt;
    if OnTheLine(n, s, p, t) {
      forall j | 0 <= j < n
        ensures p[j] == q[j]
      {
        OneSolution(n as real, p[j], q[j], t * s[n].x[j], (1.0 - t) * SumAt(s[..n], j));
      }
    }
  }

  lemma Reckoned(n: real, sum: real, mean: real, worst: real, t: real)
    requires n > 0.0 && mean == sum / n
    ensures n * (mean + t * (worst - mean) - t * worst) == (1.0 - t) * sum
  {
    assert n * mean == sum;
    assert mean + t * (worst - mean) - t * worst == (1.0 - t) * mean;
    assert n * ((1.0 - t) * mean) == (1.0 - t) * (n * mean);
  }

  lemma OneSolution(n: real, p: real, q: real, less: real, sum: real)
    requires n > 0.0 && n * (p - less) == sum && n * (q - less) == sum
    ensures p == q
  {
    assert n * (p - q) == 0.0;
  }

  /** Which of the points tried is put for the worst, by the function at them alone: the
      reflection, or as far again past it, when it is better than the best; the
      reflection when it is better than the next worst; or a point half as far, on the
      better side, when that is better than what is on that side. */
  lemma WhatIsPutIn(f: Point -> real, n: nat, s: seq<Vertex>, p: Point, far: Point, near: Point, back: Point)
    requires n > 0 && Simplex(f, n, s)
    requires OnTheLine(n, s, p, -1.0) && OnTheLine(n, s, far, -2.0)
    requires OnTheLine(n, s, near, -0.5) && OnTheLine(n, s, back, 0.5)
    ensures
      InItsPlace(f, n, s) ==
      if f(p) < s[0].value then Some(if f(far) < f(p) then Vertex(far, f(far)) else Vertex(p, f(p)))
      else if f(p) < s[n - 1].value then Some(Vertex(p, f(p)))
      else if f(p) < s[n].value then if f(near) < f(p) then Some(Vertex(near, f(near))) else None
      else if f(back) < s[n].value then Some(Vertex(back, f(back)))
      else None
  {
    OneOnTheLine(n, s, p, -1.0);
    OneOnTheLine(n, s, far, -2.0);
    OneOnTheLine(n, s, near, -0.5);
    OneOnTheLine(n, s, back, 0.5);
    hide Toward, Middle, OnTheLine;
  }

  /** The corners of a round that found none are midway between where they were and the
      best, which stays, each with the function's value there. */
  lemma ShrunkIsMidway(f: Point -> real, n: nat, s: seq<Vertex>, i: nat, j: nat)
    requires n > 0 && Simplex(f, n, s) && i <= n && j < n
    requires (SortedSimplex(f, n, s); InItsPlace(f, n, Sorted(s, Value))) == None
    ensures
      var t, u := Sorted(s, Value), Round(f, n, s);
      && |t| == |u| == n + 1 && |t[i].x| == |u[i].x| == |t[0].x| == n
      && 2.0 * u[i].x[j] == t[0].x[j] + t[i].x[j] && u[i].value == f(u[i].x)
  {
    SortedSimplex(f, n, s);
    RoundReplacesOrShrinks(f, n, s);
    hide Sorted, InItsPlace, Round;
  }

  // ---------- Every round ----------

  /** The least value of the corners is no more than this. */
  ghost predicate NoMoreThan(s: seq<Vertex>, value: real) {
    exists v :: v in s && v.value <= value
  }

  function Rounds(f: Point -> real, n: nat, s: seq<Vertex>, k: nat): (r: seq<Vertex>)
    requires n > 0 && Simplex(f, n, s)
    ensures Simplex(f, n, r)
  {
    if k == 0 then s
    else
      RoundReplacesOrShrinks(f, n, Rounds(f, n, s, k - 1));
      Round(f, n, Rounds(f, n, s, k - 1))
  }

  /** The best value never goes up in a round, reflected, expanded, contracted or shrunk. */
  lemma BestNeverUp(f: Point -> real, n: nat, s: seq<Vertex>)
    requires n > 0 && Simplex(f, n, s)
    ensures forall v :: v in s ==> NoMoreThan(Round(f, n, s), v.value)
  {
    var t, u := Sorted(s, Value), Round(f, n, s);
    SortedSimplex(f, n, s);
    SortedSorts(s, Value);
    RoundReplacesOrShrinks(f, n, s);
    hide Middle, Toward, Halfway, Sorted, InItsPlace;
    forall v | v in s
      ensures NoMoreThan(u, v.value)
    {
      assert v in t;
      assert t[0].value <= v.value;
      assert u[0] in u && u[0] == t[0];
    }
  }

  lemma {:induction false} BestNeverUpOver(f: Point -> real, n: nat, s: seq<Vertex>, k: nat)
    requires n > 0 && Simplex(f, n, s)
    ensures forall v :: v in s ==> NoMoreThan(Rounds(f, n, s, k), v.value)
  {
    if k > 0 {
      var before := Rounds(f, n, s, k - 1);
      BestNeverUpOver(f, n, s, k - 1);
      BestNeverUp(f, n, before);
      hide Round, Simplex, NoMoreThan;
      forall v | v in s
        ensures NoMoreThan(Rounds(f, n, s, k), v.value)
      {
        LowerStill(before, Round(f, n, before), v.value);
      }
    } else {
      hide Simplex;
    }
  }

  lemma LowerStill(s: seq<Vertex>, u: seq<Vertex>, value: real)
    requires NoMoreThan(s, value) && forall v :: v in s ==> NoMoreThan(u, v.value)
    ensures NoMoreThan(u, value)
  {
    var v :| v in s && v.value <= value;
    var w :| w in u && w.value <= v.value;
  }

  // ---------- Minimising ----------

  function Stepped(start: Point, step: Point, i: nat): Point
    requires |start| <= |step| && i < |start|
  {
    start[i := start[i] + step[i]]
  }

  function Begun(f: Point -> real, start: Point, step: Point): (s: seq<Vertex>)
    requires |start| <= |step|
    ensures Simplex(f, |start|, s)
    ensures s[0].x == start && forall i :: 0 <= i < |start| ==> s[i + 1].x == Stepped(start, step, i)
  {
    [At(f, start)] + seq(|start|, i requires 0 <= i < |start| => At(f, Stepped(start, step, i)))
  }

  /** The search begins at the start and at each point one step from it along one axis. */
  lemma WhereItBegins(f: Point -> real, start: Point, step: Point, i: nat, j: nat)
    requires |start| <= |step| && i < |start| && j < |start|
    ensures
      var s := Begun(f, start, step);
      && |s| == |start| + 1 && s[0] == Vertex(start, f(start)) && |s[i + 1].x| == |start|
      && s[i + 1].x[j] == (if j == i then start[j] + step[j] else start[j]) && s[i + 1].value == f(s[i + 1].x)
  {
  }

  /** One round is a round, and so many and more are those and then more. */
  lemma {:induction false} RoundsJoin(f: Point -> real, n: nat, s: seq<Vertex>, k: nat, m: nat)
    requires n > 0 && Simplex(f, n, s)
    ensures Rounds(f, n, s, 1) == Round(f, n, s)
    ensures Rounds(f, n, s, k + m) == Rounds(f, n, Rounds(f, n, s, k), m)
  {
    hide Round;
    assert Rounds(f, n, s, 0) == s;
    if m > 0 {
      RoundsJoin(f, n, s, k, m - 1);
      assert k + m - 1 == k + (m - 1);
    }
  }

  /** With no numbers to move there is no next worst, and a round throws. */
  method Minimise(f: Point -> real, start: Point, step: Point, rounds: nat) returns (r: Option<Vertex>)
    requires |start| <= |step|
    ensures r == None <==> start == [] && rounds > 0
    ensures r.Some? && start != [] ==> r.value == Sorted(Rounds(f, |start|, Begun(f, start, step), rounds), Value)[0]
    ensures r.Some? ==> |r.value.x| == |start| && r.value.value == f(r.value.x)
    ensures r.Some? ==> r.value.value <= f(start)
    ensures r.Some? ==> forall i :: 0 <= i < |start| ==> r.value.value <= f(Stepped(start, step, i))
  {
    var n := |start|;
    var simplex := Begun(f, start, step);
    if n == 0 {
      r := if rounds > 0 then None else Some(simplex[0]);
      return;
    }
    ghost var begun := simplex;
    for k := 0 to rounds
      invariant Simplex(f, n, simplex) && simplex == Rounds(f, n, begun, k)
    {
      RoundReplacesOrShrinks(f, n, simplex);
      simplex := OneRound(f, n, simplex);
    }
    BestNeverUpOver(f, n, begun, rounds);
    SortedSorts(simplex, Value);
    SortedSimplex(f, n, simplex);
    ghost var last := simplex;
    simplex := Sorted(simplex, Value);
    r := Some(simplex[0]);
    forall v | v in begun
      ensures r.value.value <= v.value
    {
      var u :| u in last && u.value <= v.value;
      assert u in simplex;
    }
    assert forall i :: 0 <= i <= n ==> begun[i] in begun;
  }

  method OneRound(f: Point -> real, n: nat, s: seq<Vertex>) returns (simplex: seq<Vertex>)
    requires n > 0 && Simplex(f, n, s)
    ensures simplex == Round(f, n, s)
  {
    SortedSimplex(f, n, s);
    simplex := Sorted(s, Value);
    var best, worst, next := simplex[0], simplex[n], simplex[n - 1];
    var middle := Middle(n, simplex);
    var reflected := Toward(middle, worst.x, -1.0);
    var r := f(reflected);
    if r < best.value {
      var expanded := Toward(middle, worst.x, -2.0);
      var e := f(expanded);
      simplex := simplex[n := if e < r then Vertex(expanded, e) else Vertex(reflected, r)];
    } else if r < next.value {
      simplex := simplex[n := Vertex(reflected, r)];
    } else {
      var contracted := Toward(middle, worst.x, if r < worst.value then -0.5 else 0.5);
      var c := f(contracted);
      if c < (if r < worst.value then r else worst.value) {
        simplex := simplex[n := Vertex(contracted, c)];
      } else {
        simplex := Shrunk(f, n, simplex);
      }
    }
  }
}
