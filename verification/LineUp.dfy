/** Choosing shifts between neighbouring layers: by ring where they close, else pair by pair. */
module LineUp {
  import opened Options
  import opened Sorting

  /** A row of match scores to each pair of neighbours; place `s + reach` is shift `s`. */
  type Curves = seq<seq<real>>

  ghost predicate Wide(curves: Curves, reach: int) {
    reach >= 0 && forall k :: 0 <= k < |curves| ==> |curves[k]| == 2 * reach + 1
  }

  predicate InReach(v: seq<int>, reach: int) {
    forall k :: 0 <= k < |v| ==> -reach <= v[k] <= reach
  }

  function Sum(v: seq<int>): int {
    if v == [] then 0 else Sum(v[..|v| - 1]) + v[|v| - 1]
  }

  /** How well the first layers match, moved so. */
  function Score(curves: Curves, reach: int, v: seq<int>): real
    requires Wide(curves, reach) && |v| <= |curves| && InReach(v, reach)
  {
    if v == [] then 0.0
    else Score(curves, reach, v[..|v| - 1]) + curves[|v| - 1][v[|v| - 1] + reach]
  }

  /** One shift to each pair, in reach, that sum to nothing. */
  ghost predicate Ring(curves: Curves, reach: int, v: seq<int>) {
    |v| == |curves| && InReach(v, reach) && Sum(v) == 0
  }

  /** The best found so far; without a score, the one to begin with. */
  datatype Best = Best(shifts: seq<int>, score: Option<real>)

  predicate Beats(score: real, best: Best) {
    best.score.None? || score > best.score.value
  }

  // ---------- The search ----------

  /** What is best once every way to go on from these shifts has been tried. */
  function TriedFrom(curves: Curves, reach: int, shifts: seq<int>, best: Best): Best
    requires Wide(curves, reach) && |shifts| < |curves| && InReach(shifts, reach)
    decreases |curves| - |shifts|, 1, 0
  {
    if |shifts| == |curves| - 1 then
      var last := -Sum(shifts);
      if -reach <= last <= reach then
        var score := Score(curves, reach, shifts) + curves[|shifts|][last + reach];
        if Beats(score, best) then Best(shifts + [last], Some(score)) else best
      else best
    else TriedEach(curves, reach, shifts, -reach, best)
  }

  function TriedEach(curves: Curves, reach: int, shifts: seq<int>, s: int, best: Best): Best
    requires Wide(curves, reach) && |shifts| < |curves| - 1 && InReach(shifts, reach) && -reach <= s <= reach + 1
    decreases |curves| - |shifts|, 0, reach + 1 - s
  {
    if s > reach then best
    else TriedEach(curves, reach, shifts, s + 1, TriedFrom(curves, reach, shifts + [s], best))
  }

  class Search {
    const curves: Curves
    const reach: int
    var shifts: seq<int>
    var best: Best

    constructor (curves: Curves, reach: int, zeros: seq<int>)
      ensures this.curves == curves && this.reach == reach
      ensures shifts == [] && best == Best(zeros, None)
    {
      this.curves, this.reach := curves, reach;
      shifts, best := [], Best(zeros, None);
    }

    /** Backtracks over the shifts after the first `k`, the last being forced by the
        sum: `best` ends as `TriedFrom`, and `shifts` as it began. */
    method TryFrom(k: nat, sum: int, total: real)
      requires Wide(curves, reach) && k == |shifts| < |curves| && InReach(shifts, reach)
      requires sum == Sum(shifts) && total == Score(curves, reach, shifts)
      modifies this
      ensures shifts == old(shifts)
      ensures best == TriedFrom(curves, reach, shifts, old(best))
      decreases |curves| - k
    {
      if k == |curves| - 1 {
        var last := -sum;
        if -reach <= last <= reach {
          var score := total + curves[k][last + reach];
          if Beats(score, best) {
            best := Best(shifts + [last], Some(score));
          }
        }
        return;
      }
      for s := -reach to reach + 1
        invariant shifts == old(shifts)
        invariant TriedEach(curves, reach, shifts, s, best) == TriedFrom(curves, reach, shifts, old(best))
      {
        shifts := shifts + [s];
        assert shifts[..k] == old(shifts);
        TryFrom(k + 1, sum + s, total + curves[k][s + reach]);
        shifts := shifts[..k];
      }
    }
  }

  // ---------- What it finds ----------

  ghost predicate Extends(v: seq<int>, shifts: seq<int>) {
    shifts <= v
  }

  /** `u` is tried before `v`. */
  ghost predicate Sooner(u: seq<int>, v: seq<int>) {
    exists i :: 0 <= i < |u| && i < |v| && u[..i] == v[..i] && u[i] < v[i]
  }

  /** A ring vector, scored, that beat what was best before, scores as well as every
      one in the range tried, and better than those tried sooner. */
  ghost predicate Found(curves: Curves, reach: int, shifts: seq<int>, from: int, before: Best, after: Best)
    requires Wide(curves, reach) && |shifts| < |curves|
  {
    && (after == before ||
        (&& Ring(curves, reach, after.shifts) && Extends(after.shifts, shifts) && after.shifts[|shifts|] >= from
         && after.score == Some(Score(curves, reach, after.shifts)) && Beats(after.score.value, before)))
    && (forall v :: Ring(curves, reach, v) && Extends(v, shifts) && v[|shifts|] >= from ==>
          !Beats(Score(curves, reach, v), after))
    && (after != before ==>
          forall v :: Ring(curves, reach, v) && Extends(v, shifts) && v[|shifts|] >= from && Sooner(v, after.shifts) ==>
            Score(curves, reach, v) < after.score.value)
  }

  lemma RingEnds(curves: Curves, reach: int, shifts: seq<int>, v: seq<int>)
    requires Wide(curves, reach) && |shifts| == |curves| - 1 && InReach(shifts, reach)
    ensures Ring(curves, reach, v) && Extends(v, shifts) <==>
      v == shifts + [-Sum(shifts)] && -reach <= Sum(shifts) <= reach
    ensures v == shifts + [-Sum(shifts)] && -reach <= Sum(shifts) <= reach ==>
      Score(curves, reach, v) == Score(curves, reach, shifts) + curves[|shifts|][-Sum(shifts) + reach]
  {
    if Extends(v, shifts) && |v| == |curves| {
      assert v[..|v| - 1] == shifts;
      assert v == shifts + [v[|shifts|]];
    }
    var w := shifts + [-Sum(shifts)];
    assert w[..|w| - 1] == shifts;
  }

  lemma NotSoonerThanItself(v: seq<int>)
    ensures !Sooner(v, v)
  {
  }

  lemma {:induction false} TriedFromFinds(curves: Curves, reach: int, shifts: seq<int>, best: Best)
    requires Wide(curves, reach) && |shifts| < |curves| && InReach(shifts, reach)
    ensures Found(curves, reach, shifts, -reach, best, TriedFrom(curves, reach, shifts, best))
    decreases |curves| - |shifts|, 1, 0
  {
    if |shifts| == |curves| - 1 {
      var w := shifts + [-Sum(shifts)];
      forall v | Ring(curves, reach, v) && Extends(v, shifts)
        ensures v == w && -reach <= Sum(shifts) <= reach
      {
        RingEnds(curves, reach, shifts, v);
      }
      RingEnds(curves, reach, shifts, w);
      NotSoonerThanItself(w);
    } else {
      TriedEachFinds(curves, reach, shifts, -reach, best);
    }
  }

  lemma {:induction false} TriedEachFinds(curves: Curves, reach: int, shifts: seq<int>, s: int, best: Best)
    requires Wide(curves, reach) && |shifts| < |curves| - 1 && InReach(shifts, reach) && -reach <= s <= reach + 1
    ensures Found(curves, reach, shifts, s, best, TriedEach(curves, reach, shifts, s, best))
    decreases |curves| - |shifts|, 0, reach + 1 - s
  {
    if s <= reach {
      var once := TriedFrom(curves, reach, shifts + [s], best);
      TriedFromFinds(curves, reach, shifts + [s], best);
      TriedEachFinds(curves, reach, shifts, s + 1, once);
      FoundInBoth(curves, reach, shifts, s, best, once, TriedEach(curves, reach, shifts, s + 1, once));
    }
  }

  lemma ExtendsByOne(curves: Curves, reach: int, shifts: seq<int>, s: int, v: seq<int>)
    requires |shifts| < |curves| - 1 && Ring(curves, reach, v)
    ensures Extends(v, shifts + [s]) <==> Extends(v, shifts) && v[|shifts|] == s
    ensures v[|shifts| + 1] >= -reach
  {
    if Extends(v, shifts) && v[|shifts|] == s {
      assert v[..|shifts| + 1] == shifts + [s];
    }
    if Extends(v, shifts + [s]) {
      assert (shifts + [s])[..|shifts|] == shifts && v[..|shifts|] == shifts;
      assert v[|shifts|] == (shifts + [s])[|shifts|];
    }
  }

  lemma SoonerHasLess(u: seq<int>, v: seq<int>, shifts: seq<int>)
    requires Extends(u, shifts) && Extends(v, shifts) && |shifts| < |u| && |shifts| < |v| && Sooner(u, v)
    ensures u[|shifts|] <= v[|shifts|]
  {
    var i :| 0 <= i < |u| && i < |v| && u[..i] == v[..i] && u[i] < v[i];
    var k := |shifts|;
    assert forall j :: 0 <= j < k ==> u[j] == shifts[j] == v[j];
    assert i > k ==> u[k] == u[..i][k] == v[..i][k];
  }

  lemma FoundInBoth(curves: Curves, reach: int, shifts: seq<int>, s: int, before: Best, once: Best, after: Best)
    requires Wide(curves, reach) && |shifts| < |curves| - 1 && InReach(shifts, reach) && -reach <= s <= reach
    requires Found(curves, reach, shifts + [s], -reach, before, once)
    requires Found(curves, reach, shifts, s + 1, once, after)
    ensures Found(curves, reach, shifts, s, before, after)
  {
    hide Score, Sum, InReach;
    if after != before && after == once {
      ExtendsByOne(curves, reach, shifts, s, after.shifts);
    }
    forall v | Ring(curves, reach, v) && Extends(v, shifts) && v[|shifts|] >= s
      ensures !Beats(Score(curves, reach, v), after)
      ensures after != before && Sooner(v, after.shifts) ==> Score(curves, reach, v) < after.score.value
    {
      ExtendsByOne(curves, reach, shifts, s, v);
      if after != before && Sooner(v, after.shifts) && after == once {
        SoonerHasLess(v, after.shifts, shifts);
      }
    }
  }

  lemma {:induction false} ZerosAreARing(curves: Curves, reach: int, n: nat)
    requires reach >= 0
    ensures var zeros := seq(n, i => 0); Sum(zeros) == 0 && InReach(zeros, reach)
  {
    if n > 0 {
      ZerosAreARing(curves, reach, n - 1);
      assert seq(n, i => 0)[..n - 1] == seq(n - 1, i => 0);
    }
  }

  function BestRing(curves: Curves, reach: int): Best
    requires Wide(curves, reach) && curves != []
  {
    TriedFrom(curves, reach, [], Best(seq(|curves|, i => 0), None))
  }

  /** The search always finds a ring; it is within reach and comes back to where it
      started, none scores higher, and none tried sooner scores as high. */
  lemma RingBest(curves: Curves, reach: int)
    requires Wide(curves, reach) && curves != []
    ensures
      var b := BestRing(curves, reach);
      && Ring(curves, reach, b.shifts)
      && b.score == Some(Score(curves, reach, b.shifts))
      && (forall v :: Ring(curves, reach, v) ==> Score(curves, reach, v) <= Score(curves, reach, b.shifts))
      && (forall v :: Ring(curves, reach, v) && Sooner(v, b.shifts) ==>
            Score(curves, reach, v) < Score(curves, reach, b.shifts))
  {
    var zeros := seq(|curves|, i => 0);
    var before := Best(zeros, None);
    ZerosAreARing(curves, reach, |curves|);
    hide TriedFrom, Score, Sum;
    TriedFromFinds(curves, reach, [], before);
    var b := BestRing(curves, reach);
    assert Ring(curves, reach, zeros) && Extends(zeros, []);
    assert b != before;
    forall v | Ring(curves, reach, v)
      ensures Score(curves, reach, v) <= Score(curves, reach, b.shifts)
      ensures Sooner(v, b.shifts) ==> Score(curves, reach, v) < Score(curves, reach, b.shifts)
    {
      assert Extends(v, []);
      assert !Beats(Score(curves, reach, v), b);
    }
  }

  // ---------- What each pair says ----------

  /** The values of a curve that are values: −1 stands for none. */
  function SaidOf(c: seq<real>): seq<real> {
    if c == [] then [] else (if c[0] > -1.0 then [c[0]] else []) + SaidOf(c[1..])
  }

  function Itself(v: real): real {
    v
  }

  /** The middle one of what is said, of nothing said none. */
  function Usual(c: seq<real>): real {
    var said := Sorted(SaidOf(c), Itself);
    if said == [] then 0.0
    else
      assert |said| / 2 < |said|;
      said[|said| / 2]
  }

  /** What each place exceeds the median by, and 0 where there is no value. */
  function StandsOut(c: seq<real>): (r: seq<real>)
    ensures |r| == |c|
    ensures forall i :: 0 <= i < |c| ==> r[i] == if c[i] > -1.0 then c[i] - Usual(c) else 0.0
  {
    var usual := Usual(c);
    seq(|c|, i requires 0 <= i < |c| => if c[i] > -1.0 then c[i] - usual else 0.0)
  }

  function AllStandOut(matched: Curves): (r: Curves)
    ensures |r| == |matched| && forall k :: 0 <= k < |r| ==> r[k] == StandsOut(matched[k])
  {
    seq(|matched|, k requires 0 <= k < |matched| => StandsOut(matched[k]))
  }

  lemma {:induction false} SaidIs(c: seq<real>)
    ensures forall v :: v in SaidOf(c) <==> v in c && v > -1.0
  {
    if c != [] {
      SaidIs(c[1..]);
      assert c == [c[0]] + c[1..];
    }
  }

  /** The usual match is one of them, whenever there is one. */
  lemma UsualIsOne(c: seq<real>, v: real)
    requires v in c && v > -1.0
    ensures Usual(c) in c && Usual(c) > -1.0
  {
    var said := Sorted(SaidOf(c), Itself);
    SaidIs(c);
    SortedSorts(SaidOf(c), Itself);
    hide Sorted, SaidOf;
    assert v in said;
    assert said[|said| / 2] in said;
  }

  function CountIf(s: seq<real>, p: real -> bool): nat {
    if s == [] then 0 else (if p(s[0]) then 1 else 0) + CountIf(s[1..], p)
  }

  lemma {:induction false} CountJoins(a: seq<real>, b: seq<real>, p: real -> bool)
    ensures CountIf(a + b, p) == CountIf(a, p) + CountIf(b, p)
  {
    if a == [] {
      assert a + b == b;
    } else {
      assert (a + b)[1..] == a[1..] + b;
      CountJoins(a[1..], b, p);
    }
  }

  lemma {:induction false} CountIsAll(s: seq<real>, p: real -> bool)
    ensures (forall v :: v in s ==> p(v)) ==> CountIf(s, p) == |s|
    ensures (forall v :: v in s ==> !p(v)) ==> CountIf(s, p) == 0
  {
    if s != [] {
      assert forall v :: v in s <==> v == s[0] || v in s[1..];
      CountIsAll(s[1..], p);
    }
  }

  lemma {:induction false} CountSaid(c: seq<real>, p: real -> bool, q: real -> bool)
    requires forall v :: q(v) <==> v > -1.0 && p(v)
    ensures CountIf(SaidOf(c), p) == CountIf(c, q)
  {
    if c != [] {
      CountSaid(c[1..], p, q);
      assert SaidOf(c) == (if c[0] > -1.0 then [c[0]] else []) + SaidOf(c[1..]);
      assert c[0] > -1.0 ==> SaidOf(c)[1..] == SaidOf(c[1..]) && SaidOf(c)[0] == c[0];
      assert c[0] <= -1.0 ==> SaidOf(c) == SaidOf(c[1..]);
    }
  }

  lemma {:induction false} CountPlaced(v: real, s: seq<real>, p: real -> bool)
    ensures CountIf(Placed(v, s, Itself), p) == (if p(v) then 1 else 0) + CountIf(s, p)
  {
    assert ([v] + s)[1..] == s;
    if s != [] && v > s[0] {
      CountPlaced(v, s[1..], p);
      var after := Placed(v, s[1..], Itself);
      assert ([s[0]] + after)[1..] == after;
    }
  }

  lemma {:induction false} CountSorted(s: seq<real>, p: real -> bool)
    ensures CountIf(Sorted(s, Itself), p) == CountIf(s, p)
  {
    if s != [] {
      CountSorted(s[1..], p);
      CountPlaced(s[0], Sorted(s[1..], Itself), p);
    }
  }

  /** The usual match is the middle one: no more than half of those a curve has are less,
      and more than half are no more. */
  lemma UsualIsTheMiddle(c: seq<real>)
    requires exists v :: v in c && v > -1.0
    ensures
      var u, n := Usual(c), CountIf(c, v => v > -1.0);
      CountIf(c, v => -1.0 < v < u) <= n / 2 < CountIf(c, v => -1.0 < v <= u)
  {
    var all, u := SaidOf(c), Usual(c);
    var said, m := Sorted(all, Itself), |all| / 2;
    SaidIs(c);
    SortedSorts(all, Itself);
    CountSaid(c, v => true, v => v > -1.0);
    CountSaid(c, v => v < u, v => -1.0 < v < u);
    CountSaid(c, v => v <= u, v => -1.0 < v <= u);
    CountIsAll(all, v => true);
    CountSorted(all, v => v < u);
    CountSorted(all, v => v <= u);
    hide Sorted, SaidOf, CountIf, Usual;
    MiddleOf(said, m, u);
  }

  lemma MiddleOf(s: seq<real>, m: nat, u: real)
    requires Rising(s, Itself) && m < |s| && s[m] == u
    ensures CountIf(s, v => v < u) <= m < CountIf(s, v => v <= u)
  {
    assert s == s[..m] + s[m..] && s == s[..m + 1] + s[m + 1..];
    forall v | v in s[m..]
      ensures v >= u
    {
      var i :| 0 <= i < |s[m..]| && s[m..][i] == v;
      assert i > 0 ==> Itself(s[m]) <= Itself(s[m + i]);
    }
    var first := s[..m + 1];
    forall v | v in first
      ensures v <= u
    {
      var i :| 0 <= i < |first| && first[i] == v;
      assert i < m ==> Itself(s[i]) <= Itself(s[m]);
    }
    CountJoins(s[..m], s[m..], v => v < u);
    CountJoins(s[..m + 1], s[m + 1..], v => v <= u);
    CountIsAll(s[m..], v => v < u);
    CountIsAll(s[..m + 1], v => v <= u);
    AtMostAll(s[..m], v => v < u);
  }

  lemma {:induction false} AtMostAll(s: seq<real>, p: real -> bool)
    ensures CountIf(s, p) <= |s|
  {
    if s != [] {
      AtMostAll(s[1..], p);
    }
  }

  /** A curve with one value throughout has none that stands out. */
  lemma AlikeSaysNothing(c: seq<real>, v: real)
    requires forall u :: u in c && u > -1.0 ==> u == v
    ensures forall i :: 0 <= i < |c| ==> StandsOut(c)[i] == 0.0
  {
    hide Usual;
    forall i | 0 <= i < |c|
      ensures StandsOut(c)[i] == 0.0
    {
      if c[i] > -1.0 {
        UsualIsOne(c, c[i]);
      }
    }
  }

  // ---------- Lining up ----------

  /** Where each layer is moved to, the first staying, and how well they match. */
  datatype Lined = Lined(at: seq<int>, score: real)

  /** The sums of the first none, one, two, … of the shifts, one to a layer. */
  ghost predicate SumsOf(at: seq<int>, shifts: seq<int>) {
    forall k :: 0 <= k < |at| ==> k <= |shifts| && at[k] == Sum(shifts[..k])
  }

  lemma NextSum(shifts: seq<int>, k: nat)
    requires k < |shifts|
    ensures Sum(shifts[..k + 1]) == Sum(shifts[..k]) + shifts[k]
  {
    assert shifts[..k + 1][..k] == shifts[..k];
  }

  /** Positions are sums of the best ring over the stand-out curves; `None` with no
      layers, where the source throws. */
  method LineUpRing(matched: Curves, reach: int) returns (r: Option<Lined>)
    requires Wide(matched, reach)
    ensures r == None <==> matched == []
    ensures r.Some? ==>
      Wide(AllStandOut(matched), reach) &&
      var b := BestRing(AllStandOut(matched), reach);
      && |r.value.at| == |matched| && SumsOf(r.value.at, b.shifts)
      && b.score.Some? && r.value.score == b.score.value / |matched| as real
  {
    if matched == [] {
      return None;
    }
    var n, curves := |matched|, AllStandOut(matched);
    hide Usual, StandsOut, AllStandOut;
    var search := new Search(curves, reach, seq(n, i => 0));
    search.TryFrom(0, 0, 0.0);
    RingBest(curves, reach);
    var best := search.best;
    var out := [0];
    for k := 0 to n - 1
      invariant |out| == k + 1 && SumsOf(out, best.shifts)
    {
      NextSum(best.shifts, k);
      out := out + [out[k] + best.shifts[k]];
    }
    r := Some(Lined(out, best.score.value / n as real));
  }

  /** The place of a curve's best match: no shift if none is better, or else the least. */
  ghost predicate BestPlace(curve: seq<real>, reach: int, best: int) {
    && 0 <= best < |curve| && 0 <= reach < |curve|
    && (forall i :: 0 <= i < |curve| ==> curve[i] <= curve[best])
    && (curve[best] == curve[reach] ==> best == reach)
    && (curve[best] != curve[reach] ==> forall i :: 0 <= i < best ==> curve[i] < curve[best])
  }

  method PlaceOfBest(curve: seq<real>, reach: int) returns (best: int)
    requires 0 <= reach < |curve|
    ensures BestPlace(curve, reach, best)
  {
    best := reach;
    for i := 0 to |curve|
      invariant 0 <= best < |curve| && (best == reach || best < i)
      invariant forall j :: 0 <= j < i ==> curve[j] <= curve[best]
      invariant curve[reach] <= curve[best] && (best != reach ==> curve[best] > curve[reach])
      invariant best != reach ==> forall j :: 0 <= j < best ==> curve[j] < curve[best]
    {
      if curve[i] > curve[best] {
        best := i;
      }
    }
  }

  lemma OnePairMore(curves: Curves, reach: int, shifts: seq<int>, out: seq<int>, s: int)
    requires Wide(curves, reach) && |shifts| < |curves| && InReach(shifts, reach) && -reach <= s <= reach
    requires |out| == |shifts| + 1 && SumsOf(out, shifts)
    ensures InReach(shifts + [s], reach) && SumsOf(out + [out[|shifts|] + s], shifts + [s])
    ensures Score(curves, reach, shifts + [s]) == Score(curves, reach, shifts) + curves[|shifts|][s + reach]
  {
    ScoreOfOneMore(curves, reach, shifts, s);
    hide Score, Sum, SumsOf;
    SumsOfOneMore(out, shifts, s);
  }

  lemma ScoreOfOneMore(curves: Curves, reach: int, shifts: seq<int>, s: int)
    requires Wide(curves, reach) && |shifts| < |curves| && InReach(shifts, reach) && -reach <= s <= reach
    ensures InReach(shifts + [s], reach)
    ensures Score(curves, reach, shifts + [s]) == Score(curves, reach, shifts) + curves[|shifts|][s + reach]
  {
    assert (shifts + [s])[..|shifts|] == shifts;
  }

  lemma SumsOfOneMore(out: seq<int>, shifts: seq<int>, s: int)
    requires |out| == |shifts| + 1 && SumsOf(out, shifts)
    ensures SumsOf(out + [out[|shifts|] + s], shifts + [s])
  {
    var more := shifts + [s];
    assert more[..|shifts|] == shifts && shifts[..|shifts|] == shifts && more[..|more|] == more;
    NextSum(more, |shifts|);
    hide Sum;
    forall j | 0 <= j <= |shifts|
      ensures more[..j] == shifts[..j]
    {
    }
  }

  lemma Begun(curves: Curves, reach: int)
    requires Wide(curves, reach)
    ensures SumsOf([0], []) && Score(curves, reach, []) == 0.0
  {
  }

  /** Without a ring, each pair's own best shift, summed. */
  method LineUpApart(curves: Curves, reach: int) returns (r: Lined, ghost shifts: seq<int>)
    requires Wide(curves, reach)
    ensures |shifts| == |curves| && InReach(shifts, reach)
    ensures forall k :: 0 <= k < |curves| ==> BestPlace(curves[k], reach, shifts[k] + reach)
    ensures |r.at| == |curves| + 1 && SumsOf(r.at, shifts)
    ensures r.score == if curves == [] then 0.0 else Score(curves, reach, shifts) / |curves| as real
  {
    hide Score, SumsOf, BestPlace;
    var out, total := [0], 0.0;
    shifts := [];
    Begun(curves, reach);
    for k := 0 to |curves|
      invariant |shifts| == k && InReach(shifts, reach) && |out| == k + 1 && SumsOf(out, shifts)
      invariant forall j :: 0 <= j < k ==> BestPlace(curves[j], reach, shifts[j] + reach)
      invariant total == Score(curves, reach, shifts)
    {
      var best := PlaceOfBest(curves[k], reach);
      OnePairMore(curves, reach, shifts, out, best - reach);
      out := out + [out[k] + (best - reach)];
      total := total + curves[k][best];
      shifts := shifts + [best - reach];
    }
    r := Lined(out, if |curves| > 0 then total / |curves| as real else 0.0);
  }
}
