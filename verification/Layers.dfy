/** Rotating a layer's columns, which is undone by rotating back, and blending layers. */
module Layers {
  import opened Clamped
  import opened FillGaps
  import opened Grid
  import opened Options

  /** How far each pixel is trusted, and its colour, three numbers to a pixel. */
  datatype Layer = Layer(weight: seq<real>, rgb: seq<real>)

  ghost predicate Sized(l: Layer, w: nat, h: nat) {
    |l.weight| == w * h && |l.rgb| == w * h * 3
  }

  ghost predicate AllSized(layers: seq<Layer>, w: nat, h: nat) {
    forall n :: 0 <= n < |layers| ==> Sized(layers[n], w, h)
  }

  // ---------- Moved round ----------

  /** The remainder that takes the sign of what is divided. */
  function Remainder(a: int, b: int): int
    requires b > 0
  {
    if a >= 0 then a % b else -((-a) % b)
  }

  /** The column that column `i` is read from, moved round by `turn`. */
  function ReadColumn(w: nat, i: nat, turn: int): int
    requires w > 0
  {
    Remainder(i - turn + w * 8, w)
  }

  lemma Turns(a: int, k: int, w: nat)
    requires w > 0
    ensures (a + k * w) % w == a % w
  {
    var q, r := a / w, a % w;
    assert a + k * w == (q + k) * w + r;
    var q', r' := (a + k * w) / w, (a + k * w) % w;
    assert (q + k - q') * w == r' - r;
    var d := q + k - q';
    assert d >= 1 ==> d * w >= w;
    assert d <= -1 ==> d * w + w <= 0;
  }

  /** Every column is read from the row itself exactly when it is moved no more than
      eight times round, or there is one column. */
  lemma OnTheRowExactly(w: nat, turn: int)
    requires w > 0
    ensures (forall i :: 0 <= i < w ==> 0 <= ReadColumn(w, i, turn)) <==> turn <= 8 * w || w == 1
  {
    if turn > 8 * w && w > 1 {
      var over := turn - 8 * w;
      if over % w == 0 {
        assert over >= 2;
        Turns(-1, over / w, w);
        assert over == over / w * w;
        assert (over - 1) % w == (-1) % w == w - 1;
        assert ReadColumn(w, 1, turn) == -((over - 1) % w);
      } else {
        assert ReadColumn(w, 0, turn) == -(over % w);
      }
    }
  }

  /** Two columns moved seventeen round: the first is read from column minus one. */
  lemma ReadOffTheRow()
    ensures ReadColumn(2, 0, 17) == -1 && ReadPlace(2, 17, 0) == -1
  {
    assert Remainder(0 - 17 + 2 * 8, 2) == -1;
  }

  function Column(w: nat, i: nat, turn: int): (c: nat)
    requires w > 0
    ensures c < w
  {
    (i - turn) % w
  }

  lemma ReadsTheColumn(w: nat, i: nat, turn: int)
    requires w > 0 && turn <= 8 * w
    ensures ReadColumn(w, i, turn) == Column(w, i, turn)
  {
    Turns(i - turn, 8, w);
  }

  /** The place a pixel is read from. */
  function Source(w: nat, h: nat, turn: int, o: nat): (s: nat)
    requires o < w * h
    ensures s < w * h
  {
    PlaceOnGrid(w, h, o);
    CellOnGrid(w, h, Column(w, Across(w, o), turn), Down(w, o));
    Cell(w, Column(w, Across(w, o), turn), Down(w, o))
  }

  function Shifted(l: Layer, w: nat, h: nat, turn: int): (r: Layer)
    requires Sized(l, w, h)
    ensures Sized(r, w, h)
  {
    Layer(seq(w * h, o requires 0 <= o < w * h => l.weight[Source(w, h, turn, o)]),
          seq(w * h * 3, c requires 0 <= c < w * h * 3 => l.rgb[Source(w, h, turn, c / 3) * 3 + c % 3]))
  }

  lemma SourcesAdd(w: nat, h: nat, a: int, b: int, o: nat)
    requires o < w * h
    ensures Source(w, h, a, Source(w, h, b, o)) == Source(w, h, a + b, o)
  {
    PlaceOnGrid(w, h, o);
    var x, y := Across(w, o), Down(w, o);
    var c := Column(w, x, b);
    hide Cell;
    CellOf(w, c, y);
    CellOnGrid(w, h, c, y);
    ColumnsAdd(w, x, a, b);
  }

  lemma ColumnsAdd(w: nat, x: nat, a: int, b: int)
    requires w > 0
    ensures Column(w, Column(w, x, b), a) == Column(w, x, a + b)
  {
    var q := (x - b) / w;
    assert x - b == q * w + Column(w, x, b);
    Turns(Column(w, x, b) - a, q, w);
    assert Column(w, x, b) - a + q * w == x - (a + b);
  }

  /** Moved round twice is moved round by both. */
  lemma ShiftsAdd(l: Layer, w: nat, h: nat, a: int, b: int)
    requires Sized(l, w, h)
    ensures Shifted(Shifted(l, w, h, a), w, h, b) == Shifted(l, w, h, a + b)
  {
    hide Source;
    var once := Shifted(l, w, h, a);
    var twice, both := Shifted(once, w, h, b), Shifted(l, w, h, a + b);
    forall o | 0 <= o < w * h
      ensures twice.weight[o] == both.weight[o]
    {
      SourcesAdd(w, h, a, b, o);
    }
    forall c | 0 <= c < w * h * 3
      ensures twice.rgb[c] == both.rgb[c]
    {
      var s := Source(w, h, b, c / 3);
      SourcesAdd(w, h, a, b, c / 3);
      assert (s * 3 + c % 3) / 3 == s && (s * 3 + c % 3) % 3 == c % 3;
    }
    assert twice.weight == both.weight && twice.rgb == both.rgb;
  }

  lemma SourceOfNone(w: nat, h: nat, turn: int, o: nat, turns: int)
    requires o < w * h && turn == turns * w
    ensures Source(w, h, turn, o) == o
  {
    PlaceOnGrid(w, h, o);
    Turns(Across(w, o), -turns, w);
    assert -turns * w == -(turns * w);
    assert Across(w, o) < w;
    RemainderOfLess(Across(w, o), w);
  }

  lemma RemainderOfLess(a: nat, w: nat)
    requires a < w
    ensures a % w == a
  {
  }

  /** Moved right round, or not at all, a layer is as it was. */
  lemma RightRoundIsItself(l: Layer, w: nat, h: nat, turns: int)
    requires Sized(l, w, h)
    ensures Shifted(l, w, h, turns * w) == l
  {
    hide Source;
    var r := Shifted(l, w, h, turns * w);
    forall o | 0 <= o < w * h
      ensures r.weight[o] == l.weight[o]
    {
      SourceOfNone(w, h, turns * w, o, turns);
    }
    forall c | 0 <= c < w * h * 3
      ensures r.rgb[c] == l.rgb[c]
    {
      SourceOfNone(w, h, turns * w, c / 3, turns);
    }
    assert r.weight == l.weight && r.rgb == l.rgb;
  }

  /** Moved back, a layer is as it was. */
  lemma ShiftedBack(l: Layer, w: nat, h: nat, turn: int)
    requires Sized(l, w, h)
    ensures Shifted(Shifted(l, w, h, turn), w, h, -turn) == l
  {
    hide Shifted, Source, Column, Sized;
    ShiftsAdd(l, w, h, turn, -turn);
    RightRoundIsItself(l, w, h, 0);
    assert 0 * w == turn + -turn;
  }

  // What the loops do, moved however far: past eight times round to the right a
  // column comes out negative, and the read is of the row before, or outside the array.

  /** The place a pixel is read from, where it may be none. */
  function ReadPlace(w: nat, turn: int, o: nat): int
    requires w > 0
  {
    Down(w, o) * w + ReadColumn(w, Across(w, o), turn)
  }

  lemma NearTheRow(w: nat, h: nat, turn: int, o: nat)
    requires o < w * h
    ensures w > 0 && 0 < ReadPlace(w, turn, o) + w && ReadPlace(w, turn, o) < w * h
    ensures
      0 <= ReadColumn(w, Across(w, o), turn) ==>
        ReadPlace(w, turn, o) == Cell(w, ReadColumn(w, Across(w, o), turn), Down(w, o))
  {
    PlaceOnGrid(w, h, o);
    RemainderWithin(Across(w, o) - turn + w * 8, w);
    RowsUpTo(w, h, Down(w, o));
    hide Remainder, Down, Across;
  }

  lemma RemainderWithin(a: int, b: nat)
    requires b > 0
    ensures 0 < Remainder(a, b) + b && Remainder(a, b) < b
  {
  }

  lemma RowsUpTo(w: nat, h: nat, y: nat)
    requires w > 0 && y < h
    ensures 0 <= y * w && y * w + w <= w * h
  {
    CellOnGrid(w, h, w - 1, y);
  }

  /** The weight read; outside the array, no number. */
  function WeightRead(l: Layer, at: int): Option<real>
    requires at < |l.weight|
  {
    if at < 0 then None else Some(l.weight[at])
  }

  /** The colour read. A stretch that begins before the array is counted from its end,
      and from one before ends where it begins, so nothing is copied. */
  function ColourRead(l: Layer, at: int, k: nat): real
    requires |l.rgb| == |l.weight| * 3 && 0 <= at + |l.weight| && at < |l.weight| && k < 3
  {
    if at >= 0 then l.rgb[at * 3 + k]
    else if at == -1 then 0.0
    else l.rgb[(|l.weight| + at) * 3 + k]
  }

  /** The first `o` pixels are what is read for them, and the colours of the rest are none yet. */
  ghost predicate MovedTo(weight: seq<Option<real>>, rgb: seq<real>, l: Layer, w: nat, h: nat, turn: int, o: nat)
    requires Sized(l, w, h)
  {
    && |weight| == w * h && |rgb| == w * h * 3 && o <= w * h
    && (forall p :: 0 <= p < o ==> PixelMoved(weight, rgb, l, w, h, turn, p))
    && (forall c :: o * 3 <= c < |rgb| ==> rgb[c] == 0.0)
  }

  ghost predicate PixelMoved(weight: seq<Option<real>>, rgb: seq<real>, l: Layer, w: nat, h: nat, turn: int, p: nat)
    requires Sized(l, w, h) && |weight| == w * h && |rgb| == w * h * 3 && p < w * h
  {
    NearTheRow(w, h, turn, p);
    SomeRow(w, h, p);
    var at := ReadPlace(w, turn, p);
    && weight[p] == WeightRead(l, at)
    && rgb[p * 3] == ColourRead(l, at, 0)
    && rgb[p * 3 + 1] == ColourRead(l, at, 1)
    && rgb[p * 3 + 2] == ColourRead(l, at, 2)
  }

  lemma SomeRow(w: nat, h: nat, p: nat)
    requires p < w * h
    ensures w <= w * h
  {
    assert h >= 1;
    assert (h - 1) * w >= 0;
  }

  method MovePixel(l: Layer, w: nat, h: nat, turn: int, o: nat, weight: array<Option<real>>, rgb: array<real>)
    requires Sized(l, w, h) && o < w * h && MovedTo(weight[..], rgb[..], l, w, h, turn, o)
    modifies weight, rgb
    ensures MovedTo(weight[..], rgb[..], l, w, h, turn, o + 1)
  {
    NearTheRow(w, h, turn, o);
    SomeRow(w, h, o);
    ghost var weight0, rgb0 := weight[..], rgb[..];
    var at := ReadPlace(w, turn, o);
    hide ReadPlace;
    weight[o] := WeightRead(l, at);
    var size := |l.weight|;
    if at != -1 {
      var from := if at < 0 then size + at else at;
      rgb[o * 3] := l.rgb[from * 3];
      rgb[o * 3 + 1] := l.rgb[from * 3 + 1];
      rgb[o * 3 + 2] := l.rgb[from * 3 + 2];
    }
    forall p | 0 <= p < o
      ensures PixelMoved(weight[..], rgb[..], l, w, h, turn, p)
    {
      assert PixelMoved(weight0, rgb0, l, w, h, turn, p);
    }
    assert PixelMoved(weight[..], rgb[..], l, w, h, turn, o);
  }

  /** Each pixel gets what is read for it; up to eight times round that is its `Source`. */
  method MoveRound(l: Layer, w: nat, h: nat, turn: int) returns (weight: array<Option<real>>, rgb: array<real>)
    requires Sized(l, w, h)
    ensures MovedTo(weight[..], rgb[..], l, w, h, turn, w * h)
    ensures turn <= 8 * w || w == 1 ==>
      && rgb[..] == Shifted(l, w, h, turn).rgb
      && forall o :: 0 <= o < w * h ==> weight[o] == Some(Shifted(l, w, h, turn).weight[o])
  {
    hide Cell, Shifted, MovedTo;
    weight, rgb := new Option<real>[w * h](_ => None), new real[w * h * 3](_ => 0.0);
    NextCell(w, 0, 0);
    NoneMoved(weight[..], rgb[..], l, w, h, turn);
    for j := 0 to h
      invariant MovedTo(weight[..], rgb[..], l, w, h, turn, Cell(w, 0, j))
    {
      for i := 0 to w
        invariant MovedTo(weight[..], rgb[..], l, w, h, turn, Cell(w, i, j))
      {
        CellOnGrid(w, h, i, j);
        MovePixel(l, w, h, turn, Cell(w, i, j), weight, rgb);
        NextCell(w, i, j);
      }
      NextCell(w, 0, j);
    }
    NextCell(w, 0, h);
    if turn <= 8 * w || w == 1 {
      AllOnTheRow(weight[..], rgb[..], l, w, h, turn);
    }
  }

  lemma NoneMoved(weight: seq<Option<real>>, rgb: seq<real>, l: Layer, w: nat, h: nat, turn: int)
    requires Sized(l, w, h) && |weight| == w * h && |rgb| == w * h * 3 && forall c :: 0 <= c < |rgb| ==> rgb[c] == 0.0
    ensures MovedTo(weight, rgb, l, w, h, turn, 0)
  {
  }

  lemma AllOnTheRow(weight: seq<Option<real>>, rgb: seq<real>, l: Layer, w: nat, h: nat, turn: int)
    requires Sized(l, w, h) && MovedTo(weight, rgb, l, w, h, turn, w * h) && (turn <= 8 * w || w == 1)
    ensures rgb == Shifted(l, w, h, turn).rgb
    ensures forall o :: 0 <= o < w * h ==> weight[o] == Some(Shifted(l, w, h, turn).weight[o])
  {
    var r := Shifted(l, w, h, turn);
    hide Shifted, PixelMoved;
    forall o | 0 <= o < w * h
      ensures weight[o] == Some(r.weight[o]) && AlikeAt(rgb, r.rgb, o)
    {
      OneOnTheRow(weight, rgb, l, w, h, turn, o);
    }
    AllAlike(rgb, r.rgb, w * h);
  }

  predicate AlikeAt(a: seq<real>, b: seq<real>, o: nat)
    requires o * 3 + 2 < |a| && |a| == |b|
  {
    a[o * 3] == b[o * 3] && a[o * 3 + 1] == b[o * 3 + 1] && a[o * 3 + 2] == b[o * 3 + 2]
  }

  lemma AllAlike(a: seq<real>, b: seq<real>, n: nat)
    requires |a| == |b| == n * 3 && forall o :: 0 <= o < n ==> AlikeAt(a, b, o)
    ensures a == b
  {
    forall c | 0 <= c < |a|
      ensures a[c] == b[c]
    {
      assert AlikeAt(a, b, c / 3);
      assert c == c / 3 * 3 || c == c / 3 * 3 + 1 || c == c / 3 * 3 + 2;
    }
  }

  lemma OneOnTheRow(weight: seq<Option<real>>, rgb: seq<real>, l: Layer, w: nat, h: nat, turn: int, o: nat)
    requires Sized(l, w, h) && |weight| == w * h && |rgb| == w * h * 3 && o < w * h
    requires (turn <= 8 * w || w == 1) && PixelMoved(weight, rgb, l, w, h, turn, o)
    ensures
      var r := Shifted(l, w, h, turn);
      weight[o] == Some(r.weight[o]) && AlikeAt(rgb, r.rgb, o)
  {
    hide ReadPlace, Source, Shifted;
    ReadsItsSource(w, h, turn, o);
    ShiftedHere(l, w, h, turn, o);
  }

  lemma ReadsItsSource(w: nat, h: nat, turn: int, o: nat)
    requires o < w * h && (turn <= 8 * w || w == 1)
    ensures w > 0 && ReadPlace(w, turn, o) == Source(w, h, turn, o)
  {
    PlaceOnGrid(w, h, o);
    NearTheRow(w, h, turn, o);
    if turn <= 8 * w {
      ReadsTheColumn(w, Across(w, o), turn);
    }
  }

  lemma ShiftedHere(l: Layer, w: nat, h: nat, turn: int, o: nat)
    requires Sized(l, w, h) && o < w * h
    ensures
      var r, s := Shifted(l, w, h, turn), Source(w, h, turn, o);
      && r.weight[o] == l.weight[s] && r.rgb[o * 3] == l.rgb[s * 3]
      && r.rgb[o * 3 + 1] == l.rgb[s * 3 + 1] && r.rgb[o * 3 + 2] == l.rgb[s * 3 + 2]
  {
    hide Source;
    assert (o * 3) / 3 == o && (o * 3) % 3 == 0;
    assert (o * 3 + 1) / 3 == o && (o * 3 + 1) % 3 == 1;
    assert (o * 3 + 2) / 3 == o && (o * 3 + 2) % 3 == 2;
  }

  /** A pixel read from just before the array has no weight and no colour copied; from
      further before it, no weight, and a colour from as far before the end. */
  lemma ReadBeforeTheArray(weight: seq<Option<real>>, rgb: seq<real>, l: Layer, w: nat, h: nat, turn: int, x: nat)
    requires Sized(l, w, h) && MovedTo(weight, rgb, l, w, h, turn, w * h) && h > 0 && x < w
    requires ReadColumn(w, x, turn) < 0
    ensures x < w * h && weight[x] == None
    ensures ReadColumn(w, x, turn) == -1 ==> rgb[x * 3] == rgb[x * 3 + 1] == rgb[x * 3 + 2] == 0.0
    ensures ReadColumn(w, x, turn) < -1 ==>
      var from := w * h + ReadColumn(w, x, turn);
      && 0 <= from < w * h && rgb[x * 3] == l.rgb[from * 3] && rgb[x * 3 + 1] == l.rgb[from * 3 + 1]
      && rgb[x * 3 + 2] == l.rgb[from * 3 + 2]
  {
    hide ReadColumn, ReadPlace, MovedTo, PixelMoved;
    FirstRow(w, h, turn, x);
    MovedHere(weight, rgb, l, w, h, turn, x);
  }

  lemma FirstRow(w: nat, h: nat, turn: int, x: nat)
    requires x < w && h > 0
    ensures x < w * h && ReadPlace(w, turn, x) == ReadColumn(w, x, turn)
  {
    CellOnGrid(w, h, x, 0);
    assert Across(w, x) == x && Down(w, x) == 0;
  }

  lemma MovedHere(weight: seq<Option<real>>, rgb: seq<real>, l: Layer, w: nat, h: nat, turn: int, p: nat)
    requires Sized(l, w, h) && MovedTo(weight, rgb, l, w, h, turn, w * h) && p < w * h
    ensures 0 < w <= w * h && 0 < ReadPlace(w, turn, p) + w && ReadPlace(w, turn, p) < w * h
    ensures
      var at := ReadPlace(w, turn, p);
      && weight[p] == WeightRead(l, at) && rgb[p * 3] == ColourRead(l, at, 0)
      && rgb[p * 3 + 1] == ColourRead(l, at, 1) && rgb[p * 3 + 2] == ColourRead(l, at, 2)
  {
    hide ReadPlace, WeightRead, ColourRead;
    SomeRow(w, h, p);
    NearTheRow(w, h, turn, p);
    assert PixelMoved(weight, rgb, l, w, h, turn, p);
  }

  // ---------- Blending ----------

  /** The trust in a pixel of the first `n` layers that saw it, and a channel's sum by trust and gain. */
  function Trust(layers: seq<Layer>, w: nat, h: nat, o: nat, n: nat): real
    requires n <= |layers| && o < w * h && AllSized(layers, w, h)
  {
    if n == 0 then 0.0
    else
      var before := Trust(layers, w, h, o, n - 1);
      var lw := layers[n - 1].weight[o];
      if lw <= 0.0 then before else before + lw
  }

  function Laid(layers: seq<Layer>, gain: seq<real>, w: nat, h: nat, o: nat, k: nat, n: nat): real
    requires n <= |layers| <= |gain| && o < w * h && k < 3 && AllSized(layers, w, h)
  {
    if n == 0 then 0.0
    else
      var before := Laid(layers, gain, w, h, o, k, n - 1);
      var lw := layers[n - 1].weight[o];
      if lw <= 0.0 then before else before + Lays(lw, gain[n - 1], layers[n - 1].rgb[o * 3 + k])
  }

  /** What a layer lays of a channel. */
  function Lays(lw: real, gain: real, c: real): real {
    lw * gain * c
  }

  function SeenBy(layers: seq<Layer>, w: nat, h: nat): (seen: seq<bool>)
    requires AllSized(layers, w, h)
    ensures |seen| == w * h
    ensures forall o :: 0 <= o < w * h ==> seen[o] == (Trust(layers, w, h, o, |layers|) > 0.0)
  {
    seq(w * h, o requires 0 <= o < w * h => Trust(layers, w, h, o, |layers|) > 0.0)
  }

  function MeanAt(layers: seq<Layer>, gain: seq<real>, w: nat, h: nat, o: nat, k: nat): byte
    requires |layers| <= |gain| && o < w * h && k < 4 && AllSized(layers, w, h)
  {
    var trust := Trust(layers, w, h, o, |layers|);
    if k == 3 then 255
    else if trust > 0.0 then ToByte(Laid(layers, gain, w, h, o, k, |layers|) / trust)
    else 0
  }

  function Means(layers: seq<Layer>, gain: seq<real>, w: nat, h: nat): (data: seq<byte>)
    requires |layers| <= |gain| && AllSized(layers, w, h)
    ensures |data| == w * h * 4
    ensures forall c :: 0 <= c < |data| ==> data[c] == MeanAt(layers, gain, w, h, c / 4, c % 4)
  {
    seq(w * h * 4, c requires 0 <= c < w * h * 4 => MeanAt(layers, gain, w, h, c / 4, c % 4))
  }

  function Blended(layers: seq<Layer>, gain: seq<real>, w: nat, h: nat): seq<byte>
    requires |layers| <= |gain| && AllSized(layers, w, h)
  {
    Filled(Means(layers, gain, w, h), w, h, SeenBy(layers, w, h))
  }

  ghost predicate BlendedTo(data: seq<byte>, seen: seq<bool>, layers: seq<Layer>, gain: seq<real>, w: nat, h: nat,
                            o: nat)
    requires |layers| <= |gain| && AllSized(layers, w, h)
  {
    && |data| == w * h * 4 && |seen| == w * h && o <= w * h
    && (forall c :: 0 <= c < o * 4 ==> data[c] == MeanAt(layers, gain, w, h, c / 4, c % 4))
    && (forall i :: 0 <= i < w * h ==> seen[i] == (i < o && Trust(layers, w, h, i, |layers|) > 0.0))
  }

  method LayPixel(layers: seq<Layer>, gain: seq<real>, w: nat, h: nat, o: nat)
    returns (seen: bool, r: byte, g: byte, b: byte)
    requires |layers| <= |gain| && o < w * h && AllSized(layers, w, h)
    ensures seen == (Trust(layers, w, h, o, |layers|) > 0.0)
    ensures r == MeanAt(layers, gain, w, h, o, 0) && g == MeanAt(layers, gain, w, h, o, 1)
    ensures b == MeanAt(layers, gain, w, h, o, 2)
  {
    var trust, rr, gg, bb := 0.0, 0.0, 0.0, 0.0;
    for k := 0 to |layers|
      invariant trust == Trust(layers, w, h, o, k)
      invariant rr == Laid(layers, gain, w, h, o, 0, k) && gg == Laid(layers, gain, w, h, o, 1, k)
      invariant bb == Laid(layers, gain, w, h, o, 2, k)
    {
      var l := layers[k];
      var lw := l.weight[o];
      if lw <= 0.0 {
        continue;
      }
      trust := trust + lw;
      rr := rr + Lays(lw, gain[k], l.rgb[o * 3]);
      gg := gg + Lays(lw, gain[k], l.rgb[o * 3 + 1]);
      bb := bb + Lays(lw, gain[k], l.rgb[o * 3 + 2]);
    }
    seen, r, g, b := trust > 0.0, 0, 0, 0;
    if trust > 0.0 {
      r := ToByte(rr / trust);
      g := ToByte(gg / trust);
      b := ToByte(bb / trust);
    }
  }

  lemma OnePixelMore(data: seq<byte>, seen: seq<bool>, layers: seq<Layer>, gain: seq<real>, w: nat, h: nat, o: nat)
    requires |layers| <= |gain| && AllSized(layers, w, h)
    requires o < w * h && BlendedTo(data, seen, layers, gain, w, h, o)
    ensures o * 4 + 4 <= |data|
    ensures
      BlendedTo(WithPixel(data, o, MeanAt(layers, gain, w, h, o, 0), MeanAt(layers, gain, w, h, o, 1),
                          MeanAt(layers, gain, w, h, o, 2), 255),
                seen[o := Trust(layers, w, h, o, |layers|) > 0.0], layers, gain, w, h, o + 1)
  {
    assert (o * 4) / 4 == o && (o * 4) % 4 == 0;
    assert (o * 4 + 1) / 4 == o && (o * 4 + 1) % 4 == 1;
    assert (o * 4 + 2) / 4 == o && (o * 4 + 2) % 4 == 2;
    assert (o * 4 + 3) / 4 == o && (o * 4 + 3) % 4 == 3;
    assert MeanAt(layers, gain, w, h, o, 3) == 255;
    hide MeanAt, WithPixel, Trust;
  }

  /** The weighted mean at every pixel some layer trusts, and `Fill` of the others. */
  method Blend(layers: seq<Layer>, gain: seq<real>, w: nat, h: nat) returns (data: array<byte>)
    requires 0 < |layers| <= |gain| && AllSized(layers, w, h)
    ensures fresh(data) && data[..] == Blended(layers, gain, w, h)
  {
    hide Trust, MeanAt, WithPixel, Filled;
    data := new byte[w * h * 4](_ => 0);
    var seen := new bool[w * h](_ => false);
    for o := 0 to w * h
      invariant BlendedTo(data[..], seen[..], layers, gain, w, h, o)
    {
      var saw, r, g, b := LayPixel(layers, gain, w, h, o);
      OnePixelMore(data[..], seen[..], layers, gain, w, h, o);
      SetPixel(data, o, r, g, b, 255);
      seen[o] := saw;
    }
    assert data[..] == Means(layers, gain, w, h);
    assert seen[..] == SeenBy(layers, w, h);
    Fill(data, w, h, seen);
  }

  // ---------- What a blend is between ----------

  /** Every colour any layer lays is between these. */
  ghost predicate LaidBetween(layers: seq<Layer>, gain: seq<real>, w: nat, h: nat, k: nat, low: real, high: real)
    requires |layers| <= |gain| && k < 3 && AllSized(layers, w, h)
  {
    forall n, o :: 0 <= n < |layers| && 0 <= o < w * h ==>
      (layers[n].weight[o] > 0.0 ==> low <= gain[n] * layers[n].rgb[o * 3 + k] <= high)
  }

  /** A sum of so much trust is between so much of the least and so much of the most. */
  predicate Within(low: real, sum: real, high: real, trust: real) {
    low * trust <= sum <= high * trust
  }

  lemma OneLayerMore(low: real, high: real, t: real, sum: real, lw: real, gain: real, c: real)
    requires Within(low, sum, high, t) && lw > 0.0 && low <= gain * c <= high
    ensures Within(low, sum + Lays(lw, gain, c), high, t + lw)
  {
    var v := gain * c;
    assert Lays(lw, gain, c) == lw * v;
    assert lw * (v - low) >= 0.0 && lw * (high - v) >= 0.0;
  }

  lemma LaidOne(layers: seq<Layer>, gain: seq<real>, w: nat, h: nat, n: nat, o: nat, k: nat, low: real, high: real)
    requires n < |layers| <= |gain| && o < w * h && k < 3 && AllSized(layers, w, h)
    requires LaidBetween(layers, gain, w, h, k, low, high)
    ensures layers[n].weight[o] > 0.0 ==> low <= gain[n] * layers[n].rgb[o * 3 + k] <= high
  {
  }

  lemma {:induction false} SumBetweenTrust(layers: seq<Layer>, gain: seq<real>, w: nat, h: nat, o: nat, k: nat, n: nat,
                                           low: real, high: real)
    requires n <= |layers| <= |gain| && o < w * h && k < 3 && AllSized(layers, w, h)
    requires LaidBetween(layers, gain, w, h, k, low, high)
    ensures Within(low, Laid(layers, gain, w, h, o, k, n), high, Trust(layers, w, h, o, n))
  {
    hide LaidBetween, Within, Lays, AllSized;
    if n == 0 {
      NothingWithin(low, high);
    } else {
      SumBetweenTrust(layers, gain, w, h, o, k, n - 1, low, high);
      LaidOne(layers, gain, w, h, n - 1, o, k, low, high);
      OneLayerLays(layers, gain, w, h, o, k, n, low, high);
    }
  }

  lemma NothingWithin(low: real, high: real)
    ensures Within(low, 0.0, high, 0.0)
  {
  }

  lemma OneLayerLays(layers: seq<Layer>, gain: seq<real>, w: nat, h: nat, o: nat, k: nat, n: nat, low: real, high: real)
    requires 0 < n <= |layers| <= |gain| && o < w * h && k < 3 && AllSized(layers, w, h)
    requires
      layers[n - 1].weight[o] > 0.0 ==> low <= gain[n - 1] * layers[n - 1].rgb[o * 3 + k] <= high
    requires Within(low, Laid(layers, gain, w, h, o, k, n - 1), high, Trust(layers, w, h, o, n - 1))
    ensures Within(low, Laid(layers, gain, w, h, o, k, n), high, Trust(layers, w, h, o, n))
  {
    hide Within, Lays;
    var lw := layers[n - 1].weight[o];
    if lw > 0.0 {
      OneLayerMore(low, high, Trust(layers, w, h, o, n - 1), Laid(layers, gain, w, h, o, k, n - 1),
                   lw, gain[n - 1], layers[n - 1].rgb[o * 3 + k]);
    }
  }

  lemma MeanBetweenThem(layers: seq<Layer>, gain: seq<real>, w: nat, h: nat, i: nat, k: nat, low: byte, high: byte)
    requires |layers| <= |gain| && k < 3 && AllSized(layers, w, h) && i < w * h
    requires LaidBetween(layers, gain, w, h, k, low as real, high as real) && Trust(layers, w, h, i, |layers|) > 0.0
    ensures low <= Means(layers, gain, w, h)[i * 4 + k] <= high
  {
    hide LaidBetween, Trust, Laid, ToByte, AllSized;
    var trust, sum := Trust(layers, w, h, i, |layers|), Laid(layers, gain, w, h, i, k, |layers|);
    SumBetweenTrust(layers, gain, w, h, i, k, |layers|, low as real, high as real);
    QuotientBetween(sum, trust, low as real, high as real);
    KeptBetween(sum / trust, low, high);
    assert (i * 4 + k) / 4 == i && (i * 4 + k) % 4 == k;
  }

  /** When any layer saw anything, every pixel of the blend, seen or filled, has each
      channel between the least and the most that any layer lays of it. */
  lemma BlendBetween(layers: seq<Layer>, gain: seq<real>, w: nat, h: nat, k: nat, low: byte, high: byte, some: nat)
    requires |layers| <= |gain| && k < 3 && AllSized(layers, w, h)
    requires LaidBetween(layers, gain, w, h, k, low as real, high as real)
    requires some < w * h && SeenBy(layers, w, h)[some]
    ensures forall i :: 0 <= i < w * h ==> low <= Blended(layers, gain, w, h)[i * 4 + k] <= high
  {
    var data, seen := Means(layers, gain, w, h), SeenBy(layers, w, h);
    hide LaidBetween, Trust, MeanAt, Filled, Means, SeenBy, AllSized, Between;
    forall i | 0 <= i < |seen| && seen[i]
      ensures low <= data[i * 4 + k] <= high
    {
      MeanBetweenThem(layers, gain, w, h, i, k, low, high);
    }
    BetweenAll(data, w, h, seen, k, low, high);
    FilledBetween(data, w, h, seen, k, low, high, some);
  }
}
