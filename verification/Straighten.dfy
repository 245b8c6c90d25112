/** Sampling a photograph through the projection: what is read, and where nothing changes. */
module Straighten {
  import opened Clamped
  import opened Cut
  import opened Grid
  import opened Options

  // ---------- One pixel's value ----------

  /** Held on the photograph, from the middle of its first pixel to the middle of its last. */
  function Held(x: real, size: nat): (r: real)
    requires size > 0
    ensures 0.0 <= r <= (size - 1) as real
  {
    var up := if x - 0.5 < 0.0 then 0.0 else x - 0.5;
    if up > (size - 1) as real then (size - 1) as real else up
  }

  function Before(f: real): int {
    f.Floor
  }

  function After(f: real, size: nat): int {
    if Before(f) + 1 < size then Before(f) + 1 else size - 1
  }

  lemma OnThePhotograph(f: real, size: nat)
    requires size > 0 && 0.0 <= f <= (size - 1) as real
    ensures 0 <= Before(f) < size && 0 <= After(f, size) < size
    ensures 0.0 <= f - Before(f) as real < 1.0
  {
  }

  function Channel(data: seq<byte>, sw: nat, sh: nat, x: int, y: int, k: nat): byte
    requires |data| == sw * sh * 4 && OnGrid(sw, sh, x, y) && k < 4
  {
    CellOnGrid(sw, sh, x, y);
    data[Cell(sw, x, y) * 4 + k]
  }

  function Mixed(a: real, b: real, t: real): real {
    a + (b - a) * t
  }

  /** Bilinear interpolation at a point between pixels. */
  function Blended(data: seq<byte>, sw: nat, sh: nat, fx: real, fy: real, k: nat): real
    requires |data| == sw * sh * 4 && k < 4 && sw > 0 && sh > 0
    requires 0.0 <= fx <= (sw - 1) as real && 0.0 <= fy <= (sh - 1) as real
  {
    OnThePhotograph(fx, sw);
    OnThePhotograph(fy, sh);
    var x0, x1, y0, y1 := Before(fx), After(fx, sw), Before(fy), After(fy, sh);
    var tx, ty := fx - x0 as real, fy - y0 as real;
    Mixed(Mixed(Channel(data, sw, sh, x0, y0, k) as real, Channel(data, sw, sh, x1, y0, k) as real, tx),
          Mixed(Channel(data, sw, sh, x0, y1, k) as real, Channel(data, sw, sh, x1, y1, k) as real, tx), ty)
  }

  /** The middle of the `i`-th of `w` pixels, as a fraction. */
  function Middle(i: nat, w: nat): (r: real)
    requires i < w
    ensures 0.0 < r < 1.0
  {
    MiddleIsInside(i, w);
    (i as real + 0.5) / w as real
  }

  lemma MiddleIsInside(i: nat, w: nat)
    requires i < w
    ensures 0.0 < (i as real + 0.5) / w as real < 1.0
  {
    var r := (i as real + 0.5) / w as real;
    assert w as real * r == i as real + 0.5;
    assert w as real * (1.0 - r) == w as real - w as real * r;
    PositiveProduct(w as real, r);
    PositiveProduct(w as real, 1.0 - r);
  }

  /** The map says where a pixel's middle falls: it does not divide by zero there. */
  ghost predicate MappedAt(q: Corners, sw: nat, sh: nat, w: nat, h: nat, i: nat, j: nat)
    requires i < w && j < h
  {
    var onto := Projection(q, sw as real, sh as real);
    onto.Some? && Project(onto.value, Middle(i, w), Middle(j, h)).Some?
  }

  /** And so for every pixel. */
  ghost predicate Mapped(q: Corners, sw: nat, sh: nat, w: nat, h: nat) {
    && Projection(q, sw as real, sh as real).Some?
    && forall i, j :: 0 <= i < w && 0 <= j < h ==> MappedAt(q, sw, sh, w, h, i, j)
  }

  lemma MappedHasMap(q: Corners, sw: nat, sh: nat, w: nat, h: nat)
    requires Mapped(q, sw, sh, w, h)
    ensures Projection(q, sw as real, sh as real).Some?
  {
  }

  lemma FaceTurns(q: Corners)
    requires Face(q)
    ensures TurnsClockwise(q)
  {
  }

  /** A face is mapped at every pixel, of any photograph and any rectangle. */
  lemma FaceIsMapped(q: Corners, sw: nat, sh: nat, w: nat, h: nat)
    requires Face(q) && sw > 0 && sh > 0
    ensures Mapped(q, sw, sh, w, h)
  {
    FaceTurns(q);
    hide Projection, Project, Face, TurnsClockwise, Middle;
    GuardMakesTheMap(q, sw as real, sh as real);
    forall i, j | 0 <= i < w && 0 <= j < h
      ensures MappedAt(q, sw, sh, w, h, i, j)
    {
      ProjectsOntoTheFace(q, sw as real, sh as real, Middle(i, w), Middle(j, h));
    }
  }

  /** Where in the photograph a pixel of the rectangle is read from. */
  function ReadFrom(q: Corners, sw: nat, sh: nat, w: nat, h: nat, i: nat, j: nat): Spot
    requires Mapped(q, sw, sh, w, h) && sw > 0 && sh > 0 && i < w && j < h
  {
    assert MappedAt(q, sw, sh, w, h, i, j);
    Project(Projection(q, sw as real, sh as real).value, Middle(i, w), Middle(j, h)).value
  }

  /** One channel of one pixel of the rectangle. */
  function Straightened(data: seq<byte>, sw: nat, sh: nat, q: Corners, w: nat, h: nat, i: nat, j: nat, k: nat): byte
    requires |data| == sw * sh * 4 && Mapped(q, sw, sh, w, h) && sw > 0 && sh > 0 && i < w && j < h && k < 4
  {
    var at := ReadFrom(q, sw, sh, w, h, i, j);
    ToByte(Blended(data, sw, sh, Held(at.x, sw), Held(at.y, sh), k))
  }

  // ---------- The rectangle ----------

  lemma PlaceOfChannel(w: nat, i: nat, j: nat, k: nat)
    requires i < w && k < 4
    ensures var n := Cell(w, i, j) * 4 + k; n % 4 == k && Across(w, n / 4) == i && Down(w, n / 4) == j
  {
    CellOf(w, i, j);
  }

  lemma ChannelInPlace(w: nat, h: nat, n: nat)
    requires n < w * h * 4
    ensures w > 0 && OnGrid(w, h, Across(w, n / 4), Down(w, n / 4))
    ensures n == Cell(w, Across(w, n / 4), Down(w, n / 4)) * 4 + n % 4
  {
    PlaceOnGrid(w, h, n / 4);
  }

  /** What is in place `n` of the rectangle. */
  ghost function Expected(data: seq<byte>, sw: nat, sh: nat, q: Corners, w: nat, h: nat, n: nat): byte
    requires |data| == sw * sh * 4 && Mapped(q, sw, sh, w, h) && sw > 0 && sh > 0 && n < w * h * 4
  {
    ChannelInPlace(w, h, n);
    Straightened(data, sw, sh, q, w, h, Across(w, n / 4), Down(w, n / 4), n % 4)
  }

  lemma ExpectedHere(data: seq<byte>, sw: nat, sh: nat, q: Corners, w: nat, h: nat, i: nat, j: nat, k: nat)
    requires |data| == sw * sh * 4 && Mapped(q, sw, sh, w, h) && sw > 0 && sh > 0 && i < w && j < h && k < 4
    ensures Cell(w, i, j) * 4 + k < w * h * 4
    ensures Expected(data, sw, sh, q, w, h, Cell(w, i, j) * 4 + k) == Straightened(data, sw, sh, q, w, h, i, j, k)
  {
    CellOnGrid(w, h, i, j);
    PlaceOfChannel(w, i, j, k);
  }

  /** The map is there, and goes where `ReadFrom` says. */
  lemma MapIsThere(q: Corners, sw: nat, sh: nat, w: nat, h: nat, i: nat, j: nat)
    requires Mapped(q, sw, sh, w, h) && sw > 0 && sh > 0 && i < w && j < h
    ensures Projection(q, sw as real, sh as real).Some?
    ensures Project(Projection(q, sw as real, sh as real).value, Middle(i, w), Middle(j, h))
         == Some(ReadFrom(q, sw, sh, w, h, i, j))
  {
    hide Projection, Project, Middle;
    assert MappedAt(q, sw, sh, w, h, i, j);
  }

  /** What is in place `n` of the first `done` is what is expected there. */
  ghost predicate RightTo(out: seq<byte>, data: seq<byte>, sw: nat, sh: nat, q: Corners, w: nat, h: nat, done: nat)
    requires |data| == sw * sh * 4 && Mapped(q, sw, sh, w, h) && sw > 0 && sh > 0 && |out| == w * h * 4
  {
    forall n :: 0 <= n < done && n < |out| ==> out[n] == Expected(data, sw, sh, q, w, h, n)
  }

  /** The loops fill every byte with what is `Expected` of it; a photograph with no
      pixels gives zeros. */
  method StraightenFace(data: array<byte>, sw: nat, sh: nat, q: Corners, w: nat, h: nat) returns (out: array<byte>)
    requires data.Length == sw * sh * 4 && (sw > 0 && sh > 0 ==> Mapped(q, sw, sh, w, h))
    ensures fresh(out) && out.Length == w * h * 4
    ensures sw > 0 && sh > 0 ==> forall n :: 0 <= n < w * h * 4 ==> out[n] == Expected(data[..], sw, sh, q, w, h, n)
    ensures sw == 0 || sh == 0 ==> forall n :: 0 <= n < w * h * 4 ==> out[n] == 0
  {
    hide Expected, Mapped, Projection, Project, Cell, ReadFrom, Middle;
    out := new byte[w * h * 4](_ => 0);
    if sw == 0 || sh == 0 {
      // Every read is outside the array, so no number, which the clamped array keeps as 0.
      return;
    }
    assert Projection(q, sw as real, sh as real).Some? by {
      MappedHasMap(q, sw, sh, w, h);
    }
    var onto := Projection(q, sw as real, sh as real).value;
    NextCell(w, 0, 0);
    for j := 0 to h
      invariant RightTo(out[..], data[..], sw, sh, q, w, h, Cell(w, 0, j) * 4)
    {
      for i := 0 to w
        invariant RightTo(out[..], data[..], sw, sh, q, w, h, Cell(w, i, j) * 4)
      {
        MapIsThere(q, sw, sh, w, h, i, j);
        var at := Project(onto, Middle(i, w), Middle(j, h)).value;
        StraightenPixel(data, sw, sh, q, w, h, i, j, at, out);
        NextCell(w, i, j);
      }
      NextCell(w, 0, j);
    }
    NextCell(w, 0, h);
  }

  lemma NextCell(w: nat, i: nat, j: nat)
    ensures Cell(w, i, j) + 1 == Cell(w, i + 1, j) && Cell(w, w, j) == Cell(w, 0, j + 1)
    ensures Cell(w, 0, 0) == 0 && Cell(w, 0, j) == w * j
  {
  }

  /** One pixel's four channels. */
  method StraightenPixel(data: array<byte>, sw: nat, sh: nat, ghost q: Corners, w: nat, h: nat, i: nat, j: nat,
                         at: Spot, out: array<byte>)
    requires data.Length == sw * sh * 4 && sw > 0 && sh > 0 && Mapped(q, sw, sh, w, h) && i < w && j < h
    requires out.Length == w * h * 4 && out != data && at == ReadFrom(q, sw, sh, w, h, i, j)
    requires RightTo(out[..], data[..], sw, sh, q, w, h, Cell(w, i, j) * 4)
    modifies out
    ensures RightTo(out[..], data[..], sw, sh, q, w, h, Cell(w, i, j) * 4 + 4)
  {
    hide Expected, Mapped, ReadFrom, Blended, Channel;
    var fx, fy := Held(at.x, sw), Held(at.y, sh);
    var o := (j * w + i) * 4;
    ghost var source := data[..];
    for k := 0 to 4
      invariant data[..] == source
      invariant RightTo(out[..], source, sw, sh, q, w, h, o + k)
    {
      ExpectedHere(source, sw, sh, q, w, h, i, j, k);
      var v := BlendChannel(data, sw, sh, fx, fy, k);
      out[o + k] := v;
    }
  }

  /** The two rows and columns read from the array, and blended. */
  method BlendChannel(data: array<byte>, sw: nat, sh: nat, fx: real, fy: real, k: nat) returns (v: byte)
    requires data.Length == sw * sh * 4 && k < 4 && sw > 0 && sh > 0
    requires 0.0 <= fx <= (sw - 1) as real && 0.0 <= fy <= (sh - 1) as real
    ensures v == ToByte(Blended(data[..], sw, sh, fx, fy, k))
  {
    OnThePhotograph(fx, sw);
    OnThePhotograph(fy, sh);
    var x0, y0 := fx.Floor, fy.Floor;
    var x1 := if x0 + 1 < sw then x0 + 1 else sw - 1;
    var y1 := if y0 + 1 < sh then y0 + 1 else sh - 1;
    var tx, ty := fx - x0 as real, fy - y0 as real;
    CellOnGrid(sw, sh, x0, y0);
    CellOnGrid(sw, sh, x1, y0);
    CellOnGrid(sw, sh, x0, y1);
    CellOnGrid(sw, sh, x1, y1);
    var p00, p10 := (y0 * sw + x0) * 4, (y0 * sw + x1) * 4;
    var p01, p11 := (y1 * sw + x0) * 4, (y1 * sw + x1) * 4;
    var top := Mixed(data[p00 + k] as real, data[p10 + k] as real, tx);
    var bottom := Mixed(data[p01 + k] as real, data[p11 + k] as real, tx);
    v := ToByte(Mixed(top, bottom, ty));
  }

  // ---------- Between the four, and itself ----------

  lemma MixedBetween(a: real, b: real, t: real, low: real, high: real)
    requires 0.0 <= t <= 1.0 && low <= a <= high && low <= b <= high
    ensures low <= Mixed(a, b, t) <= high
  {
    var c := 1.0 - t;
    NotNegative(c, a - low);
    NotNegative(t, b - low);
    NotNegative(c, high - a);
    NotNegative(t, high - b);
    assert Mixed(a, b, t) == c * (a - low) + t * (b - low) + low;
    assert Mixed(a, b, t) == high - c * (high - a) - t * (high - b);
  }

  /** Every channel is between those of the four pixels it is blended from. */
  lemma BetweenTheFour(data: seq<byte>, sw: nat, sh: nat, q: Corners, w: nat, h: nat, i: nat, j: nat, k: nat,
                       low: byte, high: byte)
    requires |data| == sw * sh * 4 && Mapped(q, sw, sh, w, h) && sw > 0 && sh > 0 && i < w && j < h && k < 4
    requires
      var at := ReadFrom(q, sw, sh, w, h, i, j);
      var fx, fy := Held(at.x, sw), Held(at.y, sh);
      forall x, y :: x in [Before(fx), After(fx, sw)] && y in [Before(fy), After(fy, sh)] ==>
        OnGrid(sw, sh, x, y) && low <= Channel(data, sw, sh, x, y, k) <= high
    ensures low <= Straightened(data, sw, sh, q, w, h, i, j, k) <= high
  {
    hide ReadFrom, Channel, Face;
    var at := ReadFrom(q, sw, sh, w, h, i, j);
    var fx, fy := Held(at.x, sw), Held(at.y, sh);
    OnThePhotograph(fx, sw);
    OnThePhotograph(fy, sh);
    var x0, x1, y0, y1 := Before(fx), After(fx, sw), Before(fy), After(fy, sh);
    var tx, ty := fx - x0 as real, fy - y0 as real;
    assert x0 in [x0, x1] && x1 in [x0, x1] && y0 in [y0, y1] && y1 in [y0, y1];
    var a, b := Channel(data, sw, sh, x0, y0, k) as real, Channel(data, sw, sh, x1, y0, k) as real;
    var c, d := Channel(data, sw, sh, x0, y1, k) as real, Channel(data, sw, sh, x1, y1, k) as real;
    hide Mixed, Before, After, Held;
    MixedBetween(a, b, tx, low as real, high as real);
    MixedBetween(c, d, tx, low as real, high as real);
    MixedBetween(Mixed(a, b, tx), Mixed(c, d, tx), ty, low as real, high as real);
    KeptBetween(Blended(data, sw, sh, fx, fy, k), low, high);
  }

  // ---------- A photograph straightened onto itself ----------

  /** The unit square as a face. */
  const WHOLE := [0.0, 0.0, 1.0, 0.0, 1.0, 1.0, 0.0, 1.0]

  predicate IsWhole(q: Corners) {
    ToCorners(q) == WHOLE
  }

  lemma WholeIsAFace(q: Corners)
    requires IsWhole(q)
    ensures Face(q) && Face(Turned(q))
  {
    WholeSpots(q);
    TurnedIsStillAFace(q);
  }

  lemma WholeSpots(q: Corners)
    requires IsWhole(q)
    ensures q.a == Spot(0.0, 0.0) && q.b == Spot(1.0, 0.0) && q.c == Spot(1.0, 1.0) && q.d == Spot(0.0, 1.0)
  {
    var c := ToCorners(q);
    assert c[0] == WHOLE[0] && c[1] == WHOLE[1] && c[2] == WHOLE[2] && c[3] == WHOLE[3];
    assert c[4] == WHOLE[4] && c[5] == WHOLE[5] && c[6] == WHOLE[6] && c[7] == WHOLE[7];
  }

  lemma TimesOver(i: nat, w: nat)
    requires i < w
    ensures w as real * Middle(i, w) == i as real + 0.5
  {
  }

  /** The whole photograph is read straight across, and named from its next corner, straight down. */
  lemma WholeMap(q: Corners, width: real, height: real)
    requires IsWhole(q)
    ensures StraightAcross(q, width, height) && StraightDown(Turned(q), width, height)
  {
    WholeSpots(q);
    hide IsWhole;
  }

  lemma ReadByMap(m: Map, u: real, v: real)
    requires m.g == 0.0 && m.h == 0.0
    ensures Project(m, u, v) == Some(Spot(AcrossPart(m, u, v), DownPart(m, u, v)))
  {
    assert Denominator(m, u, v) == 1.0;
    OverOne(AcrossPart(m, u, v));
    OverOne(DownPart(m, u, v));
    hide Over, Denominator, AcrossPart, DownPart;
  }

  lemma OverOne(x: real)
    ensures Over(x, 1.0) == x
  {
  }

  /** Read from the very middle of a pixel, a channel is that pixel's. */
  lemma AtTheMiddle(data: seq<byte>, sw: nat, sh: nat, x: nat, y: nat, k: nat)
    requires |data| == sw * sh * 4 && k < 4 && OnGrid(sw, sh, x, y)
    ensures ToByte(Blended(data, sw, sh, Held(x as real + 0.5, sw), Held(y as real + 0.5, sh), k))
         == Channel(data, sw, sh, x, y, k)
  {
    var fx, fy := Held(x as real + 0.5, sw), Held(y as real + 0.5, sh);
    assert fx == x as real && fy == y as real && Before(fx) == x && Before(fy) == y;
    OnThePhotograph(fx, sw);
    OnThePhotograph(fy, sh);
    hide Channel;
    var a, b := Channel(data, sw, sh, x, y, k) as real, Channel(data, sw, sh, After(fx, sw), y, k) as real;
    var c, d := Channel(data, sw, sh, x, After(fy, sh), k) as real,
                Channel(data, sw, sh, After(fx, sw), After(fy, sh), k) as real;
    NoneOfTheOther(a, b);
    NoneOfTheOther(c, d);
    NoneOfTheOther(a, c);
    KeptBetween(a, Channel(data, sw, sh, x, y, k), Channel(data, sw, sh, x, y, k));
  }

  lemma NoneOfTheOther(a: real, b: real)
    ensures Mixed(a, b, 0.0) == a
  {
  }

  lemma OneWay(w: real, u: real, v: real)
    ensures Linear(w, 0.0, 0.0, u, v) == w * u && Linear(0.0, w, 0.0, u, v) == w * v
    ensures Linear(-w, 0.0, w, u, v) == w - w * u
  {
    assert (-w) * u == -(w * u);
  }

  predicate StraightAcross(q: Corners, width: real, height: real) {
    Projection(q, width, height) == Some(Map(width, 0.0, 0.0, 0.0, height, 0.0, 0.0, 0.0))
  }

  predicate StraightDown(q: Corners, width: real, height: real) {
    Projection(q, width, height) == Some(Map(0.0, width, 0.0, -height, 0.0, height, 0.0, 0.0))
  }

  lemma ReadFromAcross(q: Corners, sw: nat, sh: nat, i: nat, j: nat)
    requires OnGrid(sw, sh, i, j) && Mapped(q, sw, sh, sw, sh) && StraightAcross(q, sw as real, sh as real)
    ensures ReadFrom(q, sw, sh, sw, sh, i, j) == Spot(i as real + 0.5, j as real + 0.5)
  {
    hide Projection, Project, Middle, Linear, Mapped;
    ReadByMap(Projection(q, sw as real, sh as real).value, Middle(i, sw), Middle(j, sh));
    OneWay(sw as real, Middle(i, sw), Middle(j, sh));
    OneWay(sh as real, Middle(i, sw), Middle(j, sh));
    TimesOver(i, sw);
    TimesOver(j, sh);
  }

  lemma ReadFromDown(q: Corners, sw: nat, sh: nat, i: nat, j: nat)
    requires OnGrid(sh, sw, i, j) && Mapped(q, sw, sh, sh, sw) && StraightDown(q, sw as real, sh as real)
    ensures ReadFrom(q, sw, sh, sh, sw, i, j) == Spot(j as real + 0.5, (sh - 1 - i) as real + 0.5)
  {
    hide Projection, Project, Middle, Linear, Mapped;
    ReadByMap(Projection(q, sw as real, sh as real).value, Middle(i, sh), Middle(j, sw));
    OneWay(sw as real, Middle(i, sh), Middle(j, sw));
    OneWay(sh as real, Middle(i, sh), Middle(j, sw));
    TimesOver(i, sh);
    TimesOver(j, sw);
  }

  /** Read straight across and down, every pixel is itself. */
  lemma ReadAcross(data: seq<byte>, sw: nat, sh: nat, q: Corners, i: nat, j: nat, k: nat)
    requires |data| == sw * sh * 4 && OnGrid(sw, sh, i, j) && k < 4
    requires Mapped(q, sw, sh, sw, sh) && StraightAcross(q, sw as real, sh as real)
    ensures Straightened(data, sw, sh, q, sw, sh, i, j, k) == Channel(data, sw, sh, i, j, k)
  {
    hide StraightAcross, ReadFrom, Blended, Held, Channel, Mapped;
    ReadFromAcross(q, sw, sh, i, j);
    AtTheMiddle(data, sw, sh, i, j, k);
  }

  /** With the corners renamed once, row and column are exchanged and one of them reversed. */
  lemma ReadDown(data: seq<byte>, sw: nat, sh: nat, q: Corners, i: nat, j: nat, k: nat)
    requires |data| == sw * sh * 4 && OnGrid(sh, sw, i, j) && k < 4
    requires Mapped(q, sw, sh, sh, sw) && StraightDown(q, sw as real, sh as real)
    ensures Straightened(data, sw, sh, q, sh, sw, i, j, k) == Channel(data, sw, sh, j, sh - 1 - i, k)
  {
    hide StraightDown, ReadFrom, Blended, Held, Channel, Mapped;
    ReadFromDown(q, sw, sh, i, j);
    AtTheMiddle(data, sw, sh, j, sh - 1 - i, k);
  }

  /** A photograph straightened onto itself, whole and at its own size, is itself to the byte. */
  lemma WholeIsItself(data: seq<byte>, sw: nat, sh: nat, q: Corners)
    requires |data| == sw * sh * 4 && sw > 0 && sh > 0 && IsWhole(q)
    ensures Face(q) && Mapped(q, sw, sh, sw, sh)
    ensures forall n :: 0 <= n < |data| ==> Expected(data, sw, sh, q, sw, sh, n) == data[n]
  {
    hide Face, Mapped, Straightened, StraightAcross, StraightDown, IsWhole;
    WholeIsAFace(q);
    FaceIsMapped(q, sw, sh, sw, sh);
    WholeMap(q, sw as real, sh as real);
    forall n | 0 <= n < |data|
      ensures Expected(data, sw, sh, q, sw, sh, n) == data[n]
    {
      ChannelInPlace(sw, sh, n);
      ReadAcross(data, sw, sh, q, Across(sw, n / 4), Down(sw, n / 4), n % 4);
    }
  }

  // ---------- What is read, exactly ----------

  /** Held on the photograph: no place from the middle of its first pixel to the middle
      of its last is nearer. */
  lemma HeldNearest(x: real, size: nat, other: real)
    requires size > 0 && 0.0 <= other <= (size - 1) as real
    ensures Off(Held(x, size), x - 0.5) <= Off(other, x - 0.5)
  {
  }

  /** A channel that over the four pixels read is this bilinear function of where they are. */
  ghost predicate IsBilinear(data: seq<byte>, sw: nat, sh: nat, fx: real, fy: real, k: nat,
                             a: real, b: real, c: real, d: real)
    requires |data| == sw * sh * 4 && k < 4
  {
    forall x: int, y: int ::
      OnGrid(sw, sh, x, y) && x in {fx.Floor, fx.Floor + 1} && y in {fy.Floor, fy.Floor + 1} ==>
        Channel(data, sw, sh, x, y, k) as real == BilinearAt(a, b, c, d, x as real, y as real)
  }

  function BilinearAt(a: real, b: real, c: real, d: real, x: real, y: real): real {
    a + b * x + c * y + d * (x * y)
  }

  lemma MixedIsLinear(m: real, n: real, x0: real, t: real)
    ensures Mixed(m + n * x0, m + n * (x0 + 1.0), t) == m + n * (x0 + t)
  {
  }

  lemma NoFurther(v: real, t: real)
    ensures Mixed(v, v, t) == v
    ensures Mixed(v, t, 0.0) == v
  {
  }

  /** Two pixels of a row, or the one at its end. */
  lemma RowRead(p: real, r: real, m: real, n: real, f: real, size: nat)
    requires size > 0 && 0.0 <= f <= (size - 1) as real
    requires p == m + n * Before(f) as real && (f.Floor + 1 < size ==> r == m + n * (f.Floor + 1) as real)
    ensures Mixed(p, if f.Floor + 1 < size then r else p, f - Before(f) as real) == m + n * f
  {
    var t := f - Before(f) as real;
    if f.Floor + 1 < size {
      MixedIsLinear(m, n, Before(f) as real, t);
    } else {
      NoFurther(p, t);
      assert f.Floor == size - 1;
    }
  }

  lemma AlongTheRow(a: real, b: real, c: real, d: real, x: real, y: real)
    ensures BilinearAt(a, b, c, d, x, y) == (a + c * y) + (b + d * y) * x
  {
    assert d * (x * y) == d * y * x;
  }

  /** What is blended is the bilinear function through the four pixels, at the point. */
  lemma BlendedIsBilinear(data: seq<byte>, sw: nat, sh: nat, fx: real, fy: real, k: nat,
                          a: real, b: real, c: real, d: real)
    requires |data| == sw * sh * 4 && k < 4 && sw > 0 && sh > 0
    requires 0.0 <= fx <= (sw - 1) as real && 0.0 <= fy <= (sh - 1) as real
    requires IsBilinear(data, sw, sh, fx, fy, k, a, b, c, d)
    ensures Blended(data, sw, sh, fx, fy, k) == a + b * fx + c * fy + d * (fx * fy)
  {
    OnThePhotograph(fx, sw);
    OnThePhotograph(fy, sh);
    var y0, y1 := Before(fy), After(fy, sh);
    BlendedRow(data, sw, sh, fx, fy, k, y0, a, b, c, d);
    BlendedRow(data, sw, sh, fx, fy, k, y1, a, b, c, d);
    hide Channel, Mixed, BilinearAt, IsBilinear, Before, After;
    DownTheColumn(a, b, c, d, fx, fy, sh);
  }

  lemma DownTheColumn(a: real, b: real, c: real, d: real, fx: real, fy: real, sh: nat)
    requires sh > 0 && 0.0 <= fy <= (sh - 1) as real
    ensures Mixed(BilinearAt(a, b, c, d, fx, Before(fy) as real), BilinearAt(a, b, c, d, fx, After(fy, sh) as real),
                  fy - Before(fy) as real)
         == a + b * fx + c * fy + d * (fx * fy)
  {
    var y0, m, n := Before(fy), a + b * fx, c + d * fx;
    UpTheColumn(a, b, c, d, fx, y0 as real);
    UpTheColumn(a, b, c, d, fx, (y0 + 1) as real);
    RowRead(m + n * y0 as real, m + n * (y0 + 1) as real, m, n, fy, sh);
    Multiplied(c, d, fx, fy);
    hide Mixed, BilinearAt;
  }

  lemma UpTheColumn(a: real, b: real, c: real, d: real, x: real, y: real)
    ensures BilinearAt(a, b, c, d, x, y) == (a + b * x) + (c + d * x) * y
  {
  }

  lemma Multiplied(c: real, d: real, x: real, y: real)
    ensures (c + d * x) * y == c * y + d * (x * y)
  {
  }

  /** One of the two rows read, blended across. */
  lemma BlendedRow(data: seq<byte>, sw: nat, sh: nat, fx: real, fy: real, k: nat, y: int,
                   a: real, b: real, c: real, d: real)
    requires |data| == sw * sh * 4 && k < 4 && 0 <= y < sh && sw > 0 && y in {fy.Floor, fy.Floor + 1}
    requires 0.0 <= fx <= (sw - 1) as real && IsBilinear(data, sw, sh, fx, fy, k, a, b, c, d)
    ensures 0 <= Before(fx) < sw && 0 <= After(fx, sw) < sw
    ensures Mixed(Channel(data, sw, sh, Before(fx), y, k) as real, Channel(data, sw, sh, After(fx, sw), y, k) as real,
                  fx - Before(fx) as real)
         == BilinearAt(a, b, c, d, fx, y as real)
  {
    OnThePhotograph(fx, sw);
    hide Channel, Mixed, BilinearAt;
    var x0, x1 := Before(fx), After(fx, sw);
    var m, n := a + c * y as real, b + d * y as real;
    AlongTheRow(a, b, c, d, x0 as real, y as real);
    AlongTheRow(a, b, c, d, (x0 + 1) as real, y as real);
    AlongTheRow(a, b, c, d, fx, y as real);
    assert OnGrid(sw, sh, x0, y) && x0 in {x0, x0 + 1};
    RowRead(Channel(data, sw, sh, x0, y, k) as real, Channel(data, sw, sh, x1, y, k) as real, m, n, fx, sw);
  }
}
