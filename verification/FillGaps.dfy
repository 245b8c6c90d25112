/** Filling unseen pixels in place, by a recursion over ever smaller pictures. Seen
    pixels never change, and no filled one leaves the range of the seen. */
module FillGaps {
  import opened Clamped
  import opened Grid

  function Half(n: nat): (r: nat)
    ensures 1 <= r && n <= 2 * r && (n >= 1 ==> r <= n && 2 * r <= n + 1) && (n >= 2 ==> r < n)
  {
    if n <= 2 then 1 else (n + 1) / 2
  }

  ghost predicate Picture(data: seq<byte>, w: nat, h: nat, seen: seq<bool>) {
    |seen| == w * h && |data| == w * h * 4
  }

  // ---------- The half-size picture ----------

  /** The column of child `d` of a pixel of the smaller picture. */
  function ChildX(half: nat, c: nat, d: nat): nat
    requires half > 0
  {
    2 * Across(half, c) + d % 2
  }

  function ChildY(half: nat, c: nat, d: nat): nat
    requires half > 0
  {
    2 * Down(half, c) + d / 2
  }

  predicate SeenChild(w: nat, h: nat, seen: seq<bool>, c: nat, d: nat)
    requires |seen| == w * h
  {
    var x, y := ChildX(Half(w), c, d), ChildY(Half(w), c, d);
    OnGrid(w, h, x, y) && (CellOnGrid(w, h, x, y); seen[Cell(w, x, y)])
  }

  function ChildCell(w: nat, h: nat, seen: seq<bool>, c: nat, d: nat): (i: nat)
    requires |seen| == w * h && SeenChild(w, h, seen, c, d)
    ensures i < w * h && seen[i]
  {
    var x, y := ChildX(Half(w), c, d), ChildY(Half(w), c, d);
    CellOnGrid(w, h, x, y);
    Cell(w, x, y)
  }

  /** How many of the first `d` of the four were seen, and a channel of theirs summed. */
  function Count(w: nat, h: nat, seen: seq<bool>, c: nat, d: nat): nat
    requires |seen| == w * h
  {
    if d == 0 then 0 else Count(w, h, seen, c, d - 1) + if SeenChild(w, h, seen, c, d - 1) then 1 else 0
  }

  function Sum(data: seq<byte>, w: nat, h: nat, seen: seq<bool>, c: nat, d: nat, k: nat): int
    requires Picture(data, w, h, seen) && k < 4
  {
    if d == 0 then 0
    else
      Sum(data, w, h, seen, c, d - 1, k) +
      if SeenChild(w, h, seen, c, d - 1) then data[ChildCell(w, h, seen, c, d - 1) * 4 + k] as int else 0
  }

  function SmallAt(data: seq<byte>, w: nat, h: nat, seen: seq<bool>, o: nat): byte
    requires Picture(data, w, h, seen)
  {
    var c, k := o / 4, o % 4;
    var n := Count(w, h, seen, c, 4);
    if n == 0 then 0 else if k == 3 then 255 else ToByte(Sum(data, w, h, seen, c, 4, k) as real / n as real)
  }

  function Small(data: seq<byte>, w: nat, h: nat, seen: seq<bool>): (small: seq<byte>)
    requires Picture(data, w, h, seen)
    ensures |small| == Half(w) * Half(h) * 4
    ensures forall o :: 0 <= o < |small| ==> small[o] == SmallAt(data, w, h, seen, o)
  {
    seq(Half(w) * Half(h) * 4, o requires o >= 0 => SmallAt(data, w, h, seen, o))
  }

  function SmallSeen(w: nat, h: nat, seen: seq<bool>): (s: seq<bool>)
    requires |seen| == w * h
    ensures |s| == Half(w) * Half(h)
    ensures forall c :: 0 <= c < |s| ==> s[c] == (Count(w, h, seen, c, 4) > 0)
  {
    seq(Half(w) * Half(h), c requires c >= 0 => Count(w, h, seen, c, 4) > 0)
  }

  // ---------- Brought back up ----------

  /** The smaller picture's pixel that `i` is a child of. */
  function Parent(w: nat, h: nat, i: nat): nat
    requires w > 0
  {
    var y, x := Down(w, i) / 2, Across(w, i) / 2;
    Cell(Half(w), if x < Half(w) - 1 then x else Half(w) - 1, if y < Half(h) - 1 then y else Half(h) - 1)
  }

  lemma ParentIsThere(w: nat, h: nat, i: nat)
    requires w > 0
    ensures Parent(w, h, i) < Half(w) * Half(h)
  {
    var y, x := Down(w, i) / 2, Across(w, i) / 2;
    CellOnGrid(Half(w), Half(h), if x < Half(w) - 1 then x else Half(w) - 1,
               if y < Half(h) - 1 then y else Half(h) - 1);
  }

  /** A seen pixel is one of the four its parent stands for. */
  lemma ChildOfItsParent(w: nat, h: nat, seen: seq<bool>, i: nat)
    requires |seen| == w * h && i < w * h && seen[i]
    ensures w > 0 && exists d :: 0 <= d < 4 && SeenChild(w, h, seen, Parent(w, h, i), d)
  {
    hide Cell;
    PlaceOnGrid(w, h, i);
    var x, y := Across(w, i), Down(w, i);
    var c := Parent(w, h, i);
    assert c == Cell(Half(w), x / 2, y / 2);
    CellOf(Half(w), x / 2, y / 2);
    var d := 2 * (y % 2) + x % 2;
    assert ChildX(Half(w), c, d) == x && ChildY(Half(w), c, d) == y;
    assert SeenChild(w, h, seen, c, d);
  }

  function UpAt(data: seq<byte>, w: nat, h: nat, seen: seq<bool>, small: seq<byte>, o: nat): byte
    requires Picture(data, w, h, seen) && |small| == Half(w) * Half(h) * 4 && o < |data|
  {
    var i, k := o / 4, o % 4;
    assert w > 0;
    ParentIsThere(w, h, i);
    if seen[i] then data[o] else if k == 3 then 255 else small[Parent(w, h, i) * 4 + k]
  }

  function Up(data: seq<byte>, w: nat, h: nat, seen: seq<bool>, small: seq<byte>): (up: seq<byte>)
    requires Picture(data, w, h, seen) && |small| == Half(w) * Half(h) * 4
    ensures |up| == |data| && forall o :: 0 <= o < |up| ==> up[o] == UpAt(data, w, h, seen, small, o)
  {
    seq(|data|, o requires 0 <= o < |data| => UpAt(data, w, h, seen, small, o))
  }

  predicate AllAlike(seen: seq<bool>) {
    (forall i :: 0 <= i < |seen| ==> seen[i]) || !(exists i :: 0 <= i < |seen| && seen[i])
  }

  function Filled(data: seq<byte>, w: nat, h: nat, seen: seq<bool>): (r: seq<byte>)
    requires Picture(data, w, h, seen)
    ensures |r| == |data|
    decreases w + h
  {
    if AllAlike(seen) then data
    else
      assert w > 0 && h > 0;
      var small, smallSeen := Small(data, w, h, seen), SmallSeen(w, h, seen);
      Up(data, w, h, seen,
         if Half(w) < w || Half(h) < h then Filled(small, Half(w), Half(h), smallSeen) else small)
  }

  // ---------- In place ----------

  /** The first `c` pixels at half the size are done, and the rest are as they began. */
  ghost predicate SmallTo(small: seq<byte>, smallSeen: seq<bool>, data: seq<byte>, w: nat, h: nat, seen: seq<bool>,
                          c: nat)
    requires Picture(data, w, h, seen)
  {
    && |small| == Half(w) * Half(h) * 4 && |smallSeen| == Half(w) * Half(h)
    && (forall o :: 0 <= o < |small| ==> small[o] == if o < c * 4 then SmallAt(data, w, h, seen, o) else 0)
    && (forall i :: 0 <= i < |smallSeen| ==> smallSeen[i] == (i < c && Count(w, h, seen, i, 4) > 0))
  }

  /** How many of the four were seen, and their channels summed. */
  method AddFour(data: array<byte>, w: nat, h: nat, seen: array<bool>, i: nat, j: nat, ghost c: nat)
    returns (n: nat, r: int, g: int, b: int)
    requires Picture(data[..], w, h, seen[..]) && c == Cell(Half(w), i, j) && i < Half(w)
    ensures n == Count(w, h, seen[..], c, 4)
    ensures r == Sum(data[..], w, h, seen[..], c, 4, 0)
    ensures g == Sum(data[..], w, h, seen[..], c, 4, 1)
    ensures b == Sum(data[..], w, h, seen[..], c, 4, 2)
  {
    hide Cell, Half;
    n, r, g, b := 0, 0, 0, 0;
    CellOf(Half(w), i, j);
    for d := 0 to 4
      invariant n == Count(w, h, seen[..], c, d)
      invariant r == Sum(data[..], w, h, seen[..], c, d, 0)
      invariant g == Sum(data[..], w, h, seen[..], c, d, 1)
      invariant b == Sum(data[..], w, h, seen[..], c, d, 2)
    {
      var x, y := 2 * i + d % 2, 2 * j + d / 2;
      assert x == ChildX(Half(w), c, d) && y == ChildY(Half(w), c, d);
      if x >= w || y >= h {
        continue;
      }
      CellOnGrid(w, h, x, y);
      if !seen[Cell(w, x, y)] {
        continue;
      }
      var o := Cell(w, x, y) * 4;
      r := r + data[o] as int;
      g := g + data[o + 1] as int;
      b := b + data[o + 2] as int;
      n := n + 1;
    }
  }

  lemma SmallHere(data: seq<byte>, w: nat, h: nat, seen: seq<bool>, c: nat, k: nat)
    requires Picture(data, w, h, seen) && k < 4
    ensures
      var n := Count(w, h, seen, c, 4);
      SmallAt(data, w, h, seen, c * 4 + k)
      == if n == 0 then 0 else if k == 3 then 255 else ToByte(Sum(data, w, h, seen, c, 4, k) as real / n as real)
  {
    assert (c * 4 + k) / 4 == c && (c * 4 + k) % 4 == k;
  }

  /** A picture with one pixel's channels set. */
  function WithPixel(data: seq<byte>, i: nat, r: byte, g: byte, b: byte, a: byte): (after: seq<byte>)
    requires i * 4 + 4 <= |data|
    ensures |after| == |data|
    ensures after[i * 4] == r && after[i * 4 + 1] == g && after[i * 4 + 2] == b && after[i * 4 + 3] == a
    ensures forall o :: 0 <= o < |data| && (o < i * 4 || o >= i * 4 + 4) ==> after[o] == data[o]
  {
    data[..i * 4] + [r, g, b, a] + data[i * 4 + 4..]
  }

  method SetPixel(data: array<byte>, i: nat, r: byte, g: byte, b: byte, a: byte)
    requires i * 4 + 4 <= data.Length
    modifies data
    ensures data[..] == WithPixel(old(data[..]), i, r, g, b, a)
  {
    var o := i * 4;
    data[o] := r;
    data[o + 1] := g;
    data[o + 2] := b;
    data[o + 3] := a;
  }

  lemma SmallSet(small: seq<byte>, smallSeen: seq<bool>, data: seq<byte>, w: nat, h: nat, seen: seq<bool>, c: nat,
                 r: byte, g: byte, b: byte, a: byte)
    requires Picture(data, w, h, seen) && SmallTo(small, smallSeen, data, w, h, seen, c) && c < |smallSeen|
    requires r == SmallAt(data, w, h, seen, c * 4) && g == SmallAt(data, w, h, seen, c * 4 + 1)
    requires b == SmallAt(data, w, h, seen, c * 4 + 2) && a == SmallAt(data, w, h, seen, c * 4 + 3)
    ensures c * 4 + 4 <= |small|
    ensures r == g == b == a == 0 && Count(w, h, seen, c, 4) == 0 ==> SmallTo(small, smallSeen, data, w, h, seen, c + 1)
    ensures Count(w, h, seen, c, 4) > 0 ==>
      SmallTo(WithPixel(small, c, r, g, b, a), smallSeen[c := true], data, w, h, seen, c + 1)
  {
    hide SmallAt, Count, WithPixel, Half;
  }

  /** One pixel more is done. */
  lemma SmallOneMore(small: seq<byte>, smallSeen: seq<bool>, data: seq<byte>, w: nat, h: nat, seen: seq<bool>, c: nat)
    requires Picture(data, w, h, seen) && SmallTo(small, smallSeen, data, w, h, seen, c) && c < |smallSeen|
    ensures
      var n := Count(w, h, seen, c, 4);
      if n == 0 then SmallTo(small, smallSeen, data, w, h, seen, c + 1)
      else
        var r := ToByte(Sum(data, w, h, seen, c, 4, 0) as real / n as real);
        var g := ToByte(Sum(data, w, h, seen, c, 4, 1) as real / n as real);
        var b := ToByte(Sum(data, w, h, seen, c, 4, 2) as real / n as real);
        SmallTo(WithPixel(small, c, r, g, b, 255), smallSeen[c := true], data, w, h, seen, c + 1)
  {
    hide SmallAt, Count, Sum, WithPixel, ToByte, Half, SmallTo, Picture;
    SmallHere(data, w, h, seen, c, 0);
    SmallHere(data, w, h, seen, c, 1);
    SmallHere(data, w, h, seen, c, 2);
    SmallHere(data, w, h, seen, c, 3);
    var m := c * 4;
    SmallSet(small, smallSeen, data, w, h, seen, c, SmallAt(data, w, h, seen, m), SmallAt(data, w, h, seen, m + 1),
             SmallAt(data, w, h, seen, m + 2), SmallAt(data, w, h, seen, m + 3));
  }

  /** One more pixel of the smaller picture, a mean over at most four. */
  method SmallPixel(data: array<byte>, w: nat, h: nat, seen: array<bool>, i: nat, j: nat,
                    small: array<byte>, smallSeen: array<bool>)
    requires Picture(data[..], w, h, seen[..]) && i < Half(w) && j < Half(h)
    requires small != data && smallSeen != seen
    requires SmallTo(small[..], smallSeen[..], data[..], w, h, seen[..], Cell(Half(w), i, j))
    modifies small, smallSeen
    ensures SmallTo(small[..], smallSeen[..], data[..], w, h, seen[..], Cell(Half(w), i, j) + 1)
  {
    var c := Cell(Half(w), i, j);
    CellOnGrid(Half(w), Half(h), i, j);
    SmallOneMore(small[..], smallSeen[..], data[..], w, h, seen[..], c);
    assert |small[..]| == Half(w) * Half(h) * 4 && |smallSeen[..]| == Half(w) * Half(h);
    hide Cell, Half, Count, Sum, SmallTo, WithPixel, ToByte;
    var n, r, g, b := AddFour(data, w, h, seen, i, j, c);
    if n == 0 {
      return;
    }
    SetPixel(small, c, ToByte(r as real / n as real), ToByte(g as real / n as real), ToByte(b as real / n as real),
             255);
    smallSeen[c] := true;
  }

  lemma NextCell(w: nat, i: nat, j: nat)
    ensures Cell(w, i, j) + 1 == Cell(w, i + 1, j) && Cell(w, w, j) == Cell(w, 0, j + 1)
    ensures Cell(w, 0, 0) == 0 && Cell(w, 0, j) == w * j
  {
  }

  method Halve(data: array<byte>, w: nat, h: nat, seen: array<bool>)
    returns (small: array<byte>, smallSeen: array<bool>)
    requires Picture(data[..], w, h, seen[..])
    ensures fresh(small) && fresh(smallSeen)
    ensures small[..] == Small(data[..], w, h, seen[..]) && smallSeen[..] == SmallSeen(w, h, seen[..])
  {
    hide Cell, SmallAt, Count, Half;
    var half, tall := Half(w), Half(h);
    small := new byte[half * tall * 4](_ => 0);
    smallSeen := new bool[half * tall](_ => false);
    NextCell(half, 0, 0);
    for j := 0 to tall
      invariant SmallTo(small[..], smallSeen[..], data[..], w, h, seen[..], Cell(half, 0, j))
    {
      for i := 0 to half
        invariant SmallTo(small[..], smallSeen[..], data[..], w, h, seen[..], Cell(half, i, j))
      {
        SmallPixel(data, w, h, seen, i, j, small, smallSeen);
        NextCell(half, i, j);
      }
      NextCell(half, 0, j);
    }
    NextCell(half, 0, tall);
  }

  /** The first `m` channels are filled, and the rest are as they were. */
  ghost predicate FilledTo(now: seq<byte>, was: seq<byte>, w: nat, h: nat, seen: seq<bool>, small: seq<byte>, m: nat)
    requires Picture(was, w, h, seen) && |small| == Half(w) * Half(h) * 4
  {
    |now| == |was| && forall o :: 0 <= o < |was| ==> now[o] == if o < m then UpAt(was, w, h, seen, small, o) else was[o]
  }

  lemma UpHere(data: seq<byte>, w: nat, h: nat, seen: seq<bool>, small: seq<byte>, i: nat, k: nat)
    requires Picture(data, w, h, seen) && |small| == Half(w) * Half(h) * 4 && i < w * h && k < 4
    ensures w > 0 && Parent(w, h, i) < Half(w) * Half(h)
    ensures UpAt(data, w, h, seen, small, i * 4 + k)
         == if seen[i] then data[i * 4 + k] else if k == 3 then 255 else small[Parent(w, h, i) * 4 + k]
  {
    hide Parent, Half;
    assert (i * 4 + k) / 4 == i && (i * 4 + k) % 4 == k;
    assert w == 0 ==> w * h == 0;
    ParentIsThere(w, h, i);
  }

  lemma FilledSet(now: seq<byte>, was: seq<byte>, w: nat, h: nat, seen: seq<bool>, small: seq<byte>, i: nat,
                  r: byte, g: byte, b: byte, a: byte)
    requires Picture(was, w, h, seen) && |small| == Half(w) * Half(h) * 4 && i < w * h
    requires FilledTo(now, was, w, h, seen, small, i * 4)
    requires r == UpAt(was, w, h, seen, small, i * 4) && g == UpAt(was, w, h, seen, small, i * 4 + 1)
    requires b == UpAt(was, w, h, seen, small, i * 4 + 2) && a == UpAt(was, w, h, seen, small, i * 4 + 3)
    ensures i * 4 + 4 <= |now| == |was|
    ensures FilledTo(WithPixel(now, i, r, g, b, a), was, w, h, seen, small, i * 4 + 4)
    ensures was[i * 4] == r && was[i * 4 + 1] == g && was[i * 4 + 2] == b && was[i * 4 + 3] == a ==>
      FilledTo(now, was, w, h, seen, small, i * 4 + 4)
  {
    hide UpAt, WithPixel, Half;
  }

  lemma FilledOneMore(now: seq<byte>, was: seq<byte>, w: nat, h: nat, seen: seq<bool>, small: seq<byte>, i: nat)
    requires Picture(was, w, h, seen) && |small| == Half(w) * Half(h) * 4 && i < w * h
    requires FilledTo(now, was, w, h, seen, small, i * 4)
    ensures w > 0 && Parent(w, h, i) < Half(w) * Half(h)
    ensures
      var from := Parent(w, h, i) * 4;
      FilledTo(if seen[i] then now else WithPixel(now, i, small[from], small[from + 1], small[from + 2], 255),
               was, w, h, seen, small, i * 4 + 4)
  {
    assert i * 4 + 4 <= |was|;
    hide UpAt, Half, WithPixel, Parent, FilledTo;
    UpHere(was, w, h, seen, small, i, 0);
    UpHere(was, w, h, seen, small, i, 1);
    UpHere(was, w, h, seen, small, i, 2);
    UpHere(was, w, h, seen, small, i, 3);
    var m := i * 4;
    FilledSet(now, was, w, h, seen, small, i, UpAt(was, w, h, seen, small, m), UpAt(was, w, h, seen, small, m + 1),
              UpAt(was, w, h, seen, small, m + 2), UpAt(was, w, h, seen, small, m + 3));
  }

  lemma ParentAt(w: nat, h: nat, x: nat, y: nat)
    requires x < w
    ensures
      var half, tall := Half(w), Half(h);
      Parent(w, h, Cell(w, x, y))
      == Cell(half, if x / 2 < half - 1 then x / 2 else half - 1, if y / 2 < tall - 1 then y / 2 else tall - 1)
  {
    CellOf(w, x, y);
  }

  /** A pixel not seen takes its parent's channels, and is opaque. */
  method FillPixel(data: array<byte>, ghost was: seq<byte>, w: nat, h: nat, seen: array<bool>, small: array<byte>,
                   x: nat, y: nat)
    requires Picture(was, w, h, seen[..]) && small.Length == Half(w) * Half(h) * 4 && x < w && y < h && small != data
    requires data.Length == w * h * 4 && FilledTo(data[..], was, w, h, seen[..], small[..], Cell(w, x, y) * 4)
    modifies data
    ensures FilledTo(data[..], was, w, h, seen[..], small[..], Cell(w, x, y) * 4 + 4)
  {
    hide Cell, Half, UpAt, Parent, FilledTo, WithPixel;
    var i := Cell(w, x, y);
    CellOnGrid(w, h, x, y);
    FilledOneMore(data[..], was, w, h, seen[..], small[..], i);
    ParentAt(w, h, x, y);
    assert i * 4 + 4 <= data.Length;
    var half, tall := Half(w), Half(h);
    var from := Cell(half, if x / 2 < half - 1 then x / 2 else half - 1, if y / 2 < tall - 1 then y / 2 else tall - 1);
    if seen[i] {
      return;
    }
    from := from * 4;
    SetPixel(data, i, small[from], small[from + 1], small[from + 2], 255);
  }

  method BringUp(data: array<byte>, w: nat, h: nat, seen: array<bool>, small: array<byte>)
    requires Picture(data[..], w, h, seen[..]) && small.Length == Half(w) * Half(h) * 4 && small != data
    modifies data
    ensures data[..] == Up(old(data[..]), w, h, seen[..], small[..])
  {
    hide Cell, UpAt, Half;
    ghost var was := data[..];
    NextCell(w, 0, 0);
    for y := 0 to h
      invariant FilledTo(data[..], was, w, h, seen[..], small[..], Cell(w, 0, y) * 4)
    {
      for x := 0 to w
        invariant FilledTo(data[..], was, w, h, seen[..], small[..], Cell(w, x, y) * 4)
      {
        FillPixel(data, was, w, h, seen, small, x, y);
        NextCell(w, x, y);
      }
      NextCell(w, 0, y);
    }
    NextCell(w, 0, h);
  }

  method Fill(data: array<byte>, w: nat, h: nat, seen: array<bool>)
    requires seen.Length == w * h && data.Length == w * h * 4
    modifies data
    ensures data[..] == Filled(old(data[..]), w, h, seen[..])
    decreases w + h
  {
    hide Small, SmallSeen, Up, AllAlike;
    if AllAlike(seen[..]) {
      return;
    }
    NotBothOne(w, h, seen[..]);
    var half, tall := Half(w), Half(h);
    var small, smallSeen := Halve(data, w, h, seen);
    if half < w || tall < h {
      Fill(small, half, tall, smallSeen);
    }
    BringUp(data, w, h, seen, small);
  }

  // ---------- What it fills gaps with ----------

  /** A channel of every seen pixel is between these. */
  ghost predicate Between(data: seq<byte>, w: nat, h: nat, seen: seq<bool>, k: nat, low: byte, high: byte)
    requires Picture(data, w, h, seen) && k < 4
  {
    forall i :: 0 <= i < |seen| && seen[i] ==> low <= data[i * 4 + k] <= high
  }

  lemma OneMore(low: int, high: int, n: nat, sum: int, v: int)
    requires low * n <= sum <= high * n && low <= v <= high
    ensures low * (n + 1) <= sum + v <= high * (n + 1)
  {
  }

  lemma {:induction false} SumBetween(data: seq<byte>, w: nat, h: nat, seen: seq<bool>, c: nat, d: nat, k: nat,
                                      low: byte, high: byte)
    requires Picture(data, w, h, seen) && k < 4 && Between(data, w, h, seen, k, low, high)
    ensures
      var n := Count(w, h, seen, c, d);
      low as int * n <= Sum(data, w, h, seen, c, d, k) <= high as int * n
  {
    if d > 0 {
      var n, sum := Count(w, h, seen, c, d - 1), Sum(data, w, h, seen, c, d - 1, k);
      SumBetween(data, w, h, seen, c, d - 1, k, low, high);
      if SeenChild(w, h, seen, c, d - 1) {
        OneMore(low as int, high as int, n, sum, data[ChildCell(w, h, seen, c, d - 1) * 4 + k] as int);
      }
    }
  }

  lemma {:induction false} CountIsNone(w: nat, h: nat, seen: seq<bool>, c: nat, d: nat)
    requires |seen| == w * h
    ensures Count(w, h, seen, c, d) > 0 <==> exists e :: 0 <= e < d && SeenChild(w, h, seen, c, e)
  {
    hide SeenChild;
    if d > 0 {
      CountIsNone(w, h, seen, c, d - 1);
    }
  }

  lemma QuotientBetween(sum: real, n: real, low: real, high: real)
    requires n > 0.0 && low * n <= sum <= high * n
    ensures low <= sum / n <= high
  {
    var m := sum / n;
    assert m * n == sum;
    assert m < low ==> (low - m) * n > 0.0;
    assert m > high ==> (m - high) * n > 0.0;
  }

  lemma MeanBetween(sum: int, n: nat, low: byte, high: byte)
    requires n > 0 && low as int * n <= sum <= high as int * n
    ensures low <= ToByte(sum as real / n as real) <= high
  {
    var l, h := low as int, high as int;
    assert (l * n) as real == l as real * n as real && (h * n) as real == h as real * n as real;
    QuotientBetween(sum as real, n as real, l as real, h as real);
    KeptBetween(sum as real / n as real, low, high);
  }

  lemma SmallBetween(data: seq<byte>, w: nat, h: nat, seen: seq<bool>, k: nat, low: byte, high: byte)
    requires Picture(data, w, h, seen) && k < 3 && Between(data, w, h, seen, k, low, high)
    ensures Between(Small(data, w, h, seen), Half(w), Half(h), SmallSeen(w, h, seen), k, low, high)
  {
    var small, smallSeen := Small(data, w, h, seen), SmallSeen(w, h, seen);
    hide Count, Sum, Half, Between;
    assert forall c :: 0 <= c < |smallSeen| && smallSeen[c] ==> low <= small[c * 4 + k] <= high by {
      forall c | 0 <= c < |smallSeen| && smallSeen[c]
        ensures low <= small[c * 4 + k] <= high
      {
        SumBetween(data, w, h, seen, c, 4, k, low, high);
        MeanBetween(Sum(data, w, h, seen, c, 4, k), Count(w, h, seen, c, 4), low, high);
        assert (c * 4 + k) / 4 == c && (c * 4 + k) % 4 == k;
      }
    }
    BetweenAll(small, Half(w), Half(h), smallSeen, k, low, high);
  }

  lemma BetweenAll(data: seq<byte>, w: nat, h: nat, seen: seq<bool>, k: nat, low: byte, high: byte)
    requires Picture(data, w, h, seen) && k < 4
    ensures Between(data, w, h, seen, k, low, high) <==>
      forall i :: 0 <= i < |seen| && seen[i] ==> low <= data[i * 4 + k] <= high
  {
  }

  lemma SmallHasSeen(w: nat, h: nat, seen: seq<bool>, i: nat)
    requires |seen| == w * h && i < w * h && seen[i]
    ensures w > 0 && Parent(w, h, i) < |SmallSeen(w, h, seen)| && SmallSeen(w, h, seen)[Parent(w, h, i)]
  {
    ChildOfItsParent(w, h, seen, i);
    ParentIsThere(w, h, i);
    CountIsNone(w, h, seen, Parent(w, h, i), 4);
  }

  /** When any pixel was seen, every pixel is filled, each channel between the least
      and the most of that channel over the pixels seen. */
  lemma {:induction false} FilledBetween(data: seq<byte>, w: nat, h: nat, seen: seq<bool>, k: nat,
                                         low: byte, high: byte, some: nat)
    requires Picture(data, w, h, seen) && k < 3 && Between(data, w, h, seen, k, low, high)
    requires some < |seen| && seen[some]
    ensures forall i :: 0 <= i < w * h ==> low <= Filled(data, w, h, seen)[i * 4 + k] <= high
    decreases w + h
  {
    hide Between, Small, SmallSeen, Parent, Half, Up;
    BetweenAll(data, w, h, seen, k, low, high);
    if AllAlike(seen) {
      forall i | 0 <= i < w * h
        ensures low <= data[i * 4 + k] <= high
      {
        assert seen[some] && seen[i];
      }
    } else {
      assert w > 0 && h > 0;
      NotBothOne(w, h, seen);
      var small, smallSeen := Small(data, w, h, seen), SmallSeen(w, h, seen);
      SmallBetween(data, w, h, seen, k, low, high);
      SmallHasSeen(w, h, seen, some);
      FilledBetween(small, Half(w), Half(h), smallSeen, k, low, high, Parent(w, h, some));
      UpBetween(data, w, h, seen, Filled(small, Half(w), Half(h), smallSeen), k, low, high);
    }
  }

  lemma UpBetween(data: seq<byte>, w: nat, h: nat, seen: seq<bool>, small: seq<byte>, k: nat, low: byte, high: byte)
    requires Picture(data, w, h, seen) && k < 3 && Between(data, w, h, seen, k, low, high)
    requires w > 0 && |small| == Half(w) * Half(h) * 4
    requires forall c :: 0 <= c < Half(w) * Half(h) ==> low <= small[c * 4 + k] <= high
    ensures forall i :: 0 <= i < w * h ==> low <= Up(data, w, h, seen, small)[i * 4 + k] <= high
  {
    hide Parent, Half;
    forall i | 0 <= i < w * h
      ensures low <= Up(data, w, h, seen, small)[i * 4 + k] <= high
    {
      assert (i * 4 + k) / 4 == i && (i * 4 + k) % 4 == k;
      ParentIsThere(w, h, i);
      assert low <= small[Parent(w, h, i) * 4 + k] <= high;
    }
  }

  /** Some seen and some not makes two pixels at least, so the recursion goes down. */
  lemma NotBothOne(w: nat, h: nat, seen: seq<bool>)
    requires |seen| == w * h && !AllAlike(seen)
    ensures w > 0 && h > 0 && (Half(w) < w || Half(h) < h)
  {
    assert w * h > 0;
    if w <= 1 && h <= 1 {
      assert w * h <= 1;
      assert AllAlike(seen);
    }
  }

  /** Filling leaves seen pixels alone and the rest opaque; with none seen it does nothing. */
  lemma SeenStays(data: seq<byte>, w: nat, h: nat, seen: seq<bool>, i: nat, k: nat)
    requires Picture(data, w, h, seen) && i < w * h && k < 4
    ensures seen[i] ==> Filled(data, w, h, seen)[i * 4 + k] == data[i * 4 + k]
    ensures !seen[i] && (exists j :: 0 <= j < |seen| && seen[j]) ==> Filled(data, w, h, seen)[i * 4 + 3] == 255
    ensures (forall j :: 0 <= j < |seen| ==> !seen[j]) ==> Filled(data, w, h, seen) == data
  {
    if !AllAlike(seen) {
      var r := Filled(data, w, h, seen);
      assert (i * 4 + k) / 4 == i && (i * 4 + 3) / 4 == i && (i * 4 + 3) % 4 == 3;
    }
  }
}
