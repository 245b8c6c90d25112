/** Where an unseen pixel's colour comes from: the seen ones of its own four, or, when
    none of them was, the same of the picture at half the size. */
module Siblings {
  import opened Clamped
  import opened FillGaps
  import opened Grid

  /** On the picture, and seen. */
  predicate SeenAt(w: nat, h: nat, seen: seq<bool>, x: nat, y: nat)
    requires |seen| == w * h
  {
    OnGrid(w, h, x, y) && (CellOnGrid(w, h, x, y); seen[Cell(w, x, y)])
  }

  function OneIf(b: bool): nat {
    if b then 1 else 0
  }

  /** How many of the four whose columns begin at `x` and rows at `y` were seen. */
  function SeenOfFour(w: nat, h: nat, seen: seq<bool>, x: nat, y: nat): nat
    requires |seen| == w * h
  {
    OneIf(SeenAt(w, h, seen, x, y)) + OneIf(SeenAt(w, h, seen, x + 1, y))
    + OneIf(SeenAt(w, h, seen, x, y + 1)) + OneIf(SeenAt(w, h, seen, x + 1, y + 1))
  }

  /** A pixel's channel, when it was seen. */
  function ValueAt(data: seq<byte>, w: nat, h: nat, seen: seq<bool>, x: nat, y: nat, k: nat): int
    requires Picture(data, w, h, seen) && k < 4
  {
    if SeenAt(w, h, seen, x, y) then (CellOnGrid(w, h, x, y); data[Cell(w, x, y) * 4 + k] as int) else 0
  }

  function SumOfFour(data: seq<byte>, w: nat, h: nat, seen: seq<bool>, x: nat, y: nat, k: nat): int
    requires Picture(data, w, h, seen) && k < 4
  {
    ValueAt(data, w, h, seen, x, y, k) + ValueAt(data, w, h, seen, x + 1, y, k)
    + ValueAt(data, w, h, seen, x, y + 1, k) + ValueAt(data, w, h, seen, x + 1, y + 1, k)
  }

  lemma ChildIsAt(data: seq<byte>, w: nat, h: nat, seen: seq<bool>, i: nat, j: nat, d: nat, k: nat)
    requires Picture(data, w, h, seen) && i < Half(w) && d < 4 && k < 4
    ensures
      var c, x, y := Cell(Half(w), i, j), 2 * i + d % 2, 2 * j + d / 2;
      && (SeenChild(w, h, seen, c, d) <==> SeenAt(w, h, seen, x, y))
      && (SeenChild(w, h, seen, c, d) ==>
            data[ChildCell(w, h, seen, c, d) * 4 + k] as int == ValueAt(data, w, h, seen, x, y, k))
  {
    CellOf(Half(w), i, j);
    assert ChildX(Half(w), Cell(Half(w), i, j), d) == 2 * i + d % 2;
    assert ChildY(Half(w), Cell(Half(w), i, j), d) == 2 * j + d / 2;
    hide Cell, Half, ChildX, ChildY, Across, Down;
  }

  lemma FourAre(data: seq<byte>, w: nat, h: nat, seen: seq<bool>, i: nat, j: nat, k: nat)
    requires Picture(data, w, h, seen) && i < Half(w) && k < 4
    ensures
      var c := Cell(Half(w), i, j);
      && Count(w, h, seen, c, 4) == SeenOfFour(w, h, seen, 2 * i, 2 * j)
      && Sum(data, w, h, seen, c, 4, k) == SumOfFour(data, w, h, seen, 2 * i, 2 * j, k)
  {
    var c := Cell(Half(w), i, j);
    hide Cell, Half, SeenChild, ChildCell, SeenAt, ValueAt, Count, Sum;
    NoChildren(data, w, h, seen, c, k);
    ChildMore(data, w, h, seen, i, j, 0, k);
    ChildMore(data, w, h, seen, i, j, 1, k);
    ChildMore(data, w, h, seen, i, j, 2, k);
    ChildMore(data, w, h, seen, i, j, 3, k);
  }

  lemma NoChildren(data: seq<byte>, w: nat, h: nat, seen: seq<bool>, c: nat, k: nat)
    requires Picture(data, w, h, seen) && k < 4
    ensures Count(w, h, seen, c, 0) == 0 && Sum(data, w, h, seen, c, 0, k) == 0
  {
  }

  lemma ChildMore(data: seq<byte>, w: nat, h: nat, seen: seq<bool>, i: nat, j: nat, d: nat, k: nat)
    requires Picture(data, w, h, seen) && i < Half(w) && d < 4 && k < 4
    ensures
      var c, x, y := Cell(Half(w), i, j), 2 * i + d % 2, 2 * j + d / 2;
      && Count(w, h, seen, c, d + 1) == Count(w, h, seen, c, d) + OneIf(SeenAt(w, h, seen, x, y))
      && Sum(data, w, h, seen, c, d + 1, k) == Sum(data, w, h, seen, c, d, k) + ValueAt(data, w, h, seen, x, y, k)
  {
    var c := Cell(Half(w), i, j);
    hide Cell, Half, SeenChild, ChildCell, SeenAt, ValueAt;
    ChildIsAt(data, w, h, seen, i, j, d, k);
    OneChildMore(data, w, h, seen, c, d, k);
    NotSeenIsNothing(data, w, h, seen, 2 * i + d % 2, 2 * j + d / 2, k);
    hide Count, Sum;
  }

  lemma NotSeenIsNothing(data: seq<byte>, w: nat, h: nat, seen: seq<bool>, x: nat, y: nat, k: nat)
    requires Picture(data, w, h, seen) && k < 4
    ensures !SeenAt(w, h, seen, x, y) ==> ValueAt(data, w, h, seen, x, y, k) == 0
  {
  }

  lemma OneChildMore(data: seq<byte>, w: nat, h: nat, seen: seq<bool>, c: nat, d: nat, k: nat)
    requires Picture(data, w, h, seen) && k < 4
    ensures Count(w, h, seen, c, d + 1) == Count(w, h, seen, c, d) + OneIf(SeenChild(w, h, seen, c, d))
    ensures
      Sum(data, w, h, seen, c, d + 1, k) == Sum(data, w, h, seen, c, d, k)
      + if SeenChild(w, h, seen, c, d) then data[ChildCell(w, h, seen, c, d) * 4 + k] as int else 0
  {
  }

  /** A pixel of the smaller picture has its seen children's plain mean, and
      is seen when any of them was. */
  lemma SmallIsTheirMean(data: seq<byte>, w: nat, h: nat, seen: seq<bool>, i: nat, j: nat, k: nat)
    requires Picture(data, w, h, seen) && i < Half(w) && j < Half(h) && k < 3
    ensures
      var c, n := Cell(Half(w), i, j), SeenOfFour(w, h, seen, 2 * i, 2 * j);
      && c < Half(w) * Half(h) && c * 4 + 3 < |Small(data, w, h, seen)|
      && (SmallSeen(w, h, seen)[c] <==> n > 0)
      && (n > 0 ==>
            && Small(data, w, h, seen)[c * 4 + k]
               == ToByte(SumOfFour(data, w, h, seen, 2 * i, 2 * j, k) as real / n as real)
            && Small(data, w, h, seen)[c * 4 + 3] == 255)
  {
    CellOnGrid(Half(w), Half(h), i, j);
    FourAre(data, w, h, seen, i, j, k);
    var c := Cell(Half(w), i, j);
    SmallHere(data, w, h, seen, c, k);
    SmallHere(data, w, h, seen, c, 3);
    hide Cell, Half, Count, Sum, SumOfFour, SeenOfFour, ToByte, SmallAt;
  }

  lemma HalfOfColumn(n: nat, x: nat)
    requires x < n
    ensures x / 2 < Half(n)
  {
  }

  /** An unseen pixel of a picture some of which was seen: with any seen among its four, it
      gets their mean, rounded to a byte; with none, what the half-size picture's pixel
      for them is filled with. */
  lemma FilledFrom(data: seq<byte>, w: nat, h: nat, seen: seq<bool>, x: nat, y: nat, k: nat)
    requires Picture(data, w, h, seen) && x < w && y < h && k < 3
    requires !SeenAt(w, h, seen, x, y) && exists i :: 0 <= i < |seen| && seen[i]
    ensures
      var at, i, j := Cell(w, x, y), x / 2, y / 2;
      var n, c := SeenOfFour(w, h, seen, 2 * i, 2 * j), Cell(Half(w), i, j);
      && i < Half(w) && j < Half(h) && at < w * h && c < Half(w) * Half(h)
      && Filled(data, w, h, seen)[at * 4 + k]
         == if n > 0 then ToByte(SumOfFour(data, w, h, seen, 2 * i, 2 * j, k) as real / n as real)
            else Filled(Small(data, w, h, seen), Half(w), Half(h), SmallSeen(w, h, seen))[c * 4 + k]
  {
    var at, i, j := Cell(w, x, y), x / 2, y / 2;
    hide Cell, SeenAt, Small, SmallSeen, SumOfFour, SeenOfFour, ToByte, AllAlike, Half, Filled, Parent;
    HalfOfColumn(w, x);
    HalfOfColumn(h, y);
    UnseenThere(w, h, seen, x, y);
    ParentIs(w, h, x, y);
    SmallIsTheirMean(data, w, h, seen, i, j, k);
    BroughtUp(data, w, h, seen, at, Cell(Half(w), i, j), k);
  }

  lemma UnseenThere(w: nat, h: nat, seen: seq<bool>, x: nat, y: nat)
    requires |seen| == w * h && x < w && y < h && !SeenAt(w, h, seen, x, y)
    requires exists i :: 0 <= i < |seen| && seen[i]
    ensures Cell(w, x, y) < w * h && !seen[Cell(w, x, y)] && !AllAlike(seen)
  {
    CellOnGrid(w, h, x, y);
  }

  lemma ParentIs(w: nat, h: nat, x: nat, y: nat)
    requires x < w && y < h
    ensures Parent(w, h, Cell(w, x, y)) == Cell(Half(w), x / 2, y / 2)
  {
    ParentAt(w, h, x, y);
    HalfOfColumn(w, x);
    HalfOfColumn(h, y);
  }

  lemma BroughtUp(data: seq<byte>, w: nat, h: nat, seen: seq<bool>, at: nat, c: nat, k: nat)
    requires Picture(data, w, h, seen) && !AllAlike(seen) && at < w * h && !seen[at] && k < 3
    requires w > 0 && c == Parent(w, h, at)
    ensures
      var small, smallSeen := Small(data, w, h, seen), SmallSeen(w, h, seen);
      && c < Half(w) * Half(h)
      && Filled(data, w, h, seen)[at * 4 + k] == Filled(small, Half(w), Half(h), smallSeen)[c * 4 + k]
      && (smallSeen[c] ==> Filled(data, w, h, seen)[at * 4 + k] == small[c * 4 + k])
  {
    hide Parent, UpAt, Small, SmallSeen, Half, Filled, AllAlike;
    ParentIsThere(w, h, at);
    SmallStays(Small(data, w, h, seen), Half(w), Half(h), SmallSeen(w, h, seen), c, k);
    FromParent(data, w, h, seen, Filled(Small(data, w, h, seen), Half(w), Half(h), SmallSeen(w, h, seen)), at, k);
    FilledIsBroughtUp(data, w, h, seen, at * 4 + k);
  }

  lemma SmallStays(data: seq<byte>, w: nat, h: nat, seen: seq<bool>, i: nat, k: nat)
    requires Picture(data, w, h, seen) && i < w * h && k < 3
    ensures seen[i] ==> Filled(data, w, h, seen)[i * 4 + k] == data[i * 4 + k]
  {
    hide Filled;
    SeenStays(data, w, h, seen, i, k);
  }

  lemma FromParent(data: seq<byte>, w: nat, h: nat, seen: seq<bool>, small: seq<byte>, i: nat, k: nat)
    requires Picture(data, w, h, seen) && |small| == Half(w) * Half(h) * 4 && i < w * h && k < 3 && !seen[i]
    ensures w > 0 && Parent(w, h, i) < Half(w) * Half(h)
    ensures UpAt(data, w, h, seen, small, i * 4 + k) == small[Parent(w, h, i) * 4 + k]
  {
    hide UpAt, Parent, Half;
    UpHere(data, w, h, seen, small, i, k);
  }

  lemma FilledIsBroughtUp(data: seq<byte>, w: nat, h: nat, seen: seq<bool>, o: nat)
    requires Picture(data, w, h, seen) && !AllAlike(seen) && o < |data|
    ensures
      var small := Filled(Small(data, w, h, seen), Half(w), Half(h), SmallSeen(w, h, seen));
      Filled(data, w, h, seen)[o] == UpAt(data, w, h, seen, small, o)
  {
    NotBothOne(w, h, seen);
    hide UpAt;
  }
}
