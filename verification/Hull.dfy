/** From marked cells to a strictly convex polygon round all their corners. */
module Hull {
  import opened Geometry
  import opened Grid
  import opened MonotoneChain
  import opened Polygon

  // ---------- The corners of a piece's pixels ----------

  /** Whether the pixel across `x` and down `y` is one of the piece's. */
  predicate Marked(cells: seq<byte>, w: nat, h: nat, x: int, y: int) {
    OnGrid(w, h, x, y) && Cell(w, x, y) < |cells| && cells[Cell(w, x, y)] != 0
  }

  predicate CornerAt(p: Point, x: int, y: int) {
    x <= p.x <= x + 1 && y <= p.y <= y + 1
  }

  /** A corner of one of the piece's pixels. */
  ghost predicate PieceCorner(cells: seq<byte>, w: nat, h: nat, p: Point) {
    exists x, y :: Marked(cells, w, h, x, y) && CornerAt(p, x, y)
  }

  /** A polygon that wraps the piece: convex, its corners pixel corners, and no pixel corner outside it. */
  ghost predicate WrapsPiece(cells: seq<byte>, w: nat, h: nat, poly: seq<Point>) {
    && |poly| >= 4
    && TurnsAtEveryCorner(poly)
    && ConvexPosition(poly)
    && (forall p :: p in poly ==> PieceCorner(cells, w, h, p))
    && (forall p :: PieceCorner(cells, w, h, p) ==> Encloses(poly, p))
  }

  /** The four corners of a row of pixels from `first` to `last`. */
  predicate HasRow(pts: seq<Point>, first: int, last: int, y: int) {
    && Point(first, y) in pts && Point(last + 1, y) in pts
    && Point(first, y + 1) in pts && Point(last + 1, y + 1) in pts
  }

  /** The rows above `rows`, each by the corners of its first pixel and its last. */
  ghost predicate RowEndsOf(cells: seq<byte>, w: nat, h: nat, rows: nat, pts: seq<Point>) {
    && (forall p :: p in pts ==> PieceCorner(cells, w, h, p))
    && (forall x, y :: Marked(cells, w, h, x, y) && y < rows ==>
          exists first, last :: first <= x <= last && HasRow(pts, first, last, y))
  }

  lemma RowAdded(cells: seq<byte>, w: nat, h: nat, y: nat, pts: seq<Point>, first: int, last: int)
    requires RowEndsOf(cells, w, h, y, pts)
    requires Marked(cells, w, h, first, y) && Marked(cells, w, h, last, y)
    requires forall x :: Marked(cells, w, h, x, y) ==> first <= x <= last
    ensures RowEndsOf(cells, w, h, y + 1,
                      pts + [Point(first, y), Point(last + 1, y), Point(first, y + 1), Point(last + 1, y + 1)])
  {
    var more := [Point(first, y), Point(last + 1, y), Point(first, y + 1), Point(last + 1, y + 1)];
    var all := pts + more;
    forall p | p in all
      ensures PieceCorner(cells, w, h, p)
    {
      if p in more {
        assert CornerAt(p, first, y) || CornerAt(p, last, y);
      }
    }
    forall x, y' | Marked(cells, w, h, x, y') && y' < y + 1
      ensures exists f, l :: f <= x <= l && HasRow(all, f, l, y')
    {
      if y' == y {
        assert more[0] in all && more[1] in all && more[2] in all && more[3] in all;
        assert HasRow(all, first, last, y');
      } else {
        var f, l :| f <= x <= l && HasRow(pts, f, l, y');
        assert HasRow(all, f, l, y');
      }
    }
  }

  method RowEnds(piece: array<byte>, w: nat, h: nat) returns (pts: seq<Point>)
    requires piece.Length == w * h
    ensures RowEndsOf(piece[..], w, h, h, pts)
  {
    pts := [];
    for y := 0 to h
      invariant RowEndsOf(piece[..], w, h, y, pts)
    {
      var first, last := -1, -1;
      for x := 0 to w
        invariant first < 0 ==> first == -1 && forall x' :: x' < x ==> !Marked(piece[..], w, h, x', y)
        invariant first >= 0 ==> Marked(piece[..], w, h, first, y) && Marked(piece[..], w, h, last, y) && last < x
        invariant first >= 0 ==> forall x' :: x' < x && Marked(piece[..], w, h, x', y) ==> first <= x' <= last
      {
        CellOnGrid(w, h, x, y);
        if piece[y * w + x] != 0 {
          assert Marked(piece[..], w, h, x, y);
          if first < 0 {
            first := x;
          }
          last := x;
        }
      }
      if first >= 0 {
        RowAdded(piece[..], w, h, y, pts, first, last);
        pts := pts + [Point(first, y), Point(last + 1, y), Point(first, y + 1), Point(last + 1, y + 1)];
      }
    }
  }

  function Insert(p: Point, s: seq<Point>): (r: seq<Point>)
    requires Sorted(1, s)
    ensures Sorted(1, r) && multiset(r) == multiset(s) + multiset{p}
  {
    if s == [] then [p]
    else if Order(1, p, s[0]) then
      FirstInOrder(p, s);
      [p] + s
    else
      var rest := Insert(p, s[1..]);
      InsertBehind(p, s, rest);
      [s[0]] + rest
  }

  lemma FirstInOrder(p: Point, s: seq<Point>)
    requires Sorted(1, s) && |s| > 0 && Order(1, p, s[0])
    ensures Sorted(1, [p] + s)
  {
    forall k | 0 <= k < |s|
      ensures Order(1, p, s[k])
    {
      OrderLaws(1, p, s[0], s[k]);
      OrderLaws(1, s[0], s[0], s[0]);
    }
  }

  lemma InsertBehind(p: Point, s: seq<Point>, rest: seq<Point>)
    requires Sorted(1, s) && |s| > 0 && !Order(1, p, s[0])
    requires Sorted(1, rest) && multiset(rest) == multiset(s[1..]) + multiset{p}
    ensures Sorted(1, [s[0]] + rest) && multiset([s[0]] + rest) == multiset(s) + multiset{p}
  {
    assert s == [s[0]] + s[1..];
    forall q | q in rest
      ensures Order(1, s[0], q)
    {
      assert q in multiset(rest);
      if q != p {
        assert q in s[1..];
        var k :| 0 <= k < |s[1..]| && s[1..][k] == q;
        assert s[k + 1] == q;
      }
      OrderLaws(1, p, s[0], s[0]);
    }
  }

  /** The points sorted left to right, and downwards within a column. */
  function SortPoints(pts: seq<Point>): (r: seq<Point>)
    ensures Sorted(1, r) && multiset(r) == multiset(pts)
  {
    if pts == [] then []
    else
      assert pts == [pts[0]] + pts[1..];
      Insert(pts[0], SortPoints(pts[1..]))
  }

  function DropLast<T>(s: seq<T>): seq<T> {
    if s == [] then [] else s[..|s| - 1]
  }

  // ---------- The polygon round the cells ----------

  /** In the first column there are two corners of the hull, and two in the last. */
  lemma FourCorners(pts: seq<Point>, lower: seq<Point>, upper: seq<Point>, high: Point, low: Point)
    requires BothWays(pts, lower, upper)
    requires high in pts && high.x == pts[0].x && high.y > pts[0].y
    requires low in pts && low.x == pts[|pts| - 1].x && low.y < pts[|pts| - 1].y
    requires pts[0].x < pts[|pts| - 1].x
    ensures |lower| >= 3 && |upper| >= 3
  {
    hide Wraps, Spread, Sorted, Cross, Order;
    ChainEnds(pts, lower, upper);
    EndEdges(1, lower, pts, low);
    EndEdges(-1, upper, Reverse(pts), high);
    var a, b := lower[|lower| - 2], upper[|upper| - 2];
    UprightEdge(a, pts[|pts| - 1], low);
    UprightEdge(b, pts[0], high);
  }

  /** An edge with the point straight behind its end on its inner side does not come from the other side. */
  lemma UprightEdge(a: Point, m: Point, q: Point)
    requires Cross(a, m, q) >= 0 && q.x == m.x
    ensures q.y < m.y ==> a.x >= m.x
    ensures q.y > m.y ==> a.x <= m.x
  {
    assert Cross(a, m, q) == (m.x - a.x) * (q.y - m.y);
    if q.y < m.y {
      PositiveFactor(m.y - q.y, m.x - a.x);
      assert (m.y - q.y) * (m.x - a.x) == -Cross(a, m, q);
    } else if q.y > m.y {
      PositiveFactor(q.y - m.y, m.x - a.x);
    }
  }

  /** Between two points of a row that no edge has outside it, there is nothing outside either. */
  lemma RowEnclosed(poly: seq<Point>, first: int, last: int, p: Point)
    requires Encloses(poly, Point(first, p.y)) && Encloses(poly, Point(last, p.y))
    requires first <= p.x <= last
    ensures Encloses(poly, p)
  {
    forall i: nat | i < |poly|
      ensures Cross(poly[i], poly[Next(|poly|, i)], p) >= 0
    {
      var a, b := poly[i], poly[Next(|poly|, i)];
      var f, l := Point(first, p.y), Point(last, p.y);
      var dy := b.y - a.y;
      assert Cross(a, b, f) >= 0 && Cross(a, b, l) >= 0;
      assert Cross(a, b, p) - Cross(a, b, l) == dy * (last - p.x);
      assert Cross(a, b, p) - Cross(a, b, f) == (-dy) * (p.x - first);
      if dy >= 0 {
        NonNegativeProduct(dy, last - p.x);
      } else {
        NonNegativeProduct(-dy, p.x - first);
      }
    }
  }

  lemma RowOfPixel(cells: seq<byte>, w: nat, h: nat, pts: seq<Point>, x: int, y: int) returns (first: int, last: int)
    requires RowEndsOf(cells, w, h, h, pts) && Marked(cells, w, h, x, y)
    ensures first <= x <= last && HasRow(pts, first, last, y)
  {
    hide HasRow, PieceCorner, Cell;
    first, last :| first <= x <= last && HasRow(pts, first, last, y);
  }

  lemma PieceEnclosed(cells: seq<byte>, w: nat, h: nat, pts: seq<Point>, poly: seq<Point>)
    requires RowEndsOf(cells, w, h, h, pts)
    requires forall q :: q in pts ==> Encloses(poly, q)
    ensures forall p :: PieceCorner(cells, w, h, p) ==> Encloses(poly, p)
  {
    hide Encloses, Cell, RowEndsOf;
    forall p | PieceCorner(cells, w, h, p)
      ensures Encloses(poly, p)
    {
      var x, y :| Marked(cells, w, h, x, y) && CornerAt(p, x, y);
      var first, last := RowOfPixel(cells, w, h, pts, x, y);
      assert p.y == y || p.y == y + 1;
      RowEnclosed(poly, first, last + 1, p);
    }
  }

  /** A point of a sorted sequence is between its ends. */
  lemma BetweenEnds(pts: seq<Point>, q: Point)
    requires Sorted(1, pts) && q in pts
    ensures pts[0].x <= q.x && (pts[0].x == q.x ==> pts[0].y <= q.y)
    ensures q.x <= pts[|pts| - 1].x && (pts[|pts| - 1].x == q.x ==> q.y <= pts[|pts| - 1].y)
  {
    var k :| 0 <= k < |pts| && pts[k] == q;
    OrderLaws(1, q, q, q);
    assert Order(1, pts[0], q) && Order(1, q, pts[|pts| - 1]);
  }

  /** Some row whose ends reach at least as far as `p`, among the row ends. */
  lemma RowOf(cells: seq<byte>, w: nat, h: nat, pts: seq<Point>, p: Point) returns (first: int, last: int, y: int)
    requires RowEndsOf(cells, w, h, h, pts) && p in pts
    ensures first <= last && first <= p.x <= last + 1 && y <= p.y <= y + 1
    ensures HasRow(pts, first, last, y)
  {
    hide HasRow;
    assert PieceCorner(cells, w, h, p);
    var x, y' :| Marked(cells, w, h, x, y') && CornerAt(p, x, y');
    var f, l :| f <= x <= l && HasRow(pts, f, l, y');
    return f, l, y';
  }

  /** Each pixel has two corners above one another at either side of it, so the
      first column of corners has two, and so has the last. */
  lemma UprightSides(cells: seq<byte>, w: nat, h: nat, raw: seq<Point>, pts: seq<Point>)
    returns (high: Point, low: Point)
    requires RowEndsOf(cells, w, h, h, raw) && Sorted(1, pts) && |pts| > 0
    requires forall q :: q in raw <==> q in pts
    ensures high in pts && high.x == pts[0].x && high.y > pts[0].y
    ensures low in pts && low.x == pts[|pts| - 1].x && low.y < pts[|pts| - 1].y
    ensures pts[0].x < pts[|pts| - 1].x
    ensures Spread(pts)
  {
    hide RowEndsOf, Sorted;
    assert pts[0] in pts && pts[|pts| - 1] in pts;
    var first, last, y := RowOf(cells, w, h, raw, pts[0]);
    BetweenEnds(pts, Point(first, y));
    BetweenEnds(pts, Point(last + 1, y));
    high := Point(first, y + 1);
    SpreadAcrossARow(pts, first, last, y);
    first, last, y := RowOf(cells, w, h, raw, pts[|pts| - 1]);
    BetweenEnds(pts, Point(last + 1, y));
    BetweenEnds(pts, Point(last + 1, y + 1));
    low := Point(last + 1, y);
  }

  lemma SpreadAcrossARow(pts: seq<Point>, first: int, last: int, y: int)
    requires HasRow(pts, first, last, y) && first <= last
    ensures Spread(pts)
  {
    assert Cross(Point(first, y), Point(last + 1, y), Point(first, y + 1)) == last + 1 - first;
  }

  lemma SameMembers(a: seq<Point>, b: seq<Point>)
    requires multiset(a) == multiset(b)
    ensures |a| == |b| && forall q :: q in a <==> q in b
  {
    assert forall q :: q in a <==> q in multiset(a);
    assert forall q :: q in b <==> q in multiset(b);
    assert |a| == |multiset(a)| && |b| == |multiset(b)|;
  }

  /** Everything the two chains make of a piece's row ends. */
  lemma HullIsRight(cells: seq<byte>, w: nat, h: nat, raw: seq<Point>, pts: seq<Point>, lower: seq<Point>,
                    upper: seq<Point>)
    requires RowEndsOf(cells, w, h, h, raw) && Sorted(1, pts) && |pts| > 0
    requires forall q :: q in raw <==> q in pts
    requires Wraps(1, lower, pts) && Wraps(-1, upper, Reverse(pts))
    ensures WrapsPiece(cells, w, h, DropLast(lower) + DropLast(upper))
  {
    hide Wraps, Sorted, Spread, Encloses, ConvexPosition, TurnsAtEveryCorner, PieceCorner, Marked;
    var high, low := UprightSides(cells, w, h, raw, pts);
    JoinedIsConvex(pts, lower, upper);
    FourCorners(pts, lower, upper, high, low);
    var poly := Joined(lower, upper);
    assert poly == DropLast(lower) + DropLast(upper);
    PieceEnclosed(cells, w, h, raw, poly);
  }

  /** Empty for no marked cell; else convex, and no marked cell's corner is outside it. */
  method Hull(piece: array<byte>, w: nat, h: nat) returns (poly: seq<Point>)
    requires piece.Length == w * h
    ensures (forall x, y :: !Marked(piece[..], w, h, x, y)) ==> poly == []
    ensures (exists x, y :: Marked(piece[..], w, h, x, y)) ==> WrapsPiece(piece[..], w, h, poly)
  {
    hide Wraps, WrapsPiece, Sorted;
    var raw := RowEnds(piece, w, h);
    var pts := SortPoints(raw);
    SameMembers(pts, raw);
    ReverseSorts(pts);
    var lower := Chain(1, pts);
    var upper := Chain(-1, Reverse(pts));
    poly := DropLast(lower) + DropLast(upper);
    if |pts| > 0 {
      HullIsRight(piece[..], w, h, raw, pts, lower, upper);
      assert raw[0] in raw;
    } else {
      WrapsEnds(1, lower, pts);
      WrapsEnds(-1, upper, Reverse(pts));
    }
  }
}
