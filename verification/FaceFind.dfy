/** Choosing among candidate outlines, each reduced to a quad on its hull and a score. */
module FaceFind {
  import opened BiggestQuad
  import opened Geometry
  import opened Grid
  import opened Options
  import opened Piece
  import opened Polygon
  import H = Hull
  import Q = QuadFit

  /** A quad with the share of the cells its piece has, its fit, and the outline's own score. */
  datatype Candidate = Candidate(quad: Quad, share: real, fit: real, score: real)

  ghost predicate IsPiece(mask: seq<byte>, w: nat, start: nat, piece: seq<byte>)
    requires w > 0
  {
    |piece| == |mask| && forall j: nat :: j < |piece| ==> piece[j] == if Connected(mask, w, start, j) then 1 else 0
  }

  /** The corners are the piece's, they turn the same way all round, and the fit
      is what of the piece and of the cells centred in the quad is in both, over what
      is in either. */
  ghost predicate DescribedBy(piece: seq<byte>, w: nat, h: nat, c: Candidate)
    requires w > 0
  {
    && TurnsPositive(c.quad)
    && (forall p :: p in [c.quad.a, c.quad.b, c.quad.c, c.quad.d] ==> H.PieceCorner(piece, w, h, p))
    && Q.Describes(c.fit, Marks(piece), Q.CellsIn(c.quad, w, w * h))
    && c.share * (w * h) as real == |Marks(piece)| as real
  }

  lemma AtLeastFour(points: seq<Point>)
    requires |points| >= 4
    ensures |Candidates(points)| >= 4
  {
    FourLeft(|points|);
  }

  lemma FourLeft(n: nat)
    requires n >= 4
    ensures (n + Step(n) - 1) / Step(n) >= 4
  {
    var step := Step(n);
    var r := (n + step - 1) / step;
    assert n + step - 1 == r * step + (n + step - 1) % step;
    assert r <= 3 ==> r * step <= 3 * step;
  }

  /** The quad found on the hull of a piece: on its corners, and convex. */
  lemma QuadOnHull(piece: seq<byte>, w: nat, h: nat, poly: seq<Point>, q: Option<Quad>)
    requires H.WrapsPiece(piece, w, h, poly)
    requires |Candidates(poly)| >= 4 ==> q.Some? && Largest(Candidates(poly), q.value)
    ensures q.Some? && TurnsPositive(q.value)
    ensures forall p :: p in [q.value.a, q.value.b, q.value.c, q.value.d] ==> H.PieceCorner(piece, w, h, p)
  {
    hide H.PieceCorner, Largest, ConvexPosition, TurnsPositive, TurnsAtEveryCorner, Encloses, Candidates;
    AtLeastFour(poly);
    CandidatesKeep(poly);
    LargestByArea(Candidates(poly), q.value);
  }

  lemma CandidatesKeep(poly: seq<Point>)
    requires ConvexPosition(poly)
    ensures ConvexPosition(Candidates(poly))
    ensures forall p :: p in Candidates(poly) ==> p in poly
  {
    hide ConvexPosition;
    EveryNthConvex(poly, Step(|poly|));
  }

  lemma SomethingMarked(piece: seq<byte>, w: nat, h: nat)
    requires |piece| == w * h && |Marks(piece)| > 0
    ensures w > 0 && exists x, y :: H.Marked(piece, w, h, x, y)
  {
    var i :| i in Marks(piece);
    PlaceOnGrid(w, h, i);
    assert H.Marked(piece, w, h, i % w, i / w);
  }

  lemma NothingMarked(piece: seq<byte>)
    requires forall j :: 0 <= j < |piece| ==> piece[j] == 0
    ensures |Marks(piece)| == 0
  {
    assert Marks(piece) == {};
  }

  lemma EmptyGrid(piece: seq<byte>, w: nat, h: nat)
    requires |piece| == w * h == 0
    ensures forall x, y :: !H.Marked(piece, w, h, x, y)
    ensures |Candidates([])| == 0
  {
  }

  /** One outline at a point: a candidate exactly when the piece there is a fair
      share of the photograph and the model is sure enough of it. */
  method CandidateAt(mask: array<byte>, w: nat, h: nat, px: real, py: real, score: real)
    returns (c: Option<Candidate>, ghost piece: seq<byte>)
    requires mask.Length == w * h
    ensures
      var start := StartCell(w, h, px, py);
      if Said(mask[..], start) then
        && w > 0 && h > 0 && w * h > 0
        && IsPiece(mask[..], w, start, piece)
        && (c.Some? <==> 0.02 <= |Marks(piece)| as real / (w * h) as real <= 0.97 && score >= 0.5)
        && (c.Some? ==> DescribedBy(piece, w, h, c.value) && c.value.score == score)
      else c == None
  {
    hide Marks, H.WrapsPiece, TurnsPositive, Q.Describes, Q.Covered, Q.CellsIn, H.PieceCorner, Connected, StartCell,
      Largest, H.Marked;
    StartIsOnGrid(w, h, px, py);
    var found, area := PieceAt(mask, w, h, px, py);
    piece := found[..];
    if !Said(mask[..], StartCell(w, h, px, py)) {
      NothingMarked(piece);
    }
    if w * h > 0 {
      var share := area as real / (w * h) as real;
      if share < 0.02 || share > 0.97 {
        return None, piece;
      }
    }
    if score < 0.5 {
      return None, piece;
    }
    var poly := H.Hull(found, w, h);
    var quad := Find(poly);
    if area > 0 {
      SomethingMarked(piece, w, h);
      QuadOnHull(piece, w, h, poly, quad);
    } else {
      EmptyGrid(piece, w, h);
    }
    if quad == None {
      return None, piece;
    }
    var fit := Q.QuadFit(found, area, quad.value, w, h);
    Q.CoveredAreTheCellsIn(quad.value, w, w * h);
    c := Some(Candidate(quad.value, area as real / (w * h) as real, fit.value, score));
  }

  // ---------- Choosing among the outlines ----------

  /** The least fit that lets a candidate be chosen by its share. */
  const FACE_FIT := 0.9

  /** The first of the candidates that `key` puts highest. */
  function Highest(cs: seq<Candidate>, key: Candidate -> real): (best: Candidate)
    requires |cs| > 0
    ensures exists i :: 0 <= i < |cs| && best == cs[i] && (forall j :: 0 <= j < i ==> key(cs[j]) < key(cs[i]))
    ensures forall j :: 0 <= j < |cs| ==> key(cs[j]) <= key(best)
  {
    if |cs| == 1 then cs[0]
    else
      var a, b := Highest(cs[..|cs| - 1], key), cs[|cs| - 1];
      if key(b) > key(a) then b else a
  }

  function FaceLike(cs: seq<Candidate>): (r: seq<Candidate>)
    ensures forall c :: c in r <==> c in cs && c.fit >= FACE_FIT
  {
    if cs == [] then []
    else
      var rest := FaceLike(cs[..|cs| - 1]);
      if cs[|cs| - 1].fit >= FACE_FIT then rest + [cs[|cs| - 1]] else rest
  }

  function Sureness(c: Candidate): real {
    c.fit * c.score
  }

  /** By share among those that fit, the first of equals; by sureness if there are none. */
  function Choose(cs: seq<Candidate>): (r: Option<Candidate>)
    ensures r == None <==> cs == []
    ensures r.Some? ==> r.value in cs
    ensures (exists c :: c in cs && c.fit >= FACE_FIT) ==>
      r.Some? && r.value.fit >= FACE_FIT && forall c :: c in cs && c.fit >= FACE_FIT ==> c.share <= r.value.share
    ensures r.Some? && r.value.fit < FACE_FIT ==> forall c :: c in cs ==> Sureness(c) <= Sureness(r.value)
  {
    var faces := FaceLike(cs);
    if |faces| > 0 then
      var best := Highest(faces, (c: Candidate) => c.share);
      Some(best)
    else if |cs| > 0 then
      Some(Highest(cs, Sureness))
    else None
  }

  /** In numbers: a fit of 0.9 is enough to be chosen by share; else the product of fit and
      score tells. */
  lemma ChooseInNumbers(cs: seq<Candidate>, c: Candidate)
    requires c in cs
    ensures
      var best := Choose(cs).value;
      && (c.fit >= 0.9 ==> best.fit >= 0.9 && c.share <= best.share)
      && (best.fit < 0.9 ==> c.fit * c.score <= best.fit * best.score)
  {
    hide Choose, Highest, FaceLike, Sureness;
    var best := Choose(cs).value;
    SurenessIs(c);
    SurenessIs(best);
  }

  lemma SurenessIs(c: Candidate)
    ensures Sureness(c) == c.fit * c.score
  {
  }

  // ---------- Which of equals ----------

  /** Each candidate that is taken for a face has as many before it as were taken before it. */
  lemma {:induction false} FaceLikeInOrder(cs: seq<Candidate>, k: nat)
    requires k < |FaceLike(cs)|
    ensures exists i :: 0 <= i < |cs| && cs[i] == FaceLike(cs)[k] && FaceLike(cs[..i]) == FaceLike(cs)[..k]
  {
    var n, last := |cs| - 1, cs[|cs| - 1];
    var rest := FaceLike(cs[..n]);
    if k == |rest| {
      assert FaceLike(cs)[k] == last && FaceLike(cs)[..k] == rest;
    } else {
      FaceLikeInOrder(cs[..n], k);
      var i :| 0 <= i < n && cs[..n][i] == rest[k] && FaceLike(cs[..n][..i]) == rest[..k];
      assert cs[..n][..i] == cs[..i] && FaceLike(cs)[..k] == rest[..k];
    }
  }

  /** Of well described outlines as large as each other the first is taken, and of
      others as well described. */
  lemma ChooseTakesTheFirst(cs: seq<Candidate>)
    requires cs != []
    ensures
      var c := Choose(cs).value;
      if c.fit >= FACE_FIT then
        exists i ::
          0 <= i < |cs| && cs[i] == c && forall j :: 0 <= j < i && cs[j].fit >= FACE_FIT ==> cs[j].share < c.share
      else exists i :: 0 <= i < |cs| && cs[i] == c && forall j :: 0 <= j < i ==> Sureness(cs[j]) < Sureness(c)
  {
    var faces, c := FaceLike(cs), Choose(cs).value;
    if |faces| > 0 {
      var share := (d: Candidate) => d.share;
      var k :| 0 <= k < |faces| && Highest(faces, share) == faces[k]
            && forall j :: 0 <= j < k ==> share(faces[j]) < share(faces[k]);
      FaceLikeInOrder(cs, k);
      var i :| 0 <= i < |cs| && cs[i] == faces[k] && FaceLike(cs[..i]) == faces[..k];
      forall j | 0 <= j < i && cs[j].fit >= FACE_FIT
        ensures cs[j].share < c.share
      {
        assert cs[j] in cs[..i];
        assert cs[j] in faces[..k];
      }
    }
  }
}
