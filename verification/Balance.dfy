/** What a blend and a move come to, pixel by pixel: every layer weighs what it is
    trusted, and goes the way it is moved. */
module Balance {
  import opened Clamped
  import opened FillGaps
  import opened Grid
  import opened Layers

  // ---------- Weights ----------

  /** How far the first `n` layers pull one way from `m`, each that saw the pixel by its weight. */
  function Pull(layers: seq<Layer>, gain: seq<real>, w: nat, h: nat, o: nat, k: nat, n: nat, m: real): real
    requires n <= |layers| <= |gain| && o < w * h && k < 3 && AllSized(layers, w, h)
  {
    if n == 0 then 0.0
    else
      var l := layers[n - 1];
      Pull(layers, gain, w, h, o, k, n - 1, m)
      + if l.weight[o] > 0.0 then l.weight[o] * (gain[n - 1] * l.rgb[o * 3 + k] - m) else 0.0
  }

  lemma OnePulls(lw: real, gain: real, c: real, laid: real, trust: real, m: real)
    ensures laid + Lays(lw, gain, c) - m * (trust + lw) == laid - m * trust + lw * (gain * c - m)
  {
    assert Lays(lw, gain, c) == lw * (gain * c);
  }

  lemma {:induction false} PullIs(layers: seq<Layer>, gain: seq<real>, w: nat, h: nat, o: nat, k: nat, n: nat, m: real)
    requires n <= |layers| <= |gain| && o < w * h && k < 3 && AllSized(layers, w, h)
    ensures Pull(layers, gain, w, h, o, k, n, m)
         == Laid(layers, gain, w, h, o, k, n) - m * Trust(layers, w, h, o, n)
  {
    hide Lays;
    if n > 0 {
      PullIs(layers, gain, w, h, o, k, n - 1, m);
      var l := layers[n - 1];
      assert Sized(l, w, h);
      OnePulls(l.weight[o], gain[n - 1], l.rgb[o * 3 + k], Laid(layers, gain, w, h, o, k, n - 1),
               Trust(layers, w, h, o, n - 1), m);
    }
  }

  lemma {:induction false} TrustIsPositive(layers: seq<Layer>, w: nat, h: nat, o: nat, n: nat)
    requires n <= |layers| && o < w * h && AllSized(layers, w, h)
    ensures Trust(layers, w, h, o, n) >= 0.0
    ensures Trust(layers, w, h, o, n) > 0.0 <==> exists i :: 0 <= i < n && layers[i].weight[o] > 0.0
  {
    if n > 0 {
      TrustIsPositive(layers, w, h, o, n - 1);
    }
  }

  /** A pixel is seen exactly when some layer has weight there. */
  lemma SeenBySome(layers: seq<Layer>, w: nat, h: nat, o: nat)
    requires o < w * h && AllSized(layers, w, h)
    ensures SeenBy(layers, w, h)[o] <==> exists i :: 0 <= i < |layers| && layers[i].weight[o] > 0.0
  {
    TrustIsPositive(layers, w, h, o, |layers|);
    hide Trust;
  }

  /** A channel of a pixel that was seen is the byte nearest the one number the layers
      balance at, each pulling by its weight towards its own gained colour. */
  lemma BlendBalances(layers: seq<Layer>, gain: seq<real>, w: nat, h: nat, o: nat, k: nat) returns (m: real)
    requires |layers| <= |gain| && o < w * h && k < 3 && AllSized(layers, w, h) && SeenBy(layers, w, h)[o]
    ensures Pull(layers, gain, w, h, o, k, |layers|, m) == 0.0
    ensures forall b :: Pull(layers, gain, w, h, o, k, |layers|, b) == 0.0 ==> b == m
    ensures Means(layers, gain, w, h)[o * 4 + k] == ToByte(m)
  {
    var trust, laid := Trust(layers, w, h, o, |layers|), Laid(layers, gain, w, h, o, k, |layers|);
    m := laid / trust;
    assert (o * 4 + k) / 4 == o && (o * 4 + k) % 4 == k;
    hide Trust, Laid, Pull, ToByte, AllSized;
    PullIs(layers, gain, w, h, o, k, |layers|, m);
    BalancedAt(laid, trust, m);
    forall b | Pull(layers, gain, w, h, o, k, |layers|, b) == 0.0
      ensures b == m
    {
      PullIs(layers, gain, w, h, o, k, |layers|, b);
      BalancedAt(laid, trust, b);
    }
  }

  lemma BalancedAt(laid: real, trust: real, m: real)
    requires trust > 0.0
    ensures laid - laid / trust * trust == 0.0
    ensures laid - m * trust == 0.0 ==> laid / trust == m
  {
    var q := laid / trust;
    assert q * trust == laid;
    if laid - m * trust == 0.0 {
      assert (q - m) * trust == 0.0;
    }
  }

  /** A layer laid as two, its weight shared out between them, is the same layer. */
  lemma LaidAsTwo(layers: seq<Layer>, gain: seq<real>, one: Layer, two: Layer, whole: Layer, g: real, w: nat, h: nat)
    requires |layers| == |gain| && AllSized(layers, w, h) && Sized(one, w, h) && Sized(two, w, h) && Sized(whole, w, h)
    requires one.rgb == two.rgb == whole.rgb
    requires forall o :: 0 <= o < w * h ==>
      one.weight[o] >= 0.0 && two.weight[o] >= 0.0 && whole.weight[o] == one.weight[o] + two.weight[o]
    ensures Blended(layers + [one, two], gain + [g, g], w, h) == Blended(layers + [whole], gain + [g], w, h)
  {
    var split, joined := layers + [one, two], layers + [whole];
    forall o | 0 <= o < w * h
      ensures Trust(split, w, h, o, |split|) == Trust(joined, w, h, o, |joined|)
      ensures forall k :: 0 <= k < 4 ==>
        MeanAt(split, gain + [g, g], w, h, o, k) == MeanAt(joined, gain + [g], w, h, o, k)
    {
      forall k | 0 <= k < 3
        ensures Laid(split, gain + [g, g], w, h, o, k, |split|) == Laid(joined, gain + [g], w, h, o, k, |joined|)
        ensures Trust(split, w, h, o, |split|) == Trust(joined, w, h, o, |joined|)
      {
        SharedOut(layers, gain, one, two, whole, g, w, h, o, k);
      }
      SharedOut(layers, gain, one, two, whole, g, w, h, o, 0);
      hide Laid, Trust, ToByte, AllSized;
    }
    hide MeanAt, Trust, Laid, AllSized;
    assert Means(split, gain + [g, g], w, h) == Means(joined, gain + [g], w, h);
    assert SeenBy(split, w, h) == SeenBy(joined, w, h);
  }

  lemma SharedOut(layers: seq<Layer>, gain: seq<real>, one: Layer, two: Layer, whole: Layer, g: real, w: nat, h: nat,
                  o: nat, k: nat)
    requires |layers| == |gain| && AllSized(layers, w, h) && Sized(one, w, h) && Sized(two, w, h) && Sized(whole, w, h)
    requires o < w * h && k < 3 && one.rgb == two.rgb == whole.rgb
    requires one.weight[o] >= 0.0 && two.weight[o] >= 0.0 && whole.weight[o] == one.weight[o] + two.weight[o]
    ensures AllSized(layers + [one, two], w, h) && AllSized(layers + [whole], w, h)
    ensures
      var split, joined, n := layers + [one, two], layers + [whole], |layers|;
      && Trust(split, w, h, o, n + 2) == Trust(joined, w, h, o, n + 1)
      && Laid(split, gain + [g, g], w, h, o, k, n + 2) == Laid(joined, gain + [g], w, h, o, k, n + 1)
  {
    var split, joined, n := layers + [one, two], layers + [whole], |layers|;
    SameSoFar(layers, gain, [one, two], [g, g], w, h, o, k, n);
    SameSoFar(layers, gain, [whole], [g], w, h, o, k, n);
    assert split[n] == one && split[n + 1] == two && joined[n] == whole;
    LaysTogether(one.weight[o], two.weight[o], g, whole.rgb[o * 3 + k]);
    hide Lays;
    var t, s := Trust(layers, w, h, o, n), Laid(layers, gain, w, h, o, k, n);
    hide AllSized;
    OneLaidMore(split, gain + [g, g], w, h, o, k, n);
    OneLaidMore(split, gain + [g, g], w, h, o, k, n + 1);
    OneLaidMore(joined, gain + [g], w, h, o, k, n);
    hide Trust, Laid;
  }

  lemma LaysTogether(a: real, b: real, g: real, c: real)
    ensures Lays(a, g, c) + Lays(b, g, c) == Lays(a + b, g, c)
    ensures Lays(0.0, g, c) == 0.0
  {
  }

  lemma OneLaidMore(layers: seq<Layer>, gain: seq<real>, w: nat, h: nat, o: nat, k: nat, n: nat)
    requires n < |layers| <= |gain| && o < w * h && k < 3 && AllSized(layers, w, h) && layers[n].weight[o] >= 0.0
    ensures Trust(layers, w, h, o, n + 1) == Trust(layers, w, h, o, n) + layers[n].weight[o]
    ensures Laid(layers, gain, w, h, o, k, n + 1)
         == Laid(layers, gain, w, h, o, k, n) + Lays(layers[n].weight[o], gain[n], layers[n].rgb[o * 3 + k])
  {
    LaysTogether(0.0, 0.0, gain[n], layers[n].rgb[o * 3 + k]);
  }

  lemma {:induction false} SameSoFar(layers: seq<Layer>, gain: seq<real>, more: seq<Layer>, gains: seq<real>, w: nat,
                                     h: nat, o: nat, k: nat, n: nat)
    requires n <= |layers| == |gain| && |more| == |gains| && o < w * h && k < 3
    requires AllSized(layers, w, h) && AllSized(more, w, h)
    ensures AllSized(layers + more, w, h)
    ensures Trust(layers + more, w, h, o, n) == Trust(layers, w, h, o, n)
    ensures Laid(layers + more, gain + gains, w, h, o, k, n) == Laid(layers, gain, w, h, o, k, n)
  {
    if n > 0 {
      SameSoFar(layers, gain, more, gains, w, h, o, k, n - 1);
    }
  }

  // ---------- Which way ----------

  /** Moved, a pixel is so many columns further along its row, coming in again at its start. */
  lemma GoesAlongItsRow(l: Layer, w: nat, h: nat, turn: int, x: nat, y: nat, k: nat)
    requires Sized(l, w, h) && x < w && y < h && k < 3
    ensures
      var r, from, to := Shifted(l, w, h, turn), Cell(w, x, y), Cell(w, (x + turn) % w, y);
      && from < w * h && to < w * h
      && r.weight[to] == l.weight[from] && r.rgb[to * 3 + k] == l.rgb[from * 3 + k]
  {
    var c := (x + turn) % w;
    CellOnGrid(w, h, x, y);
    CellOnGrid(w, h, c, y);
    CellOf(w, c, y);
    var to := Cell(w, c, y);
    assert Column(w, c, turn) == x by {
      var q := (x + turn) / w;
      assert x + turn == q * w + c;
      Turns(x, 0 - q, w);
      assert (0 - q) * w == 0 - q * w;
      RemainderOfLess(x, w);
    }
    hide Cell;
    assert Source(w, h, turn, to) == Cell(w, x, y);
    assert (to * 3 + k) / 3 == to && (to * 3 + k) % 3 == k;
  }

  /** With nothing seen at all, the blend is black and opaque. */
  lemma NothingSeen(layers: seq<Layer>, gain: seq<real>, w: nat, h: nat, o: nat, k: nat)
    requires |layers| <= |gain| && AllSized(layers, w, h) && o < w * h && k < 4
    requires forall i, p :: 0 <= i < |layers| && 0 <= p < w * h ==> layers[i].weight[p] <= 0.0
    ensures Blended(layers, gain, w, h)[o * 4 + k] == if k == 3 then 255 else 0
  {
    forall p | 0 <= p < w * h
      ensures !SeenBy(layers, w, h)[p]
    {
      SeenBySome(layers, w, h, p);
    }
    SeenStays(Means(layers, gain, w, h), w, h, SeenBy(layers, w, h), o, k);
    assert (o * 4 + k) / 4 == o && (o * 4 + k) % 4 == k;
    hide Filled, Trust;
  }
}
