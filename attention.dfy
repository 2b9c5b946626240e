/** Multi-head causal self-attention with rotary position embeddings and a key-value cache
    laid out as `[n_layers, seq_len, dim]`.  `head_dim` is `dim / n_heads`; head `h` owns the
    entries `h * head_dim ..` of the query, key and value vectors. */
module AttentionLayer {
  import opened Errors
  import opened Numerics
  import opened Tensors
  import opened Streams

  // ---------------------------------------------------------------------------------------
  // Rotary position embedding

  /** One step of the rotation loop: the pair (`a`, `a + 1`) rotated by cosine `c` and sine `s`. */
  function Rotate(v: seq<int>, a: nat, c: int, s: int): (r: seq<int>)
    requires a + 1 < |v|
    ensures |r| == |v|
  {
    v[a := v[a] * c - v[a + 1] * s][a + 1 := v[a] * s + v[a + 1] * c]
  }

  /** How many pairs `for (i = 0; i < head_dim; i += 2)` visits. */
  function Pairs(hd: nat): nat
  {
    (hd + 1) / 2
  }

  /** How many entries from the head's start the rotation writes. */
  function RopeSpan(hd: nat): nat
  {
    2 * Pairs(hd)
  }

  /** The rotation writes exactly the head when `head_dim` is even, and one entry past it when
      it is odd (the first entry of the next head, or past the vector for the last head). */
  lemma RopeSpanBounds(hd: nat)
    ensures hd <= RopeSpan(hd) <= hd + 1
    ensures RopeSpan(hd) == hd <==> hd % 2 == 0
  {
  }

  /** `v` after the first `n` pair steps of `apply_rope` on the head that starts at `base`;
      pair `j` is rotated by the angle for `(pos, 2 j, head_dim)`. */
  function RopeHead(v: seq<int>, base: nat, pos: int, hd: nat, n: nat, k: Kernels): (r: seq<int>)
    requires n <= Pairs(hd) && base + 2 * n <= |v|
    ensures |r| == |v|
    ensures forall j :: 0 <= j < |v| && !(base <= j < base + 2 * n) ==> r[j] == v[j]
  {
    if n == 0 then v
    else
      var i := 2 * (n - 1);
      Rotate(RopeHead(v, base, pos, hd, n - 1, k), base + i, k.ropeCos(pos, i, hd), k.ropeSin(pos, i, hd))
  }

  /** One pair step more. */
  lemma RopeHeadSnoc(v: seq<int>, base: nat, pos: int, hd: nat, n: nat, k: Kernels)
    requires n < Pairs(hd) && base + 2 * n + 2 <= |v|
    ensures RopeHead(v, base, pos, hd, n + 1, k) ==
            Rotate(RopeHead(v, base, pos, hd, n, k), base + 2 * n, k.ropeCos(pos, 2 * n, hd), k.ropeSin(pos, 2 * n, hd))
  {
  }

  /** The rotation loop of `forward` over the first `heads` heads, in head order. */
  function Rope(v: seq<int>, heads: nat, hd: nat, pos: int, k: Kernels): (r: seq<int>)
    requires RopeFits(heads, hd, |v|)
    ensures |r| == |v|
  {
    if heads == 0 then v
    else
      RopeFitsFewer(heads, hd, |v|);
      RopeHead(Rope(v, heads - 1, hd, pos, k), (heads - 1) * hd, pos, hd, Pairs(hd), k)
  }

  /** One head more in the rotation loop. */
  lemma RopeSnoc(v: seq<int>, n: nat, hd: nat, pos: int, k: Kernels)
    requires RopeFits(n + 1, hd, |v|)
    ensures RopeFits(n, hd, |v|) && n * hd + RopeSpan(hd) <= |v|
    ensures Rope(v, n + 1, hd, pos, k) == RopeHead(Rope(v, n, hd, pos, k), n * hd, pos, hd, Pairs(hd), k)
  {
    RopeFitsFewer(n + 1, hd, |v|);
  }

  /** Every write of the rotation loop over `heads` heads lands inside a vector of `len`. */
  predicate RopeFits(heads: nat, hd: nat, len: nat)
  {
    heads == 0 || (heads - 1) * hd + RopeSpan(hd) <= len
  }

  lemma RopeFitsFewer(heads: nat, hd: nat, len: nat)
    requires heads > 0 && RopeFits(heads, hd, len)
    ensures RopeFits(heads - 1, hd, len)
    ensures (heads - 1) * hd + RopeSpan(hd) <= len
  {
    if heads > 1 {
      assert (heads - 1) * hd == (heads - 2) * hd + hd;
    }
  }

  /** When the rotation fits, so do the heads themselves. */
  lemma RopeFitsHeads(heads: nat, hd: nat, len: nat)
    requires RopeFits(heads, hd, len)
    ensures heads * hd <= len
  {
    if heads > 0 {
      assert heads * hd == (heads - 1) * hd + hd;
    }
  }

  /** With an even `head_dim` the rotation of one head only touches that head: the slice of
      head `h` in the result is head `h` of the input rotated on its own. */
  lemma {:induction false} RopeEvenHeadsIndependent(v: seq<int>, heads: nat, hd: nat, pos: int, k: Kernels, h: nat)
    requires hd % 2 == 0 && heads * hd <= |v| && h < heads
    ensures RopeFits(heads, hd, |v|) && h * hd + hd <= |v|
    ensures Rope(v, heads, hd, pos, k)[h * hd .. h * hd + hd] ==
            RopeHead(v[h * hd .. h * hd + hd], 0, pos, hd, Pairs(hd), k)
    decreases heads
  {
    MulNonNegative(h, hd);
    HeadArith(h, heads, hd);
    RopeFitsEven(heads, hd, |v|);
    var n := heads - 1;
    if h == n {
      RopeLastHead(v, hd, pos, k, h);
    } else {
      RopeEarlierHead(v, n, hd, pos, k, h);
      RopeEvenHeadsIndependent(v, n, hd, pos, k, h);
    }
  }

  /** The last head of an even-`head_dim` rotation sees the input's own entries. */
  lemma RopeLastHead(v: seq<int>, hd: nat, pos: int, k: Kernels, h: nat)
    requires hd % 2 == 0 && 0 <= h * hd && h * hd + hd <= |v|
    ensures RopeFits(h + 1, hd, |v|)
    ensures Rope(v, h + 1, hd, pos, k)[h * hd .. h * hd + hd] ==
            RopeHead(v[h * hd .. h * hd + hd], 0, pos, hd, Pairs(hd), k)
  {
    EvenSpan(hd);
    RopeSnoc(v, h, hd, pos, k);
    MulNonNegative(h, hd);
    RopeEvenUntouched(v, h, hd, pos, k);
    RopeHeadFresh(Rope(v, h, hd, pos, k), v, h * hd, pos, hd, k);
  }

  /** With an even `head_dim` the rotation over `heads` heads leaves everything after them
      untouched. */
  lemma RopeEvenUntouched(v: seq<int>, heads: nat, hd: nat, pos: int, k: Kernels)
    requires hd % 2 == 0 && RopeFits(heads, hd, |v|)
    ensures forall j :: heads * hd <= j < |v| ==> Rope(v, heads, hd, pos, k)[j] == v[j]
  {
    EvenSpan(hd);
    RopeUntouched(v, heads, hd, pos, k);
  }

  /** Rotating the head at `lo` of `u`, whose head agrees with that of `v`, gives head `lo` of
      `v` rotated on its own. */
  lemma RopeHeadFresh(u: seq<int>, v: seq<int>, lo: int, pos: int, hd: nat, k: Kernels)
    requires hd % 2 == 0 && 0 <= lo && lo + hd <= |u| == |v|
    requires forall j :: lo <= j < |v| ==> u[j] == v[j]
    ensures RopeHead(u, lo, pos, hd, Pairs(hd), k)[lo .. lo + hd] ==
            RopeHead(v[lo .. lo + hd], 0, pos, hd, Pairs(hd), k)
  {
    var w := v[lo .. lo + hd];
    forall j | 0 <= j < hd
      ensures u[lo + j] == w[j]
    {
    }
    RopeHeadAligned(u, lo, w, pos, hd, Pairs(hd), hd, k);
  }

  /** With an even `head_dim` the rotation fits exactly when the heads do. */
  lemma RopeFitsEven(heads: nat, hd: nat, len: nat)
    requires hd % 2 == 0 && heads * hd <= len
    ensures RopeFits(heads, hd, len)
  {
    EvenSpan(hd);
    if heads > 0 {
      assert heads * hd == (heads - 1) * hd + hd;
    }
  }

  lemma EvenSpan(hd: nat)
    requires hd % 2 == 0
    ensures RopeSpan(hd) == hd
  {
  }

  /** The head products the independence proof needs. */
  lemma HeadArith(h: nat, heads: nat, hd: nat)
    requires h < heads
    ensures heads * hd == (heads - 1) * hd + hd && h * hd + hd <= heads * hd
    ensures h + 1 < heads ==> h * hd + hd <= (heads - 1) * hd
  {
    MulMonotone(h + 1, heads, hd);
    if h + 1 < heads {
      MulMonotone(h + 1, heads - 1, hd);
    }
  }

  /** Rotating the head at `base` leaves any earlier stretch of `hd` entries as it was. */
  lemma RopeHeadBefore(u: seq<int>, base: nat, pos: int, hd: nat, k: Kernels, lo: nat)
    requires hd % 2 == 0 && base + hd <= |u| && lo + hd <= base
    ensures RopeHead(u, base, pos, hd, Pairs(hd), k)[lo .. lo + hd] == u[lo .. lo + hd]
  {
    var r := RopeHead(u, base, pos, hd, Pairs(hd), k);
    forall j | lo <= j < lo + hd
      ensures r[j] == u[j]
    {
    }
  }

  /** The rotation of a later head of an even `head_dim` leaves an earlier head as it was. */
  lemma RopeEarlierHead(v: seq<int>, n: nat, hd: nat, pos: int, k: Kernels, h: nat)
    requires hd % 2 == 0 && n * hd + hd <= |v| && h * hd + hd <= n * hd
    ensures RopeFits(n + 1, hd, |v|) && RopeFits(n, hd, |v|)
    ensures Rope(v, n + 1, hd, pos, k)[h * hd .. h * hd + hd] == Rope(v, n, hd, pos, k)[h * hd .. h * hd + hd]
  {
    EvenSpan(hd);
    RopeSnoc(v, n, hd, pos, k);
    RopeHeadBefore(Rope(v, n, hd, pos, k), HeadBase(n, hd), pos, hd, k, HeadBase(h, hd));
  }

  /** The rotation over `heads` heads leaves everything from the end of its last write on
      untouched. */
  lemma {:induction false} RopeUntouched(v: seq<int>, heads: nat, hd: nat, pos: int, k: Kernels)
    requires RopeFits(heads, hd, |v|)
    ensures forall j :: heads * hd + (RopeSpan(hd) - hd) <= j < |v| ==> Rope(v, heads, hd, pos, k)[j] == v[j]
    decreases heads
  {
    if heads > 0 {
      RopeFitsFewer(heads, hd, |v|);
      RopeUntouched(v, heads - 1, hd, pos, k);
      assert heads * hd == (heads - 1) * hd + hd;
      MulMonotone(heads - 1, heads, hd);
    }
  }

  /** Rotating the head at `base` of `u` and rotating from 0 a vector `w` that agrees with `u`
      on the `m` entries from `base` give the same `m` entries. */
  lemma {:induction false} RopeHeadAligned(u: seq<int>, base: nat, w: seq<int>, pos: int, hd: nat, n: nat, m: nat, k: Kernels)
    requires n <= Pairs(hd) && 2 * n <= m && base + m <= |u| && m <= |w|
    requires forall j :: 0 <= j < m ==> u[base + j] == w[j]
    ensures forall j :: 0 <= j < m ==> RopeHead(u, base, pos, hd, n, k)[base + j] == RopeHead(w, 0, pos, hd, n, k)[j]
    decreases n
  {
    if n > 0 {
      RopeHeadAligned(u, base, w, pos, hd, n - 1, m, k);
    }
  }

  // ---------------------------------------------------------------------------------------
  // The key-value cache

  /** Where the `dim` keys (or values) of `(layer, pos)` start in a cache of shape
      `[n_layers, seq_len, dim]`. */
  function CacheOffset(layer: nat, pos: nat, seqLen: nat, dim: nat): nat
  {
    LayerBase(layer, seqLen, dim) + pos * dim
  }

  /** Where the block of `layer` starts in the cache. */
  function LayerBase(layer: nat, seqLen: nat, dim: nat): nat
  {
    layer * (seqLen * dim)
  }

  /** Every slot of the cache lies inside it. */
  lemma CacheSlotInside(layer: nat, pos: nat, nLayers: nat, seqLen: nat, dim: nat)
    requires layer < nLayers && pos < seqLen
    ensures CacheOffset(layer, pos, seqLen, dim) + dim <= nLayers * seqLen * dim
  {
    RowEnd(pos, seqLen, dim);
    RowEnd(layer, nLayers, seqLen * dim);
    assert nLayers * (seqLen * dim) == nLayers * seqLen * dim;
  }

  /** Slots of distinct (layer, position) pairs do not overlap. */
  lemma CacheSlotsDisjoint(l1: nat, p1: nat, l2: nat, p2: nat, seqLen: nat, dim: nat)
    requires p1 < seqLen && p2 < seqLen && (l1, p1) != (l2, p2)
    ensures CacheOffset(l1, p1, seqLen, dim) + dim <= CacheOffset(l2, p2, seqLen, dim) ||
            CacheOffset(l2, p2, seqLen, dim) + dim <= CacheOffset(l1, p1, seqLen, dim)
  {
    var b1, b2 := l1 * seqLen + p1, l2 * seqLen + p2;
    SlotProduct(l1, p1, seqLen, dim);
    SlotProduct(l2, p2, seqLen, dim);
    if b1 == b2 {
      DivModUnique(b1, seqLen, l1, p1);
      DivModUnique(b2, seqLen, l2, p2);
      assert false;
    } else if b1 < b2 {
      SlotsApart(b1, b2, dim);
    } else {
      SlotsApart(b2, b1, dim);
    }
  }

  /** The slot of `(layer, pos)` is slot number `layer * seq_len + pos` of width `dim`. */
  lemma SlotProduct(layer: nat, pos: nat, seqLen: nat, dim: nat)
    ensures CacheOffset(layer, pos, seqLen, dim) == (layer * seqLen + pos) * dim
  {
    calc {
      CacheOffset(layer, pos, seqLen, dim);
      layer * (seqLen * dim) + pos * dim;
      { MulAssoc(layer, seqLen, dim); }
      (layer * seqLen) * dim + pos * dim;
      (layer * seqLen + pos) * dim;
    }
  }

  lemma SlotsApart(b1: nat, b2: nat, dim: nat)
    requires b1 < b2
    ensures b1 * dim + dim <= b2 * dim
  {
    MulMonotone(b1 + 1, b2, dim);
    assert (b1 + 1) * dim == b1 * dim + dim;
  }

  /** The keys (or values) of positions `0 ..= pos` of `layer`, position-major. */
  function Window(cache: seq<int>, layer: nat, pos: nat, seqLen: nat, dim: nat): (w: seq<int>)
    requires CacheOffset(layer, pos, seqLen, dim) + dim <= |cache|
    ensures |w| == (pos + 1) * dim
  {
    cache[LayerBase(layer, seqLen, dim) .. CacheOffset(layer, pos, seqLen, dim) + dim]
  }

  /** Causality: once the slot of `(layer, pos)` is written, the window the step attends over
      is the old window of the earlier positions followed by the new entries; later positions
      and the other layers do not enter. */
  lemma WindowAfterWrite(cache: seq<int>, layer: nat, pos: nat, seqLen: nat, dim: nat, kv: seq<int>)
    requires CacheOffset(layer, pos, seqLen, dim) + dim <= |cache| && |kv| == dim
    ensures Window(Splice(cache, CacheOffset(layer, pos, seqLen, dim), kv), layer, pos, seqLen, dim) ==
            cache[LayerBase(layer, seqLen, dim) .. CacheOffset(layer, pos, seqLen, dim)] + kv
  {
  }

  // ---------------------------------------------------------------------------------------
  // One head, and all of them

  /** The scaled score of a head's query `qh` against the keys of position `t`: the dot product
      with the head's slice (at `off`) of that position, divided by sqrt(head_dim). */
  function Score(qh: seq<int>, keys: seq<int>, t: nat, dim: nat, off: nat, k: Kernels): int
    requires off + |qh| <= dim && t * dim + dim <= |keys|
  {
    k.div(Dot(qh, keys[t * dim + off .. t * dim + off + |qh|]), k.sqrt(|qh|))
  }

  /** The scores of a head against the keys of `npos` positions. */
  function Scores(qh: seq<int>, keys: seq<int>, npos: nat, dim: nat, off: nat, k: Kernels): (s: seq<int>)
    requires off + |qh| <= dim && |keys| == npos * dim
    ensures |s| == npos
  {
    seq(npos, t requires 0 <= t < npos => RowEnd(t, npos, dim); Score(qh, keys, t, dim, off, k))
  }

  /** Entry `t` of the scores of a window that starts at `winBase` in the cache, read off the
      cache at `kb`, the start of the head's slice of position `t`. */
  lemma ScoreInCache(q: seq<int>, off: nat, hd: nat, cache: seq<int>, winBase: nat, npos: nat, dim: nat,
                     t: nat, kb: nat, k: Kernels)
    requires off + hd <= dim && |q| == dim && winBase + npos * dim <= |cache| && t < npos
    requires kb == winBase + t * dim + off
    ensures kb + hd <= |cache|
    ensures Scores(q[off .. off + hd], cache[winBase .. winBase + npos * dim], npos, dim, off, k)[t] ==
            k.div(Dot(q[off .. off + hd], cache[kb .. kb + hd]), k.sqrt(hd))
  {
    RowEnd(t, npos, dim);
    assert cache[winBase .. winBase + npos * dim][t * dim + off .. t * dim + off + hd] == cache[kb .. kb + hd];
  }

  /** Entry `col` of the weighted sum over the first `n` positions, accumulated in position
      order. */
  function WeightedSum(p: seq<int>, values: seq<int>, dim: nat, col: nat, n: nat): int
    requires n <= |p| && col < dim && n * dim <= |values|
  {
    if n == 0 then 0
    else
      MulMonotone(n - 1, n, dim);
      RowMajorBound(n - 1, col, n, dim);
      WeightedSum(p, values, dim, col, n - 1) + p[n - 1] * values[(n - 1) * dim + col]
  }

  /** The output of the head at `off` with query `qh`: softmax of its scores over the `npos`
      positions, then the so-weighted sum of its value slices. */
  function HeadOut(qh: seq<int>, keys: seq<int>, values: seq<int>, npos: nat, dim: nat, off: nat, k: Kernels): (y: seq<int>)
    requires 0 < npos && off + |qh| <= dim && |keys| == npos * dim && |values| == npos * dim
    ensures |y| == |qh|
  {
    var p := SoftmaxRow(Scores(qh, keys, npos, dim, off, k), k);
    seq(|qh|, i requires 0 <= i < |qh| => WeightedSum(p, values, dim, off + i, npos))
  }

  lemma HeadOutAt(qh: seq<int>, keys: seq<int>, values: seq<int>, npos: nat, dim: nat, off: nat, k: Kernels, i: nat)
    requires 0 < npos && off + |qh| <= dim && |keys| == npos * dim && |values| == npos * dim && i < |qh|
    ensures HeadOut(qh, keys, values, npos, dim, off, k)[i] ==
            WeightedSum(SoftmaxRow(Scores(qh, keys, npos, dim, off, k), k), values, dim, off + i, npos)
  {
  }

  /** The outputs of the first `n` heads, concatenated. */
  function Heads(q: seq<int>, keys: seq<int>, values: seq<int>, npos: nat, dim: nat, n: nat, hd: nat, k: Kernels): (y: seq<int>)
    requires 0 < npos && |q| == dim && n * hd <= dim && |keys| == npos * dim && |values| == npos * dim
    ensures |y| == n * hd
  {
    if n == 0 then []
    else
      var off := (n - 1) * hd;
      assert off + hd == n * hd;
      Heads(q, keys, values, npos, dim, n - 1, hd, k) + HeadOut(q[off .. off + hd], keys, values, npos, dim, off, k)
  }

  /** The outputs of one more head are those of the heads before it followed by its own. */
  lemma HeadsSnoc(q: seq<int>, keys: seq<int>, values: seq<int>, npos: nat, dim: nat, n: nat, hd: nat, k: Kernels)
    requires 0 < npos && |q| == dim && (n + 1) * hd <= dim && |keys| == npos * dim && |values| == npos * dim
    ensures n * hd + hd == (n + 1) * hd
    ensures Heads(q, keys, values, npos, dim, n + 1, hd, k) ==
            Heads(q, keys, values, npos, dim, n, hd, k) + HeadOut(q[n * hd .. n * hd + hd], keys, values, npos, dim, n * hd, k)
  {
    assert n * hd + hd == (n + 1) * hd;
  }

  /** The concatenated head outputs `y`: zero past the last head. */
  function Mixed(q: seq<int>, keys: seq<int>, values: seq<int>, npos: nat, dim: nat, heads: nat, hd: nat, k: Kernels): (y: seq<int>)
    requires 0 < npos && |q| == dim && heads * hd <= dim && |keys| == npos * dim && |values| == npos * dim
    ensures |y| == dim
    ensures forall j :: heads * hd <= j < dim ==> y[j] == 0
  {
    Heads(q, keys, values, npos, dim, heads, hd, k) + Zeros(dim - heads * hd)
  }

  /** A projection of `x`, rotated head by head: the query or the key of the step. */
  function Rotated(w: seq<int>, dim: nat, x: seq<int>, heads: nat, hd: nat, pos: int, k: Kernels): (r: seq<int>)
    requires dim * dim <= |w| && dim <= |x| && RopeFits(heads, hd, dim)
    ensures |r| == dim
  {
    Rope(MatVec(w, dim, dim, x), heads, hd, pos, k)
  }

  // ---------------------------------------------------------------------------------------
  // The layer

  class Attention {
    const dim: nat
    const nHeads: nat
    const nKvHeads: int  // stored, never used
    const seqLen: nat
    const headDim: nat
    const wq: Tensor
    const wk: Tensor
    const wv: Tensor
    const wo: Tensor

    /** A `dim x dim` weight matrix. */
    ghost predicate Square(t: Tensor)
    {
      t.Valid() && t.shape == [dim, dim] && t.size == dim * dim
    }

    /** Four square matrices in four buffers, and `head_dim == dim / n_heads`. */
    ghost predicate Valid()
    {
      nHeads > 0 && headDim == dim / nHeads &&
      Square(wq) && Square(wk) && Square(wv) && Square(wo) &&
      wq.data != wk.data && wq.data != wv.data && wq.data != wo.data &&
      wk.data != wv.data && wk.data != wo.data && wv.data != wo.data
    }

    /** The heads never reach past `dim`. */
    lemma HeadsFit()
      requires Valid()
      ensures nHeads * headDim <= dim
    {
    }

    constructor Init(dim: nat, nHeads: nat, nKvHeads: int, seqLen: nat, wq: Tensor, wk: Tensor, wv: Tensor, wo: Tensor)
      requires nHeads > 0
      requires wq.Valid() && wk.Valid() && wv.Valid() && wo.Valid()
      requires wq.shape == [dim, dim] && wk.shape == [dim, dim] && wv.shape == [dim, dim] && wo.shape == [dim, dim]
      requires wq.data != wk.data && wq.data != wv.data && wq.data != wo.data
      requires wk.data != wv.data && wk.data != wo.data && wv.data != wo.data
      ensures this.dim == dim && this.nHeads == nHeads && this.nKvHeads == nKvHeads && this.seqLen == seqLen
      ensures this.wq == wq && this.wk == wk && this.wv == wv && this.wo == wo
      ensures headDim == dim / nHeads && Valid()
    {
      this.dim, this.nHeads, this.nKvHeads, this.seqLen := dim, nHeads, nKvHeads, seqLen;
      headDim := dim / nHeads;
      this.wq, this.wk, this.wv, this.wo := wq, wk, wv, wo;
      new;
      Product2(wq.shape);
    }

    /** `Attention(dim, n_heads, n_kv_heads, seq_len)`: four zero `[dim, dim]` matrices, which
        fails when `dim` is 0.  `head_dim` divides by `n_heads`, which must not be 0. */
    static method Create(dim: nat, nHeads: nat, nKvHeads: int, seqLen: nat) returns (r: Result<Attention>)
      requires nHeads > 0
      ensures r.Failure? <==> dim == 0
      ensures r.Failure? ==> r.error == ZeroDimension
      ensures r.Success? ==> fresh(r.value) && fresh(r.value.wq) && fresh(r.value.wk) && fresh(r.value.wv) && fresh(r.value.wo)
      ensures r.Success? ==> fresh(r.value.wq.data) && fresh(r.value.wk.data) && fresh(r.value.wv.data) && fresh(r.value.wo.data)
      ensures r.Success? ==> r.value.Valid() && r.value.dim == dim && r.value.nHeads == nHeads &&
                             r.value.nKvHeads == nKvHeads && r.value.seqLen == seqLen
      ensures r.Success? ==> r.value.wq.data[..] == Zeros(r.value.wq.size) && r.value.wk.data[..] == Zeros(r.value.wk.size) &&
                             r.value.wv.data[..] == Zeros(r.value.wv.size) && r.value.wo.data[..] == Zeros(r.value.wo.size)
    {
      var q := Tensor.Create([dim, dim]);
      if q.Failure? {
        return Failure(q.error);
      }
      // The other three have the same, non-zero, dimensions.
      var kt := Tensor.Create([dim, dim]);
      var vt := Tensor.Create([dim, dim]);
      var o := Tensor.Create([dim, dim]);
      var a := new Attention.Init(dim, nHeads, nKvHeads, seqLen, q.value, kt.value, vt.value, o.value);
      return Success(a);
    }

    /** `read_weights`: `wq`, `wk`, `wv`, `wo`, in that order, each read in full from the
        stream. */
    method ReadWeights(s: WeightStream)
      requires Valid() && s.Valid()
      modifies s, wq.data, wk.data, wv.data, wo.data
      ensures s.Valid() && Valid()
      ensures var c0 := old(s.cursor);
              var c1 := Next(s.words, c0, wq.size);
              var c2 := Next(s.words, c1, wk.size);
              var c3 := Next(s.words, c2, wv.size);
              wq.data[..] == Splice(old(wq.data[..]), 0, Chunk(s.words, c0, wq.size)) &&
              wk.data[..] == Splice(old(wk.data[..]), 0, Chunk(s.words, c1, wk.size)) &&
              wv.data[..] == Splice(old(wv.data[..]), 0, Chunk(s.words, c2, wv.size)) &&
              wo.data[..] == Splice(old(wo.data[..]), 0, Chunk(s.words, c3, wo.size)) &&
              s.cursor == Next(s.words, c3, wo.size)
    {
      s.ReadTensor(wq);
      s.ReadTensor(wk);
      s.ReadTensor(wv);
      s.ReadTensor(wo);
    }

    /** `forward(out, input, pos, layer_idx, k_cache, v_cache)` for the token at `pos`:
        the rotated key and the value of the input go into the cache slot of
        `(layer_idx, pos)`, every head attends over positions `0 ..= pos` of that layer, and
        the first `dim` entries of `out` become `wo` applied to the concatenated heads.
        Nothing is checked: the position must be inside the cache and the rotation of the
        last head inside the vectors.  `out` may be `input` itself. */
    method Forward(out: Tensor, input: Tensor, pos: nat, layer: nat, kCache: Tensor, vCache: Tensor, k: Kernels)
      requires Valid() && out.Valid() && input.Valid() && kCache.Valid() && vCache.Valid()
      requires dim <= input.size && dim <= out.size && pos < seqLen
      requires CacheOffset(layer, pos, seqLen, dim) + dim <= kCache.size
      requires CacheOffset(layer, pos, seqLen, dim) + dim <= vCache.size
      requires RopeFits(nHeads, headDim, dim)
      requires kCache.data != vCache.data && out.data != kCache.data && out.data != vCache.data
      requires out.data != wq.data && out.data != wk.data && out.data != wv.data && out.data != wo.data
      requires kCache.data != wk.data && vCache.data != wv.data
      requires kCache.data != wq.data && kCache.data != wv.data && kCache.data != wo.data
      requires vCache.data != wq.data && vCache.data != wk.data && vCache.data != wo.data
      modifies out.data, kCache.data, vCache.data
      ensures kCache.data[..] == Splice(old(kCache.data[..]), CacheOffset(layer, pos, seqLen, dim),
                                        Rotated(wk.data[..], dim, old(input.data[..]), nHeads, headDim, pos, k))
      ensures vCache.data[..] == Splice(old(vCache.data[..]), CacheOffset(layer, pos, seqLen, dim),
                                        MatVec(wv.data[..], dim, dim, old(input.data[..])))
      ensures (RopeFitsHeads(nHeads, headDim, dim);
               out.data[..] == Splice(old(out.data[..]), 0,
                 MatVec(wo.data[..], dim, dim,
                   Mixed(Rotated(wq.data[..], dim, old(input.data[..]), nHeads, headDim, pos, k),
                         Window(kCache.data[..], layer, pos, seqLen, dim),
                         Window(vCache.data[..], layer, pos, seqLen, dim),
                         pos + 1, dim, nHeads, headDim, k))))
    {
      RopeFitsHeads(nHeads, headDim, dim);
      // 1. q, k, v, and the rotary embedding of every head of q and k
      var q, kv, v := Project(input, pos, k);
      // 2. the cache slot of (layer, pos)
      var winBase := LayerBase(layer, seqLen, dim);
      var off := CacheOffset(layer, pos, seqLen, dim);
      StoreSlot(kCache.data, vCache.data, off, kv, v);
      WindowAt(kCache.data[..], layer, pos, seqLen, dim, winBase);
      WindowAt(vCache.data[..], layer, pos, seqLen, dim, winBase);
      // 3. every head over positions 0 ..= pos, and the output projection
      Attend(out, q, kCache.data, vCache.data, winBase, pos + 1, k);
    }

    /** Steps 4 and 5 of `forward`: the heads attend over the `npos` positions of the window
        at `winBase`, then `wo` projects their concatenation into `out`. */
    method Attend(out: Tensor, q: array<int>, kc: array<int>, vc: array<int>, winBase: nat, npos: nat, k: Kernels)
      requires Valid() && out.Valid() && dim <= out.size && q.Length == dim && 0 < npos <= seqLen
      requires nHeads * headDim <= dim && winBase + npos * dim <= kc.Length && winBase + npos * dim <= vc.Length
      requires out.data != wo.data && out.data != kc && out.data != vc && out.data != q
      modifies out.data
      ensures out.data[..] == Splice(old(out.data[..]), 0,
                MatVec(wo.data[..], dim, dim,
                  Mixed(q[..], kc[winBase .. winBase + npos * dim], vc[winBase .. winBase + npos * dim],
                        npos, dim, nHeads, headDim, k)))
    {
      var y := new int[dim](_ => 0);
      var scores := new int[seqLen](_ => 0);
      AttendHeads(y, scores, q, kc, vc, winBase, npos, dim, nHeads, headDim, k);
      MatVecInto(out.data, wo.data, dim, dim, y);
    }

    /** The first two steps of `forward`: `q = wq @ x`, `k = wk @ x`, `v = wv @ x`, then every
        head of `q` and `k` rotated for `pos`. */
    method Project(input: Tensor, pos: nat, k: Kernels) returns (q: array<int>, kv: array<int>, v: array<int>)
      requires Valid() && input.Valid() && dim <= input.size && RopeFits(nHeads, headDim, dim)
      ensures fresh(q) && fresh(kv) && fresh(v)
      ensures q[..] == Rotated(wq.data[..], dim, input.data[..], nHeads, headDim, pos, k)
      ensures kv[..] == Rotated(wk.data[..], dim, input.data[..], nHeads, headDim, pos, k)
      ensures v[..] == MatVec(wv.data[..], dim, dim, input.data[..])
    {
      ghost var x := input.data[..];
      q := new int[dim];
      kv := new int[dim];
      v := new int[dim];
      SpliceWhole(q[..], MatVec(wq.data[..], dim, dim, x));
      MatVecInto(q, wq.data, dim, dim, input.data);
      SpliceWhole(kv[..], MatVec(wk.data[..], dim, dim, x));
      MatVecInto(kv, wk.data, dim, dim, input.data);
      SpliceWhole(v[..], MatVec(wv.data[..], dim, dim, x));
      MatVecInto(v, wv.data, dim, dim, input.data);
      RopeHeads(q, kv, nHeads, headDim, pos, k);
    }
  }

  /** Step 3 of `forward`: the key and the value vectors copied into their cache slots. */
  method StoreSlot(kc: array<int>, vc: array<int>, off: nat, kv: array<int>, v: array<int>)
    requires kv.Length == v.Length && off + kv.Length <= kc.Length && off + v.Length <= vc.Length
    requires kc != vc && kc != kv && kc != v && vc != kv && vc != v
    modifies kc, vc
    ensures kc[..] == Splice(old(kc[..]), off, kv[..])
    ensures vc[..] == Splice(old(vc[..]), off, v[..])
  {
    CopyBlock(kc, off, kv, 0, kv.Length);
    CopyBlock(vc, off, v, 0, v.Length);
    assert kv[0 .. kv.Length] == kv[..] && v[0 .. v.Length] == v[..];
  }

  /** The window of `(layer, pos)` as the method reads it, from `layer * (seq_len * dim)`. */
  lemma WindowAt(cache: seq<int>, layer: nat, pos: nat, seqLen: nat, dim: nat, winBase: nat)
    requires CacheOffset(layer, pos, seqLen, dim) + dim <= |cache| && winBase == LayerBase(layer, seqLen, dim)
    ensures winBase + (pos + 1) * dim <= |cache|
    ensures Window(cache, layer, pos, seqLen, dim) == cache[winBase .. winBase + (pos + 1) * dim]
  {
    assert (pos + 1) * dim == pos * dim + dim;
  }

  /** The rotation loop of `forward`: `apply_rope` on the slices of every head of `q` and `k`. */
  method RopeHeads(q: array<int>, kv: array<int>, heads: nat, hd: nat, pos: int, k: Kernels)
    requires q.Length == kv.Length && q != kv && RopeFits(heads, hd, q.Length)
    modifies q, kv
    ensures q[..] == Rope(old(q[..]), heads, hd, pos, k)
    ensures kv[..] == Rope(old(kv[..]), heads, hd, pos, k)
  {
    ghost var q0, k0 := q[..], kv[..];
    for h := 0 to heads
      invariant q[..] == Rope(q0, h, hd, pos, k) && kv[..] == Rope(k0, h, hd, pos, k)
    {
      RopeFitsPrefix(h, heads, hd, q.Length);
      RopeNextHead(q, kv, h, hd, pos, k, q0, k0);
    }
  }

  /** The body of the rotation loop: head `h` of both vectors rotated. */
  method RopeNextHead(q: array<int>, kv: array<int>, h: nat, hd: nat, pos: int, k: Kernels,
                      ghost q0: seq<int>, ghost k0: seq<int>)
    requires q.Length == kv.Length == |q0| == |k0| && q != kv && RopeFits(h + 1, hd, q.Length)
    requires RopeFits(h, hd, q.Length)
    requires q[..] == Rope(q0, h, hd, pos, k) && kv[..] == Rope(k0, h, hd, pos, k)
    modifies q, kv
    ensures q[..] == Rope(q0, h + 1, hd, pos, k) && kv[..] == Rope(k0, h + 1, hd, pos, k)
  {
    RopeSnoc(q0, h, hd, pos, k);
    RopeSnoc(k0, h, hd, pos, k);
    ApplyRope(q, kv, HeadBase(h, hd), hd, pos, k);
  }

  /** Where head `h` starts. */
  function HeadBase(h: nat, hd: nat): nat
  {
    h * hd
  }

  /** A rotation that fits over `heads` heads fits over the first `h + 1` of them. */
  lemma RopeFitsPrefix(h: nat, heads: nat, hd: nat, len: nat)
    requires h < heads && RopeFits(heads, hd, len)
    ensures RopeFits(h, hd, len) && RopeFits(h + 1, hd, len)
  {
    MulMonotone(h, heads - 1, hd);
    if h > 0 {
      MulMonotone(h - 1, h, hd);
    }
  }

  /** `apply_rope(q_head, k_head, pos, head_dim)`: the pairs of both heads, starting at `base`,
      rotated in order by the same angles. */
  method ApplyRope(q: array<int>, kv: array<int>, base: nat, hd: nat, pos: int, k: Kernels)
    requires q.Length == kv.Length && q != kv && base + RopeSpan(hd) <= q.Length
    modifies q, kv
    ensures q[..] == RopeHead(old(q[..]), base, pos, hd, Pairs(hd), k)
    ensures kv[..] == RopeHead(old(kv[..]), base, pos, hd, Pairs(hd), k)
  {
    ghost var q0, k0 := q[..], kv[..];
    var i := 0;
    ghost var n := 0;
    while i < hd
      invariant i == 2 * n && n <= Pairs(hd)
      invariant q[..] == RopeHead(q0, base, pos, hd, n, k)
      invariant kv[..] == RopeHead(k0, base, pos, hd, n, k)
    {
      PairStep(n, hd);
      var fcr := k.ropeCos(pos, i, hd);
      var fci := k.ropeSin(pos, i, hd);
      RotatePair(q, base + i, fcr, fci);
      RotatePair(kv, base + i, fcr, fci);
      RopeHeadSnoc(q0, base, pos, hd, n, k);
      RopeHeadSnoc(k0, base, pos, hd, n, k);
      i, n := i + 2, n + 1;
    }
    PairStep(n, hd);
  }

  /** The body of the rotation loop on one vector. */
  method RotatePair(v: array<int>, a: nat, c: int, s: int)
    requires a + 1 < v.Length
    modifies v
    ensures v[..] == Rotate(old(v[..]), a, c, s)
  {
    var v0 := v[a];
    var v1 := v[a + 1];
    v[a] := v0 * c - v1 * s;
    v[a + 1] := v0 * s + v1 * c;
  }

  /** The loop index `i = 2 n` is below `head_dim` exactly while pairs remain. */
  lemma PairStep(n: nat, hd: nat)
    ensures 2 * n < hd <==> n < Pairs(hd)
    ensures n < Pairs(hd) ==> 2 * n + 2 <= RopeSpan(hd)
  {
  }

  /** The head loop of `forward`: heads `0 .. heads` written into `y` in order, the
      entries past the last head left as they are. */
  method AttendHeads(y: array<int>, scores: array<int>, q: array<int>, kc: array<int>, vc: array<int>,
                     winBase: nat, npos: nat, dim: nat, heads: nat, hd: nat, k: Kernels)
    requires y.Length == dim && q.Length == dim && heads * hd <= dim && 0 < npos <= scores.Length
    requires winBase + npos * dim <= kc.Length && winBase + npos * dim <= vc.Length
    requires y != scores && y != q && y != kc && y != vc && scores != q && scores != kc && scores != vc
    requires forall j :: 0 <= j < dim ==> y[j] == 0
    modifies y, scores
    ensures y[..] == Mixed(old(q[..]), old(kc[winBase .. winBase + npos * dim]), old(vc[winBase .. winBase + npos * dim]),
                           npos, dim, heads, hd, k)
  {
    ghost var keys, values := kc[winBase .. winBase + npos * dim], vc[winBase .. winBase + npos * dim];
    ghost var q0 := q[..];
    assert y[..] == Heads(q0, keys, values, npos, dim, 0, hd, k) + Zeros(dim);
    for h := 0 to heads
      invariant y[..] == Heads(q0, keys, values, npos, dim, h, hd, k) + Zeros(dim - h * hd)
    {
      MulMonotone(h + 1, heads, hd);
      NextHead(y, scores, q, kc, vc, winBase, npos, dim, h, hd, k, q0, keys, values);
    }
  }

  /** The body of the head loop: head `h` written over the zeros after the heads before it. */
  method NextHead(y: array<int>, scores: array<int>, q: array<int>, kc: array<int>, vc: array<int>,
                  winBase: nat, npos: nat, dim: nat, h: nat, hd: nat, k: Kernels,
                  ghost q0: seq<int>, ghost keys: seq<int>, ghost values: seq<int>)
    requires y.Length == dim && q.Length == dim && (h + 1) * hd <= dim && 0 < npos <= scores.Length
    requires winBase + npos * dim <= kc.Length && winBase + npos * dim <= vc.Length
    requires y != scores && y != q && y != kc && y != vc && scores != q && scores != kc && scores != vc
    requires q0 == q[..] && keys == kc[winBase .. winBase + npos * dim] && values == vc[winBase .. winBase + npos * dim]
    requires |keys| == npos * dim && |values| == npos * dim
    requires y[..] == Heads(q0, keys, values, npos, dim, h, hd, k) + Zeros(dim - h * hd)
    modifies y, scores
    ensures y[..] == Heads(q0, keys, values, npos, dim, h + 1, hd, k) + Zeros(dim - (h + 1) * hd)
  {
    var off := h * hd;
    assert off + hd == (h + 1) * hd;
    ghost var before := y[..];
    ghost var qh := q0[off .. off + hd];
    ghost var head := HeadOut(qh, keys, values, npos, dim, off, k);
    assert q[off .. off + hd] == q0[off .. off + hd];
    AttendHead(y, scores, q, off, hd, kc, vc, winBase, npos, dim, k);
    assert y[..] == Splice(before, off, head);
    HeadsStep(q0, keys, values, npos, dim, h, hd, k, before, y[..]);
  }

  /** The invariant of the head loop, one head further. */
  lemma HeadsStep(q: seq<int>, keys: seq<int>, values: seq<int>, npos: nat, dim: nat, h: nat, hd: nat, k: Kernels,
                  before: seq<int>, after: seq<int>)
    requires 0 < npos && |q| == dim && h * hd + hd <= dim && |keys| == npos * dim && |values| == npos * dim
    requires before == Heads(q, keys, values, npos, dim, h, hd, k) + Zeros(dim - h * hd)
    requires after == Splice(before, h * hd, HeadOut(q[h * hd .. h * hd + hd], keys, values, npos, dim, h * hd, k))
    ensures (h + 1) * hd <= dim
    ensures after == Heads(q, keys, values, npos, dim, h + 1, hd, k) + Zeros(dim - (h + 1) * hd)
  {
    HeadsSnoc(q, keys, values, npos, dim, h, hd, k);
    FillNext(Heads(q, keys, values, npos, dim, h, hd, k),
             HeadOut(q[h * hd .. h * hd + hd], keys, values, npos, dim, h * hd, k), dim - (h + 1) * hd);
  }

  /** Writing the next block over the zeros that follow the blocks written so far. */
  lemma FillNext(done: seq<int>, next: seq<int>, rest: nat)
    ensures Splice(done + Zeros(|next| + rest), |done|, next) == done + next + Zeros(rest)
  {
    var a := Splice(done + Zeros(|next| + rest), |done|, next);
    var b := done + next + Zeros(rest);
    assert forall j :: 0 <= j < |a| ==> a[j] == b[j];
  }

  /** One head of `forward`: scores against every key slice, their softmax, then the weighted
      sum of the value slices, written over `y[off .. off + hd]`. */
  method AttendHead(y: array<int>, scores: array<int>, q: array<int>, off: nat, hd: nat,
                    kc: array<int>, vc: array<int>, winBase: nat, npos: nat, dim: nat, k: Kernels)
    requires y.Length == dim && q.Length == dim && off + hd <= dim && 0 < npos <= scores.Length
    requires winBase + npos * dim <= kc.Length && winBase + npos * dim <= vc.Length
    requires y != scores && y != q && y != kc && y != vc && scores != q && scores != kc && scores != vc
    modifies y, scores
    ensures y[..] == Splice(old(y[..]), off, HeadOut(old(q[off .. off + hd]), old(kc[winBase .. winBase + npos * dim]),
                                                     old(vc[winBase .. winBase + npos * dim]), npos, dim, off, k))
  {
    ghost var keys, values := kc[winBase .. winBase + npos * dim], vc[winBase .. winBase + npos * dim];
    ghost var qh := q[off .. off + hd];
    ghost var y0 := y[..];
    HeadProbabilities(scores, q, off, hd, kc, winBase, npos, dim, k);
    ghost var p := scores[..npos];
    WeightedValues(y, scores, off, hd, vc, winBase, npos, dim);
    HeadWritten(y[..], y0, p, qh, keys, values, npos, dim, off, k);
  }

  /** The scores of one head and their softmax, in `scores[..npos]`. */
  method HeadProbabilities(scores: array<int>, q: array<int>, off: nat, hd: nat, kc: array<int>,
                           winBase: nat, npos: nat, dim: nat, k: Kernels)
    requires q.Length == dim && off + hd <= dim && 0 < npos <= scores.Length && winBase + npos * dim <= kc.Length
    requires scores != q && scores != kc
    modifies scores
    ensures scores[..npos] ==
      SoftmaxRow(Scores(old(q[off .. off + hd]), old(kc[winBase .. winBase + npos * dim]), npos, dim, off, k), k)
  {
    HeadScores(scores, q, off, hd, kc, winBase, npos, dim, k);
    ghost var s := scores[..npos];
    assert scores[0 .. npos] == s;
    SoftmaxSlice(scores, scores, 0, npos, k);
    assert scores[..npos] == scores[0 .. npos];
  }

  /** The weighted sums of one head, written over `off .. off + hd` and nothing else, are the
      head's output spliced into the vector. */
  lemma HeadWritten(y: seq<int>, y0: seq<int>, p: seq<int>, qh: seq<int>, keys: seq<int>, values: seq<int>,
                    npos: nat, dim: nat, off: nat, k: Kernels)
    requires |y| == |y0| == dim && off + |qh| <= dim && 0 < npos && |p| == npos
    requires |keys| == npos * dim && |values| == npos * dim
    requires p == SoftmaxRow(Scores(qh, keys, npos, dim, off, k), k)
    requires forall j :: 0 <= j < dim && !(off <= j < off + |qh|) ==> y[j] == y0[j]
    requires forall j :: off <= j < off + |qh| ==> y[j] == WeightedSum(p, values, dim, j, npos)
    ensures y == Splice(y0, off, HeadOut(qh, keys, values, npos, dim, off, k))
  {
    var head := HeadOut(qh, keys, values, npos, dim, off, k);
    var r := Splice(y0, off, head);
    forall j | off <= j < off + |qh|
      ensures y[j] == r[j]
    {
      HeadOutAt(qh, keys, values, npos, dim, off, k, j - off);
    }
    assert forall j :: 0 <= j < dim ==> y[j] == r[j];
  }

  /** The score loop of one head: `scores[t]` for `t` in `0 .. npos`. */
  method HeadScores(scores: array<int>, q: array<int>, off: nat, hd: nat, kc: array<int>,
                    winBase: nat, npos: nat, dim: nat, k: Kernels)
    requires q.Length == dim && off + hd <= dim && npos <= scores.Length && winBase + npos * dim <= kc.Length
    requires scores != q && scores != kc
    modifies scores
    ensures scores[..npos] == Scores(old(q[off .. off + hd]), old(kc[winBase .. winBase + npos * dim]), npos, dim, off, k)
  {
    ghost var keys := kc[winBase .. winBase + npos * dim];
    ghost var qh := q[off .. off + hd];
    ghost var s := Scores(qh, keys, npos, dim, off, k);
    var sq := k.sqrt(hd);
    for t := 0 to npos
      invariant forall u :: 0 <= u < t ==> scores[u] == s[u]
    {
      var kb := winBase + t * dim + off;
      ScoreInCache(q[..], off, hd, kc[..], winBase, npos, dim, t, kb, k);
      var score := SliceDot(q, off, kc, kb, hd);
      scores[t] := k.div(score, sq);
    }
    assert scores[..npos] == s;
  }

  /** The weighted-sum loop of one head: `y[off .. off + hd]` zeroed, then for each position
      `t` in order the head's value slice at `t` scaled by `p[t]` added to it. */
  method WeightedValues(y: array<int>, p: array<int>, off: nat, hd: nat, vc: array<int>,
                        winBase: nat, npos: nat, dim: nat)
    requires y.Length == dim && off + hd <= dim && npos <= p.Length && winBase + npos * dim <= vc.Length
    requires y != p && y != vc
    modifies y
    ensures forall j :: 0 <= j < dim && !(off <= j < off + hd) ==> y[j] == old(y[j])
    ensures forall j :: off <= j < off + hd ==>
      y[j] == WeightedSum(old(p[..npos]), old(vc[winBase .. winBase + npos * dim]), dim, j, npos)
  {
    ghost var values := vc[winBase .. winBase + npos * dim];
    ghost var ps := p[..npos];
    FillZero(y, off, hd);
    for t := 0 to npos
      invariant forall j :: 0 <= j < dim && !(off <= j < off + hd) ==> y[j] == old(y[j])
      invariant forall j :: off <= j < off + hd ==> y[j] == WeightedSum(ps, values, dim, j, t)
    {
      var vb := winBase + t * dim + off;
      WeightedStep(ps, values, vc[..], winBase, npos, dim, off, hd, t, vb);
      AccumulateScaled(y, off, hd, p[t], vc, vb);
    }
  }

  /** One position more in the weighted sum: read off the cache at `vb`, the start of the
      head's slice of position `t`. */
  lemma WeightedStep(ps: seq<int>, values: seq<int>, cache: seq<int>, winBase: nat, npos: nat, dim: nat,
                     off: nat, hd: nat, t: nat, vb: nat)
    requires |ps| == npos && off + hd <= dim && winBase + npos * dim <= |cache| && t < npos
    requires values == cache[winBase .. winBase + npos * dim] && vb == winBase + t * dim + off
    ensures (t + 1) * dim <= |values| && vb + hd <= |cache|
    ensures forall j :: off <= j < off + hd ==>
      WeightedSum(ps, values, dim, j, t + 1) == WeightedSum(ps, values, dim, j, t) + ps[t] * cache[vb + (j - off)]
  {
    RowEnd(t, npos, dim);
    MulMonotone(t + 1, npos, dim);
    forall j | off <= j < off + hd
      ensures WeightedSum(ps, values, dim, j, t + 1) == WeightedSum(ps, values, dim, j, t) + ps[t] * cache[vb + (j - off)]
    {
      assert values[t * dim + j] == cache[vb + (j - off)];
    }
  }

  /** `std::fill(y_head, y_head + head_dim, 0)`. */
  method FillZero(y: array<int>, off: nat, n: nat)
    requires off + n <= y.Length
    modifies y
    ensures forall j :: 0 <= j < y.Length && !(off <= j < off + n) ==> y[j] == old(y[j])
    ensures forall j :: off <= j < off + n ==> y[j] == 0
  {
    for i := 0 to n
      invariant forall j :: 0 <= j < y.Length && !(off <= j < off + i) ==> y[j] == old(y[j])
      invariant forall j :: off <= j < off + i ==> y[j] == 0
    {
      y[off + i] := 0;
    }
  }

  /** The inner loop of the weighted sum: `y[off + i] += c * v[vb + i]` for `i` in `0 .. n`. */
  method AccumulateScaled(y: array<int>, off: nat, n: nat, c: int, v: array<int>, vb: nat)
    requires off + n <= y.Length && vb + n <= v.Length && y != v
    modifies y
    ensures forall j :: 0 <= j < y.Length && !(off <= j < off + n) ==> y[j] == old(y[j])
    ensures forall j :: off <= j < off + n ==> y[j] == old(y[j]) + c * v[vb + (j - off)]
  {
    for i := 0 to n
      invariant forall j :: 0 <= j < y.Length && !(off <= j < off + i) ==> y[j] == old(y[j])
      invariant forall j :: off <= j < off + i ==> y[j] == old(y[j]) + c * v[vb + (j - off)]
    {
      y[off + i] := y[off + i] + c * v[vb + i];
    }
  }
}
