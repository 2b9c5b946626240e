/** What `Model::forward` computes for one token, and what `Model::generate` makes of a run of
    such calls, stated on the contents of the buffers: the weights, the two caches and the
    activations.  The classes that hold those buffers are proved against these functions. */
module Inference {
  import opened Errors
  import opened Numerics
  import opened Tensors
  import opened Streams
  import opened Sampling
  import opened Normalization
  import opened AttentionLayer
  import opened FeedForwardLayer

  /** The configuration the layers are built from. */
  datatype Config = Config(dim: nat, hidden: nat, nLayers: nat, nHeads: int, nKvHeads: int,
                           vocab: nat, seqLen: nat)

  /** `dim / n_heads`, the width of one head. */
  function HeadDim(c: Config): nat
  {
    if c.nHeads > 0 then c.dim / c.nHeads else 0
  }

  /** The contents of one block's weight tensors. */
  datatype BlockWeights = BlockWeights(rmsAtt: seq<int>, wq: seq<int>, wk: seq<int>, wv: seq<int>,
                                       wo: seq<int>, rmsFfn: seq<int>, w1: seq<int>, w2: seq<int>,
                                       w3: seq<int>)

  /** The contents of every weight tensor: the embedding table, the blocks, the final norm and
      the output projection. */
  datatype Weights = Weights(embedding: seq<int>, blocks: seq<BlockWeights>, rmsFinal: seq<int>,
                             output: seq<int>)

  /** The contents of the buffers `forward` writes: `x`, `xb`, the two caches and `logits`. */
  datatype Activations = Activations(x: seq<int>, xb: seq<int>, kCache: seq<int>, vCache: seq<int>,
                                     logits: seq<int>)

  predicate BlockFits(c: Config, w: BlockWeights)
  {
    |w.rmsAtt| == c.dim && |w.wq| == c.dim * c.dim && |w.wk| == c.dim * c.dim &&
    |w.wv| == c.dim * c.dim && |w.wo| == c.dim * c.dim && |w.rmsFfn| == c.dim &&
    |w.w1| == c.hidden * c.dim && |w.w2| == c.hidden * c.dim && |w.w3| == c.hidden * c.dim
  }

  /** Weights of the sizes configuration `c` gives them. */
  predicate Fits(c: Config, w: Weights)
  {
    |w.embedding| == c.vocab * c.dim && |w.blocks| == c.nLayers &&
    (forall l :: 0 <= l < |w.blocks| ==> BlockFits(c, w.blocks[l])) &&
    |w.rmsFinal| == c.dim && |w.output| == c.vocab * c.dim
  }

  /** Buffers of the sizes configuration `c` gives them. */
  predicate ActsFit(c: Config, s: Activations)
  {
    |s.x| == c.dim && |s.xb| == c.dim && |s.kCache| == c.nLayers * c.seqLen * c.dim &&
    |s.vCache| == c.nLayers * c.seqLen * c.dim && |s.logits| == c.vocab
  }

  /** There are heads, and the rotary embedding of the last one stays inside the vectors. */
  predicate Rotates(c: Config)
  {
    c.nHeads > 0 && RopeFits(c.nHeads, HeadDim(c), c.dim)
  }

  // ---------------------------------------------------------------------------------------
  // One token

  /** The attention half of a block, block `l` at position `pos`: the attention norm of `x`
      into `xb`; the attention, which stores the rotated key and the value of `xb` in the cache
      slot of `(l, pos)`, attends over positions `0 ..= pos` and writes its output into `xb`;
      the residual add of `xb` into `x`. */
  function AttentionHalf(c: Config, w: BlockWeights, s: Activations, pos: nat, l: nat, k: Kernels): (r: Activations)
    requires BlockFits(c, w) && ActsFit(c, s) && l < c.nLayers && pos < c.seqLen && Rotates(c)
    ensures ActsFit(c, r) && r.logits == s.logits
  {
    var d, hd := c.dim, HeadDim(c);
    var h := RmsNormed(s.x, w.rmsAtt, k);
    CacheSlotInside(l, pos, c.nLayers, c.seqLen, d);
    var off := CacheOffset(l, pos, c.seqLen, d);
    var kc := Splice(s.kCache, off, Rotated(w.wk, d, h, c.nHeads, hd, pos, k));
    var vc := Splice(s.vCache, off, MatVec(w.wv, d, d, h));
    RopeFitsHeads(c.nHeads, hd, d);
    var att := MatVec(w.wo, d, d, Mixed(Rotated(w.wq, d, h, c.nHeads, hd, pos, k),
                                        Window(kc, l, pos, c.seqLen, d), Window(vc, l, pos, c.seqLen, d),
                                        pos + 1, d, c.nHeads, hd, k));
    s.(x := AddSeq(s.x, att), xb := att, kCache := kc, vCache := vc)
  }

  /** The feed-forward half of a block: the feed-forward norm of `x` into `xb`, the
      feed-forward layer from `xb` into `xb`, the residual add of `xb` into `x`.  The caches
      are not touched. */
  function FeedForwardHalf(c: Config, w: BlockWeights, s: Activations, k: Kernels): (r: Activations)
    requires BlockFits(c, w) && ActsFit(c, s)
    ensures ActsFit(c, r) && r.kCache == s.kCache && r.vCache == s.vCache && r.logits == s.logits
  {
    var f := FeedForwardOut(w.w1, w.w2, w.w3, c.dim, c.hidden, RmsNormed(s.x, w.rmsFfn, k), k);
    s.(x := AddSeq(s.x, f), xb := f)
  }

  /** One pass of the loop of `forward` over the blocks, block `l` at position `pos`: the
      attention half, then the feed-forward half.  The logits are not touched. */
  function LayerStep(c: Config, w: BlockWeights, s: Activations, pos: nat, l: nat, k: Kernels): (r: Activations)
    requires BlockFits(c, w) && ActsFit(c, s) && l < c.nLayers && pos < c.seqLen && Rotates(c)
    ensures ActsFit(c, r) && r.logits == s.logits
  {
    FeedForwardHalf(c, w, AttentionHalf(c, w, s, pos, l, k), k)
  }

  /** What `forward` does after the blocks: `x` is normalised in place by the final norm, and
      `logits[i]` is row `i` of the output projection times `x`. */
  function Head(c: Config, w: Weights, s: Activations, k: Kernels): (r: Activations)
    requires Fits(c, w) && ActsFit(c, s)
    ensures ActsFit(c, r) && r.xb == s.xb && r.kCache == s.kCache && r.vCache == s.vCache
  {
    var xf := RmsNormed(s.x, w.rmsFinal, k);
    s.(x := xf, logits := MatVec(w.output, c.vocab, c.dim, xf))
  }

  /** A pass of a loop over the blocks: the buffers after pass `j` from the buffers before it. */
  type PassFn = (Activations, nat) --> Activations

  /** The passes of the loop of `forward` over the blocks at position `pos`. */
  function PassOf(c: Config, w: Weights, pos: nat, k: Kernels): PassFn
    requires Fits(c, w) && pos < c.seqLen && Rotates(c)
  {
    (s: Activations, j: nat) requires ActsFit(c, s) && j < c.nLayers => LayerStep(c, w.blocks[j], s, pos, j, k)
  }

  /** The passes `g` from pass `l` on: `l`, `l + 1`, ... in order. */
  function Iterate(c: Config, g: PassFn, s: Activations, l: nat): (r: Activations)
    requires Preserves(c, g) && ActsFit(c, s) && l <= c.nLayers
    ensures ActsFit(c, r)
    decreases c.nLayers - l
  {
    if l == c.nLayers then s else Iterate(c, g, g(s, l), l + 1)
  }

  /** The loop of `forward` over the blocks from block `l` on, at position `pos`: blocks `l`,
      `l + 1`, ... in order. */
  function Blocks(c: Config, w: Weights, s: Activations, pos: nat, l: nat, k: Kernels): (r: Activations)
    requires Fits(c, w) && ActsFit(c, s) && l <= c.nLayers && pos < c.seqLen && Rotates(c)
    ensures ActsFit(c, r)
  {
    PassOfPreserves(c, w, pos, k);
    Iterate(c, PassOf(c, w, pos, k), s, l)
  }

  /** The blocks from `l` on are block `l`, then the blocks from `l + 1` on. */
  lemma BlocksNext(c: Config, w: Weights, s: Activations, pos: nat, l: nat, k: Kernels)
    requires Fits(c, w) && ActsFit(c, s) && l < c.nLayers && pos < c.seqLen && Rotates(c)
    ensures Blocks(c, w, s, pos, l, k) == Blocks(c, w, LayerStep(c, w.blocks[l], s, pos, l, k), pos, l + 1, k)
  {
    PassOfPreserves(c, w, pos, k);
    assert PassOf(c, w, pos, k)(s, l) == LayerStep(c, w.blocks[l], s, pos, l, k);
  }

  /** After the last block the loop is done. */
  lemma BlocksDone(c: Config, w: Weights, s: Activations, pos: nat, k: Kernels)
    requires Fits(c, w) && ActsFit(c, s) && pos < c.seqLen && Rotates(c)
    ensures Blocks(c, w, s, pos, c.nLayers, k) == s
  {
    PassOfPreserves(c, w, pos, k);
  }

  /** `g` is defined on buffers of the sizes `c` gives them before pass `c.nLayers`, and
      leaves buffers of those sizes. */
  ghost predicate Preserves(c: Config, g: PassFn)
  {
    forall s: Activations, j: nat {:trigger g.requires(s, j)} {:trigger g(s, j)} ::
      ActsFit(c, s) && j < c.nLayers ==> g.requires(s, j) && ActsFit(c, g(s, j))
  }

  /** The passes of `forward`'s loop keep the buffers' sizes. */
  lemma PassOfPreserves(c: Config, w: Weights, pos: nat, k: Kernels)
    requires Fits(c, w) && pos < c.seqLen && Rotates(c)
    ensures Preserves(c, PassOf(c, w, pos, k))
  {
  }

  /** `t` is a trace of the first `n` passes `g`: each entry after the first is the pass
      before it applied to its predecessor. */
  ghost predicate Chain(c: Config, g: PassFn, t: seq<Activations>, n: nat)
  {
    |t| == n + 1 && (forall j :: 0 <= j <= n ==> ActsFit(c, t[j])) &&
    forall j {:trigger g(t[j], j)} :: 0 <= j < n ==> g.requires(t[j], j) && t[j + 1] == g(t[j], j)
  }

  /** A trace of the first `n` passes `g` from `s`. */
  lemma {:induction false} ChainOf(c: Config, g: PassFn, s: Activations, n: nat) returns (t: seq<Activations>)
    requires Preserves(c, g) && ActsFit(c, s) && n <= c.nLayers
    ensures Chain(c, g, t, n) && t[0] == s
    decreases n
  {
    if n == 0 {
      t := [s];
    } else {
      var p := ChainOf(c, g, s, n - 1);
      var a := g(p[n - 1], n - 1);
      t := p + [a];
      forall j | 0 <= j <= n
        ensures ActsFit(c, t[j])
      {
        if j < n {
          assert t[j] == p[j];
        }
      }
      forall j | 0 <= j < n
        ensures g.requires(t[j], j) && t[j + 1] == g(t[j], j)
      {
        assert t[j] == p[j];
      }
    }
  }

  /** A step of a trace of the loop of `forward` over the blocks is one block's pass. */
  lemma ChainPass(c: Config, w: Weights, pos: nat, k: Kernels, t: seq<Activations>, j: nat)
    requires Fits(c, w) && pos < c.seqLen && Rotates(c) && j < c.nLayers
    requires Chain(c, PassOf(c, w, pos, k), t, c.nLayers)
    ensures ActsFit(c, t[j]) && t[j + 1] == LayerStep(c, w.blocks[j], t[j], pos, j, k)
  {
    assert t[j + 1] == PassOf(c, w, pos, k)(t[j], j);
  }

  /** Entry `j` of a trace of the passes `g` leads, through the remaining passes, to its last
      entry. */
  lemma {:induction false} ChainFrom(c: Config, g: PassFn, t: seq<Activations>, j: nat)
    requires Preserves(c, g) && Chain(c, g, t, c.nLayers) && j <= c.nLayers
    ensures Iterate(c, g, t[j], j) == t[c.nLayers]
    decreases c.nLayers - j
  {
    if j < c.nLayers {
      ChainFrom(c, g, t, j + 1);
    }
  }

  /** `forward(token_id, pos)`: the token id goes through a float on its way into the
      embedding, so the id the embedding sees is the token rounded to single precision.  An id
      outside the vocabulary is rejected before anything is written; otherwise `x` becomes
      that id's row of the table and the blocks and the head run at `pos`. */
  function Step(c: Config, w: Weights, s: Activations, token: int, pos: nat, k: Kernels): (r: Result<Activations>)
    requires Fits(c, w) && ActsFit(c, s) && pos < c.seqLen && Rotates(c)
    ensures r.Failure? <==> !(0 <= FloatOfInt(token) < c.vocab)
    ensures r.Failure? ==> r.error == TokenOutOfRange
    ensures r.Success? ==> ActsFit(c, r.value)
  {
    var id := FloatOfInt(token);
    if id < 0 || id >= c.vocab then Failure(TokenOutOfRange)
    else Success(Head(c, w, Blocks(c, w, s.(x := Row(w.embedding, id, c.vocab, c.dim)), pos, 0, k), k))
  }

  // ---------------------------------------------------------------------------------------
  // The cache slots a step writes, and the ones it reads

  /** `a` and `b` hold the same `n` entries from `off` on. */
  predicate SlotsEqual(a: seq<int>, b: seq<int>, off: nat, n: nat)
  {
    off + n <= |a| && off + n <= |b| && a[off .. off + n] == b[off .. off + n]
  }

  /** `r` holds what `s` holds in the cache slot of every layer at every position but `pos`. */
  predicate KeptBut(c: Config, s: Activations, r: Activations, pos: nat)
  {
    forall l, p :: 0 <= l < c.nLayers && 0 <= p < c.seqLen && p != pos ==>
      SlotsEqual(r.kCache, s.kCache, CacheOffset(l, p, c.seqLen, c.dim), c.dim) &&
      SlotsEqual(r.vCache, s.vCache, CacheOffset(l, p, c.seqLen, c.dim), c.dim)
  }

  /** The caches of `a` and `b` agree for every layer at every position before `pos`. */
  predicate AgreeBefore(c: Config, a: Activations, b: Activations, pos: nat)
  {
    forall l, p :: 0 <= l < c.nLayers && 0 <= p < pos ==>
      SlotsEqual(a.kCache, b.kCache, CacheOffset(l, p, c.seqLen, c.dim), c.dim) &&
      SlotsEqual(a.vCache, b.vCache, CacheOffset(l, p, c.seqLen, c.dim), c.dim)
  }

  /** The caches of `a` and `b` agree in the slot of every layer before `n` at `pos`. */
  predicate AgreeAt(c: Config, a: Activations, b: Activations, pos: nat, n: nat)
  {
    forall l :: 0 <= l < n ==>
      SlotsEqual(a.kCache, b.kCache, CacheOffset(l, pos, c.seqLen, c.dim), c.dim) &&
      SlotsEqual(a.vCache, b.vCache, CacheOffset(l, pos, c.seqLen, c.dim), c.dim)
  }

  /** Writing `b` at `off` leaves a range that does not overlap it as it was. */
  lemma SpliceAway(s: seq<int>, off: nat, b: seq<int>, off2: nat, n: nat)
    requires off + |b| <= |s| && off2 + n <= |s| && (off + |b| <= off2 || off2 + n <= off)
    ensures SlotsEqual(Splice(s, off, b), s, off2, n)
  {
    var r := Splice(s, off, b);
    assert forall j :: off2 <= j < off2 + n ==> r[j] == s[j];
    assert r[off2 .. off2 + n] == s[off2 .. off2 + n];
  }

  /** A block writes the cache slot of its own layer at `pos` and no other. */
  lemma LayerKeeps(c: Config, w: BlockWeights, s: Activations, pos: nat, l: nat, k: Kernels)
    requires BlockFits(c, w) && ActsFit(c, s) && l < c.nLayers && pos < c.seqLen && Rotates(c)
    ensures var r := LayerStep(c, w, s, pos, l, k);
      forall l', p :: 0 <= l' < c.nLayers && 0 <= p < c.seqLen && (l' != l || p != pos) ==>
        SlotsEqual(r.kCache, s.kCache, CacheOffset(l', p, c.seqLen, c.dim), c.dim) &&
        SlotsEqual(r.vCache, s.vCache, CacheOffset(l', p, c.seqLen, c.dim), c.dim)
    ensures KeptBut(c, s, LayerStep(c, w, s, pos, l, k), pos)
  {
    var r := LayerStep(c, w, s, pos, l, k);
    var d := c.dim;
    var h := RmsNormed(s.x, w.rmsAtt, k);
    CacheSlotInside(l, pos, c.nLayers, c.seqLen, d);
    var off := CacheOffset(l, pos, c.seqLen, d);
    var kv := Rotated(w.wk, d, h, c.nHeads, HeadDim(c), pos, k);
    var v := MatVec(w.wv, d, d, h);
    assert r.kCache == Splice(s.kCache, off, kv) && r.vCache == Splice(s.vCache, off, v);
    forall l', p | 0 <= l' < c.nLayers && 0 <= p < c.seqLen && (l' != l || p != pos)
      ensures SlotsEqual(r.kCache, s.kCache, CacheOffset(l', p, c.seqLen, d), d)
      ensures SlotsEqual(r.vCache, s.vCache, CacheOffset(l', p, c.seqLen, d), d)
    {
      CacheSlotInside(l', p, c.nLayers, c.seqLen, d);
      CacheSlotsDisjoint(l, pos, l', p, c.seqLen, d);
      SpliceAway(s.kCache, off, kv, CacheOffset(l', p, c.seqLen, d), d);
      SpliceAway(s.vCache, off, v, CacheOffset(l', p, c.seqLen, d), d);
    }
  }

  lemma SlotsEqualTrans(a: seq<int>, b: seq<int>, e: seq<int>, off: nat, n: nat)
    requires SlotsEqual(a, b, off, n) && SlotsEqual(b, e, off, n)
    ensures SlotsEqual(a, e, off, n)
  {
  }

  /** Keeping the slots away from `pos` twice keeps them. */
  lemma KeptButTrans(c: Config, a: Activations, b: Activations, e: Activations, pos: nat)
    requires KeptBut(c, a, b, pos) && KeptBut(c, b, e, pos)
    ensures KeptBut(c, a, e, pos)
  {
    forall l, p | 0 <= l < c.nLayers && 0 <= p < c.seqLen && p != pos
      ensures SlotsEqual(e.kCache, a.kCache, CacheOffset(l, p, c.seqLen, c.dim), c.dim)
      ensures SlotsEqual(e.vCache, a.vCache, CacheOffset(l, p, c.seqLen, c.dim), c.dim)
    {
      var off := CacheOffset(l, p, c.seqLen, c.dim);
      SlotsEqualTrans(e.kCache, b.kCache, a.kCache, off, c.dim);
      SlotsEqualTrans(e.vCache, b.vCache, a.vCache, off, c.dim);
    }
  }

  /** Every state keeps its own slots. */
  lemma KeptButRefl(c: Config, s: Activations, pos: nat)
    requires ActsFit(c, s)
    ensures KeptBut(c, s, s, pos)
  {
    forall l, p | 0 <= l < c.nLayers && 0 <= p < c.seqLen && p != pos
      ensures SlotsEqual(s.kCache, s.kCache, CacheOffset(l, p, c.seqLen, c.dim), c.dim)
      ensures SlotsEqual(s.vCache, s.vCache, CacheOffset(l, p, c.seqLen, c.dim), c.dim)
    {
      CacheSlotInside(l, p, c.nLayers, c.seqLen, c.dim);
    }
  }

  /** The blocks from `l` on write the cache at `pos` only. */
  lemma {:induction false} BlocksKeep(c: Config, w: Weights, s: Activations, pos: nat, l: nat, k: Kernels)
    requires Fits(c, w) && ActsFit(c, s) && l <= c.nLayers && pos < c.seqLen && Rotates(c)
    ensures KeptBut(c, s, Blocks(c, w, s, pos, l, k), pos)
    decreases c.nLayers - l, 1
  {
    if l < c.nLayers {
      BlockThenRest(c, w, s, pos, l, k);
    } else {
      BlocksDone(c, w, s, pos, k);
      KeptButRefl(c, s, pos);
    }
  }

  /** Block `l` keeps the other positions, and so do the blocks after it. */
  lemma {:induction false} BlockThenRest(c: Config, w: Weights, s: Activations, pos: nat, l: nat, k: Kernels)
    requires Fits(c, w) && ActsFit(c, s) && l < c.nLayers && pos < c.seqLen && Rotates(c)
    ensures KeptBut(c, s, Blocks(c, w, s, pos, l, k), pos)
    decreases c.nLayers - l, 0
  {
    var m, l1 := LayerStep(c, w.blocks[l], s, pos, l, k), l + 1;
    BlocksKeep(c, w, m, pos, l1, k);
    BlocksNext(c, w, s, pos, l, k);
    LayerKeeps(c, w.blocks[l], s, pos, l, k);
    KeptButTrans(c, s, m, Blocks(c, w, m, pos, l1, k), pos);
  }

  /** A step leaves the keys and values of every other position as they were. */
  lemma StepKeeps(c: Config, w: Weights, s: Activations, token: int, pos: nat, k: Kernels)
    requires Fits(c, w) && ActsFit(c, s) && pos < c.seqLen && Rotates(c)
    ensures Step(c, w, s, token, pos, k).Success? ==> KeptBut(c, s, Step(c, w, s, token, pos, k).value, pos)
  {
    var id := FloatOfInt(token);
    if 0 <= id < c.vocab {
      var m := Blocks(c, w, s.(x := Row(w.embedding, id, c.vocab, c.dim)), pos, 0, k);
      BlocksKeep(c, w, s.(x := Row(w.embedding, id, c.vocab, c.dim)), pos, 0, k);
      var r := Head(c, w, m, k);
      assert r.kCache == m.kCache && r.vCache == m.vCache;
    }
  }

  /** The part of a layer's cache block before position `pos` is made of the slots of the
      positions before `pos`. */
  lemma {:induction false} PrefixFromSlots(a: seq<int>, b: seq<int>, l: nat, pos: nat, seqLen: nat, dim: nat)
    requires CacheOffset(l, pos, seqLen, dim) <= |a| && CacheOffset(l, pos, seqLen, dim) <= |b|
    requires forall p :: 0 <= p < pos ==>
      SlotsEqual(a, b, CacheOffset(l, p, seqLen, dim), dim)
    ensures a[LayerBase(l, seqLen, dim) .. CacheOffset(l, pos, seqLen, dim)] ==
            b[LayerBase(l, seqLen, dim) .. CacheOffset(l, pos, seqLen, dim)]
    decreases pos
  {
    var base, off := LayerBase(l, seqLen, dim), CacheOffset(l, pos, seqLen, dim);
    if pos > 0 {
      var prev := CacheOffset(l, pos - 1, seqLen, dim);
      assert prev + dim == off;
      PrefixFromSlots(a, b, l, pos - 1, seqLen, dim);
      assert SlotsEqual(a, b, prev, dim);
      assert a[base .. off] == a[base .. prev] + a[prev .. off];
      assert b[base .. off] == b[base .. prev] + b[prev .. off];
    }
  }

  /** Causality of one block: started from the same `x` and caches that agree on the positions
      before `pos` (and on position `pos` of the earlier layers), a block computes the same
      activations and writes the same slot, whatever the caches hold elsewhere. */
  lemma LayerCausal(c: Config, w: BlockWeights, a: Activations, b: Activations, pos: nat, l: nat, k: Kernels)
    requires BlockFits(c, w) && ActsFit(c, a) && ActsFit(c, b) && l < c.nLayers && pos < c.seqLen && Rotates(c)
    requires a.x == b.x && AgreeBefore(c, a, b, pos) && AgreeAt(c, a, b, pos, l)
    ensures var ra, rb := LayerStep(c, w, a, pos, l, k), LayerStep(c, w, b, pos, l, k);
      ra.x == rb.x && ra.xb == rb.xb && AgreeBefore(c, ra, rb, pos) && AgreeAt(c, ra, rb, pos, l + 1)
  {
    var ra, rb := LayerStep(c, w, a, pos, l, k), LayerStep(c, w, b, pos, l, k);
    var d, sl := c.dim, c.seqLen;
    var h := RmsNormed(a.x, w.rmsAtt, k);
    CacheSlotInside(l, pos, c.nLayers, sl, d);
    var off := CacheOffset(l, pos, sl, d);
    var kv := Rotated(w.wk, d, h, c.nHeads, HeadDim(c), pos, k);
    var v := MatVec(w.wv, d, d, h);
    assert ra.kCache == Splice(a.kCache, off, kv) && ra.vCache == Splice(a.vCache, off, v);
    assert rb.kCache == Splice(b.kCache, off, kv) && rb.vCache == Splice(b.vCache, off, v);
    PrefixFromSlots(a.kCache, b.kCache, l, pos, sl, d);
    PrefixFromSlots(a.vCache, b.vCache, l, pos, sl, d);
    WindowAfterWrite(a.kCache, l, pos, sl, d, kv);
    WindowAfterWrite(b.kCache, l, pos, sl, d, kv);
    WindowAfterWrite(a.vCache, l, pos, sl, d, v);
    WindowAfterWrite(b.vCache, l, pos, sl, d, v);
    assert Window(ra.kCache, l, pos, sl, d) == Window(rb.kCache, l, pos, sl, d);
    assert Window(ra.vCache, l, pos, sl, d) == Window(rb.vCache, l, pos, sl, d);
    LayerKeeps(c, w, a, pos, l, k);
    LayerKeeps(c, w, b, pos, l, k);
    forall l', p | 0 <= l' < c.nLayers && 0 <= p < pos
      ensures SlotsEqual(ra.kCache, rb.kCache, CacheOffset(l', p, sl, d), d)
      ensures SlotsEqual(ra.vCache, rb.vCache, CacheOffset(l', p, sl, d), d)
    {
      var o := CacheOffset(l', p, sl, d);
      assert SlotsEqual(ra.kCache, a.kCache, o, d) && SlotsEqual(rb.kCache, b.kCache, o, d);
      assert SlotsEqual(ra.vCache, a.vCache, o, d) && SlotsEqual(rb.vCache, b.vCache, o, d);
    }
    forall l' | 0 <= l' < l + 1
      ensures SlotsEqual(ra.kCache, rb.kCache, CacheOffset(l', pos, sl, d), d)
      ensures SlotsEqual(ra.vCache, rb.vCache, CacheOffset(l', pos, sl, d), d)
    {
      var o := CacheOffset(l', pos, sl, d);
      if l' == l {
        assert ra.kCache[off .. off + d] == kv == rb.kCache[off .. off + d];
        assert ra.vCache[off .. off + d] == v == rb.vCache[off .. off + d];
      } else {
        assert SlotsEqual(ra.kCache, a.kCache, o, d) && SlotsEqual(rb.kCache, b.kCache, o, d);
        assert SlotsEqual(ra.vCache, a.vCache, o, d) && SlotsEqual(rb.vCache, b.vCache, o, d);
      }
    }
  }

  /** Agreement before `pos` and at `pos` in every layer is agreement up to and including
      `pos`. */
  lemma AgreeExtend(c: Config, a: Activations, b: Activations, pos: nat)
    requires AgreeBefore(c, a, b, pos) && AgreeAt(c, a, b, pos, c.nLayers)
    ensures AgreeBefore(c, a, b, pos + 1)
  {
    forall l, p | 0 <= l < c.nLayers && 0 <= p < pos + 1
      ensures SlotsEqual(a.kCache, b.kCache, CacheOffset(l, p, c.seqLen, c.dim), c.dim)
      ensures SlotsEqual(a.vCache, b.vCache, CacheOffset(l, p, c.seqLen, c.dim), c.dim)
    {
      if p == pos {
        assert SlotsEqual(a.kCache, b.kCache, CacheOffset(l, pos, c.seqLen, c.dim), c.dim);
      }
    }
  }

  /** The head reads only `x`, and keeps `xb` and the caches: after blocks whose caches agree
      before `pos` and at `pos`, the heads agree up to and including `pos`. */
  lemma HeadCausal(c: Config, w: Weights, a: Activations, b: Activations, pos: nat, k: Kernels)
    requires Fits(c, w) && ActsFit(c, a) && ActsFit(c, b) && a.x == b.x
    requires AgreeBefore(c, a, b, pos) && AgreeAt(c, a, b, pos, c.nLayers)
    ensures var ra, rb := Head(c, w, a, k), Head(c, w, b, k);
      ra.x == rb.x && ra.logits == rb.logits && (a.xb == b.xb ==> ra.xb == rb.xb) &&
      AgreeBefore(c, ra, rb, pos + 1)
  {
    AgreeExtend(c, a, b, pos);
  }

  /** Causality of the blocks from `l` on: started from the same `x` with caches that agree
      before `pos`, and at `pos` for the blocks already run, they compute the same `x` and
      leave caches that agree before `pos` and at `pos` in every layer. */
  lemma {:induction false} BlocksCausal(c: Config, w: Weights, a: Activations, b: Activations,
                                        pos: nat, l: nat, k: Kernels)
    requires Fits(c, w) && ActsFit(c, a) && ActsFit(c, b) && l <= c.nLayers && pos < c.seqLen && Rotates(c)
    requires a.x == b.x && (l > 0 ==> a.xb == b.xb) && AgreeBefore(c, a, b, pos) && AgreeAt(c, a, b, pos, l)
    ensures var ra, rb := Blocks(c, w, a, pos, l, k), Blocks(c, w, b, pos, l, k);
      ra.x == rb.x && (c.nLayers > 0 ==> ra.xb == rb.xb) &&
      AgreeBefore(c, ra, rb, pos) && AgreeAt(c, ra, rb, pos, c.nLayers)
    decreases c.nLayers - l, 1
  {
    if l < c.nLayers {
      BlockThenRestCausal(c, w, a, b, pos, l, k);
    } else {
      BlocksDone(c, w, a, pos, k);
      BlocksDone(c, w, b, pos, k);
    }
  }

  /** Block `l` computes the same from `a` and `b`, and so do the blocks after it. */
  lemma {:induction false} BlockThenRestCausal(c: Config, w: Weights, a: Activations, b: Activations,
                                               pos: nat, l: nat, k: Kernels)
    requires Fits(c, w) && ActsFit(c, a) && ActsFit(c, b) && l < c.nLayers && pos < c.seqLen && Rotates(c)
    requires a.x == b.x && AgreeBefore(c, a, b, pos) && AgreeAt(c, a, b, pos, l)
    ensures var ra, rb := Blocks(c, w, a, pos, l, k), Blocks(c, w, b, pos, l, k);
      ra.x == rb.x && ra.xb == rb.xb && AgreeBefore(c, ra, rb, pos) && AgreeAt(c, ra, rb, pos, c.nLayers)
    decreases c.nLayers - l, 0
  {
    var ma, mb, l1 := LayerStep(c, w.blocks[l], a, pos, l, k), LayerStep(c, w.blocks[l], b, pos, l, k), l + 1;
    LayerCausal(c, w.blocks[l], a, b, pos, l, k);
    BlocksNext(c, w, a, pos, l, k);
    BlocksNext(c, w, b, pos, l, k);
    BlocksCausal(c, w, ma, mb, pos, l1, k);
  }

  /** Causality of `forward`: the step at `pos` reads the caches only at the positions before
      `pos`.  Two runs whose caches agree there compute the same activations and logits and
      leave caches that agree up to and including `pos`. */
  lemma StepCausal(c: Config, w: Weights, a: Activations, b: Activations, token: int, pos: nat, k: Kernels)
    requires Fits(c, w) && ActsFit(c, a) && ActsFit(c, b) && pos < c.seqLen && Rotates(c)
    requires AgreeBefore(c, a, b, pos)
    ensures var ra, rb := Step(c, w, a, token, pos, k), Step(c, w, b, token, pos, k);
      ra.Success? == rb.Success? &&
      (ra.Success? ==> ra.value.x == rb.value.x && ra.value.logits == rb.value.logits &&
                       (c.nLayers > 0 ==> ra.value.xb == rb.value.xb) &&
                       AgreeBefore(c, ra.value, rb.value, pos + 1))
  {
    var id := FloatOfInt(token);
    if 0 <= id < c.vocab {
      var e := Row(w.embedding, id, c.vocab, c.dim);
      var a0, b0 := a.(x := e), b.(x := e);
      assert AgreeBefore(c, a0, b0, pos);
      BlocksCausal(c, w, a0, b0, pos, 0, k);
      HeadCausal(c, w, Blocks(c, w, a0, pos, 0, k), Blocks(c, w, b0, pos, 0, k), pos, k);
    }
  }
}
