/** The whole model: `load_weights` allocates every layer from the header's configuration and
    fills the weights from the file in a fixed order, `forward` runs one token through the
    embedding, the transformer blocks and the classifier, and `generate` feeds a prompt and
    then its own greedy choices back in, one cache position per token. */
module Transformer {
  import opened Errors
  import opened Numerics
  import opened Tensors
  import opened Streams
  import opened FileFormat
  import opened Tokenization
  import opened Sampling
  import opened EmbeddingLayer
  import opened Normalization
  import opened AttentionLayer
  import opened FeedForwardLayer
  import opened Inference
  import opened Generation

  datatype Option<T> = None | Some(value: T)

  /** What the loader finds at the model path: nothing when the file cannot be opened, else the
      bytes of its header and the float words after it. */
  datatype ModelFile = ModelFile(header: seq<Byte>, words: seq<int>)

  /** The header names a DaisoML file of the version the loader reads. */
  predicate Supported(h: Header)
  {
    h.magic == DAISO_MAGIC && h.version == SUPPORTED_VERSION
  }

  /** Header fields the loader can allocate from: no negative dimension, and query heads
      whenever the allocation reaches a layer's attention (it divides `dim` by `n_heads`):
      a zero `vocab_size` or `dim` fails before that. */
  predicate Allocatable(h: Header)
  {
    h.dim >= 0 && h.hiddenDim >= 0 && h.nLayers >= 0 && h.vocabSize >= 0 && h.seqLen >= 0 &&
    (h.vocabSize > 0 && h.dim > 0 && h.nLayers > 0 ==> h.nHeads > 0)
  }

  function ConfigOf(h: Header): Config
    requires Allocatable(h)
  {
    Config(h.dim, h.hiddenDim, h.nLayers, h.nHeads, h.nKvHeads, h.vocabSize, h.seqLen)
  }

  /** Some tensor of the model would have a dimension of 0. */
  predicate Degenerate(c: Config)
  {
    c.vocab == 0 || c.dim == 0 || c.nLayers == 0 || c.seqLen == 0 || c.hidden == 0
  }

  // ---------------------------------------------------------------------------------------
  // File layout

  /** The element counts of one block's tensors in the order the file holds them:
      `rms_att`, `wq`, `wk`, `wv`, `wo`, `rms_ffn`, `w1`, `w2`, `w3`. */
  function BlockSizes(c: Config): (s: seq<nat>)
    ensures |s| == 9
  {
    [c.dim, c.dim * c.dim, c.dim * c.dim, c.dim * c.dim, c.dim * c.dim, c.dim,
     c.hidden * c.dim, c.dim * c.hidden, c.hidden * c.dim]
  }

  /** `s` repeated `n` times. */
  function Repeat(s: seq<nat>, n: nat): (r: seq<nat>)
    ensures |r| == n * |s|
  {
    if n == 0 then [] else Repeat(s, n - 1) + s
  }

  /** The element counts of all weight tensors in file order: the embedding table, every
      block, the final norm and the output projection. */
  function LayoutSizes(c: Config): (s: seq<nat>)
    ensures |s| == 9 * c.nLayers + 3
  {
    [c.vocab * c.dim] + Repeat(BlockSizes(c), c.nLayers) + [c.dim, c.vocab * c.dim]
  }

  /** The number of float words a complete weight section holds. */
  function FileWords(c: Config): nat
  {
    2 * (c.vocab * c.dim) + c.dim +
    c.nLayers * (2 * c.dim + 4 * (c.dim * c.dim) + 3 * (c.hidden * c.dim))
  }

  /** A tensor of `n` entries that starts out zero after the read of `n` words at cursor
      `c`: the words the file still holds, then zeros. */
  function Loaded(words: seq<int>, c: nat, n: nat): (r: seq<int>)
    requires c <= |words|
    ensures |r| == n
  {
    Splice(Zeros(n), 0, Chunk(words, c, n))
  }

  lemma {:induction false} SumNatConcat(a: seq<nat>, b: seq<nat>)
    ensures SumNat(a + b) == SumNat(a) + SumNat(b)
  {
    if a != [] {
      assert (a + b)[0] == a[0] && (a + b)[1..] == a[1..] + b;
      SumNatConcat(a[1..], b);
    } else {
      assert a + b == b;
    }
  }

  lemma {:induction false} SumNatRepeat(s: seq<nat>, n: nat)
    ensures SumNat(Repeat(s, n)) == n * SumNat(s)
  {
    if n > 0 {
      SumNatRepeat(s, n - 1);
      SumNatConcat(Repeat(s, n - 1), s);
    }
  }

  /** Entry `t` of repetition `i`. */
  lemma {:induction false} RepeatAt(s: seq<nat>, n: nat, i: nat, t: nat)
    requires i < n && t < |s|
    ensures i * |s| + t < n * |s| && Repeat(s, n)[i * |s| + t] == s[t]
  {
    MulMonotone(i + 1, n, |s|);
    if i < n - 1 {
      RepeatAt(s, n - 1, i, t);
    }
  }

  /** A nine-entry sum, term by term. */
  lemma BlockTotal(s: seq<nat>)
    requires |s| == 9
    ensures SumNat(s) == s[0] + s[1] + s[2] + s[3] + s[4] + s[5] + s[6] + s[7] + s[8]
  {
    assert SumNat(s[8..]) == s[8] + SumNat(s[9..]);
    assert SumNat(s[7..]) == s[7] + SumNat(s[8..]);
    assert SumNat(s[6..]) == s[6] + SumNat(s[7..]);
    assert SumNat(s[5..]) == s[5] + SumNat(s[6..]);
    assert SumNat(s[4..]) == s[4] + SumNat(s[5..]);
    assert SumNat(s[3..]) == s[3] + SumNat(s[4..]);
    assert SumNat(s[2..]) == s[2] + SumNat(s[3..]);
    assert SumNat(s[1..]) == s[1] + SumNat(s[2..]);
  }

  /** The layout adds up to `FileWords`. */
  lemma LayoutTotal(c: Config)
    ensures SumNat(LayoutSizes(c)) == FileWords(c)
  {
    var blocks := Repeat(BlockSizes(c), c.nLayers);
    var per := 2 * c.dim + 4 * (c.dim * c.dim) + 3 * (c.hidden * c.dim);
    assert c.dim * c.hidden == c.hidden * c.dim;
    BlockTotal(BlockSizes(c));
    SumNatRepeat(BlockSizes(c), c.nLayers);
    SumNatConcat([c.vocab * c.dim] + blocks, [c.dim, c.vocab * c.dim]);
    SumNatConcat([c.vocab * c.dim], blocks);
    assert SumNat([c.dim, c.vocab * c.dim]) == c.dim + c.vocab * c.dim;
  }

  /** A read that the file covers in full delivers exactly its own words. */
  lemma CompleteRead(words: seq<int>, q: nat, n: nat)
    requires q + n <= |words|
    ensures Loaded(words, Cur(words, q), n) == words[q .. q + n]
  {
    SpliceWhole(Zeros(n), words[q .. q + n]);
  }

  /** A read that starts at or after the end of the file leaves its tensor zero; the loader
      does not notice. */
  lemma ShortRead(words: seq<int>, q: nat, n: nat)
    requires |words| <= q
    ensures Loaded(words, Cur(words, q), n) == Zeros(n)
  {
    assert Chunk(words, |words|, n) == [];
  }

  /** A read that the end of the file cuts off gets what is left, and zeros after it. */
  lemma CutRead(words: seq<int>, q: nat, n: nat)
    requires q < |words| < q + n
    ensures Loaded(words, Cur(words, q), n) == words[q..] + Zeros(n - (|words| - q))
  {
    var r := Loaded(words, Cur(words, q), n);
    assert Chunk(words, q, n) == words[q..];
    assert forall i :: 0 <= i < n ==> r[i] == (words[q..] + Zeros(n - (|words| - q)))[i];
  }

  /** `Repeat(s, n)` up to repetition `l`, then the first `t` entries of `s`. */
  lemma {:induction false} RepeatPrefix(s: seq<nat>, n: nat, l: nat, t: nat)
    requires l < n && t <= |s|
    ensures l * |s| + t <= n * |s|
    ensures Repeat(s, n)[..l * |s| + t] == Repeat(s, l) + s[..t]
  {
    MulMonotone(l + 1, n, |s|);
    if l < n - 1 {
      RepeatPrefix(s, n - 1, l, t);
      MulMonotone(l + 1, n - 1, |s|);
      assert Repeat(s, n)[..l * |s| + t] == Repeat(s, n - 1)[..l * |s| + t];
    } else {
      assert Repeat(s, n) == Repeat(s, l) + s;
    }
  }

  /** The words of block `l` start after the sizes of every tensor before it in file order:
      the embedding table and `l` whole blocks. */
  lemma BlockStartLayout(c: Config, l: nat)
    requires l <= c.nLayers
    ensures 1 + 9 * l <= |LayoutSizes(c)|
    ensures SumNat(LayoutSizes(c)[..1 + 9 * l]) == BlockStart(c, l)
  {
    var bs := BlockSizes(c);
    var sizes := LayoutSizes(c);
    assert sizes == [c.vocab * c.dim] + (Repeat(bs, c.nLayers) + [c.dim, c.vocab * c.dim]);
    if l < c.nLayers {
      RepeatPrefix(bs, c.nLayers, l, 0);
      assert sizes[..1 + 9 * l] == [c.vocab * c.dim] + Repeat(bs, l);
    } else {
      assert sizes[..1 + 9 * l] == [c.vocab * c.dim] + Repeat(bs, l);
    }
    SumNatConcat([c.vocab * c.dim], Repeat(bs, l));
    SumNatRepeat(bs, l);
    BlockTotal(bs);
    assert SumNat(bs) == BlockWords(c);
  }

  /** Within a block, each tensor starts after the sizes of the block's tensors before it:
      the offsets the reads of a block use. */
  lemma BlockOffsets(c: Config)
    ensures var bs, d, dd, hd := BlockSizes(c), c.dim, c.dim * c.dim, c.hidden * c.dim;
      SumNat(bs[..1]) == d && SumNat(bs[..2]) == d + dd && SumNat(bs[..3]) == d + 2 * dd &&
      SumNat(bs[..4]) == d + 3 * dd && SumNat(bs[..5]) == d + 4 * dd &&
      SumNat(bs[..6]) == d + 4 * dd + d && SumNat(bs[..7]) == d + 4 * dd + d + hd &&
      SumNat(bs[..8]) == d + 4 * dd + d + 2 * hd && SumNat(bs) == BlockWords(c)
  {
    var bs := BlockSizes(c);
    assert c.dim * c.hidden == c.hidden * c.dim;
    assert bs[..0] == [];
    SumNatSnoc(bs, 1);
    SumNatSnoc(bs, 2);
    SumNatSnoc(bs, 3);
    SumNatSnoc(bs, 4);
    SumNatSnoc(bs, 5);
    SumNatSnoc(bs, 6);
    SumNatSnoc(bs, 7);
    SumNatSnoc(bs, 8);
    SumNatSnoc(bs, 9);
    assert bs[..9] == bs;
  }

  /** The sum of a prefix one longer adds the next element. */
  lemma SumNatSnoc(s: seq<nat>, t: nat)
    requires 0 < t <= |s|
    ensures SumNat(s[..t]) == SumNat(s[..t - 1]) + s[t - 1]
  {
    assert s[..t] == s[..t - 1] + [s[t - 1]];
    SumNatConcat(s[..t - 1], [s[t - 1]]);
  }

  /** The words of one block: two norms, four `dim x dim` matrices and three `hidden_dim x
      dim` (or `dim x hidden_dim`) ones. */
  function BlockWords(c: Config): nat
  {
    2 * c.dim + 4 * (c.dim * c.dim) + 3 * (c.hidden * c.dim)
  }

  /** Where block `l` starts in the weight section: after the embedding table and the blocks
      before it. */
  function BlockStart(c: Config, l: nat): nat
  {
    c.vocab * c.dim + l * BlockWords(c)
  }

  /** Where the final norm starts: after the embedding table and all blocks. */
  function FinalStart(c: Config): nat
  {
    BlockStart(c, c.nLayers)
  }

  /** The cursor once reads have asked for the first `n` words of the weight section: `n`, or
      the end of the file when it is shorter. */
  function Cur(words: seq<int>, n: nat): nat
  {
    if n <= |words| then n else |words|
  }

  /** A read of `n` words from the cursor of `s` leaves the cursor of `s + n`. */
  lemma NextCur(words: seq<int>, s: nat, n: nat)
    ensures Next(words, Cur(words, s), n) == Cur(words, s + n)
  {
  }

  /** The next block starts where this one ends. */
  lemma BlockStartNext(c: Config, l: nat)
    ensures BlockStart(c, l + 1) == BlockStart(c, l) + BlockWords(c)
  {
    assert (l + 1) * BlockWords(c) == l * BlockWords(c) + BlockWords(c);
  }

  /** The layout's words add up to `FileWords`: the blocks, the final norm and the output
      projection end exactly there. */
  lemma FinalStartTotal(c: Config)
    ensures FinalStart(c) + c.dim + c.vocab * c.dim == FileWords(c)
  {
    assert c.nLayers * BlockWords(c) == c.nLayers * (2 * c.dim + 4 * (c.dim * c.dim) + 3 * (c.hidden * c.dim));
  }

  // ---------------------------------------------------------------------------------------
  // The blocks

  /** `TransformerBlock`: the four layers of one block. */
  datatype Block = Block(rmsAtt: RmsNorm, attention: Attention, rmsFfn: RmsNorm, ffn: FeedForward)

  /** A block's weight tensors in file order. */
  function BlockTensors(b: Block): (ts: seq<Tensor>)
    ensures |ts| == 9
  {
    [b.rmsAtt.weights, b.attention.wq, b.attention.wk, b.attention.wv, b.attention.wo,
     b.rmsFfn.weights, b.ffn.w1, b.ffn.w2, b.ffn.w3]
  }

  /** The buffers of a block's tensors. */
  function BlockArrays(b: Block): set<array<int>>
  {
    {b.rmsAtt.weights.data, b.attention.wq.data, b.attention.wk.data, b.attention.wv.data,
     b.attention.wo.data, b.rmsFfn.weights.data, b.ffn.w1.data, b.ffn.w2.data, b.ffn.w3.data}
  }

  /** The shapes of one block's tensors in file order. */
  function BlockShapes(c: Config): (s: seq<seq<nat>>)
    ensures |s| == 9
  {
    [[c.dim], [c.dim, c.dim], [c.dim, c.dim], [c.dim, c.dim], [c.dim, c.dim], [c.dim],
     [c.hidden, c.dim], [c.dim, c.hidden], [c.hidden, c.dim]]
  }

  /** The shapes of a block's tensors. */
  ghost function ShapesOf(b: Block): seq<seq<nat>>
  {
    [b.rmsAtt.weights.shape, b.attention.wq.shape, b.attention.wk.shape, b.attention.wv.shape,
     b.attention.wo.shape, b.rmsFfn.weights.shape, b.ffn.w1.shape, b.ffn.w2.shape, b.ffn.w3.shape]
  }

  /** `t`'s buffer holds `n` zeros. */
  ghost predicate IsZero(t: Tensor, n: nat)
    reads t.data
  {
    t.data[..] == Zeros(n)
  }

  /** `t`'s buffer holds what a read of `n` words, asked for once reads have consumed the
      first `q` words of the weight section, leaves in a zero buffer of `n` entries. */
  ghost predicate Holds(t: Tensor, words: seq<int>, q: nat, n: nat)
    reads t.data
  {
    t.data[..] == Loaded(words, Cur(words, q), n)
  }

  /** A block's weights are all zero, for norms of `d` entries, attention matrices of `dd`
      and feed-forward matrices of `hd`. */
  ghost predicate BlockZero(b: Block, d: nat, dd: nat, hd: nat)
    reads BlockArrays(b)
  {
    var a, f := b.attention, b.ffn;
    IsZero(b.rmsAtt.weights, d) && IsZero(a.wq, dd) && IsZero(a.wk, dd) && IsZero(a.wv, dd) &&
    IsZero(a.wo, dd) && IsZero(b.rmsFfn.weights, d) && IsZero(f.w1, hd) && IsZero(f.w2, hd) &&
    IsZero(f.w3, hd)
  }

  /** A block's weights hold what their reads delivered, in file order `rms_att`, `wq`, `wk`,
      `wv`, `wo`, `rms_ffn`, `w1`, `w2`, `w3`, the first read asked for once the first `p`
      words were. */
  ghost predicate BlockHolds(b: Block, words: seq<int>, p: nat, d: nat, dd: nat, hd: nat)
    reads b.rmsAtt.weights.data, b.attention.wq.data, b.attention.wk.data, b.attention.wv.data
    reads b.attention.wo.data, b.rmsFfn.weights.data, b.ffn.w1.data, b.ffn.w2.data, b.ffn.w3.data
  {
    var a, f := b.attention, b.ffn;
    Holds(b.rmsAtt.weights, words, p, d) && Holds(a.wq, words, p + d, dd) &&
    Holds(a.wk, words, p + d + dd, dd) && Holds(a.wv, words, p + d + 2 * dd, dd) &&
    Holds(a.wo, words, p + d + 3 * dd, dd) && Holds(b.rmsFfn.weights, words, p + d + 4 * dd, d) &&
    Holds(f.w1, words, p + d + 4 * dd + d, hd) && Holds(f.w2, words, p + d + 4 * dd + d + hd, hd) &&
    Holds(f.w3, words, p + d + 4 * dd + d + 2 * hd, hd)
  }

  /** Block `l` of configuration `c` holds what the reads from where the layout puts it
      delivered. */
  ghost predicate LayerHolds(c: Config, b: Block, words: seq<int>, l: nat)
    reads b.rmsAtt.weights.data, b.attention.wq.data, b.attention.wk.data, b.attention.wv.data
    reads b.attention.wo.data, b.rmsFfn.weights.data, b.ffn.w1.data, b.ffn.w2.data, b.ffn.w3.data
  {
    BlockHolds(b, words, BlockStart(c, l), c.dim, c.dim * c.dim, c.hidden * c.dim)
  }

  /** The tensor sizes of a block, for norms of `d` entries, attention matrices of `dd` and
      feed-forward matrices of `hd`. */
  predicate BlockSized(b: Block, d: nat, dd: nat, hd: nat)
  {
    var a, f := b.attention, b.ffn;
    Sized(b.rmsAtt.weights, d) && Sized(a.wq, dd) && Sized(a.wk, dd) && Sized(a.wv, dd) &&
    Sized(a.wo, dd) && Sized(b.rmsFfn.weights, d) && Sized(f.w1, hd) && Sized(f.w2, hd) &&
    Sized(f.w3, hd)
  }

  /** `t` holds `n` entries in a buffer of its own size. */
  predicate Sized(t: Tensor, n: nat)
  {
    t.size == n && t.data.Length == n
  }

  /** A block's nine buffers are distinct. */
  predicate BlockApart(b: Block)
  {
    var a, f, r0, r1 := b.attention, b.ffn, b.rmsAtt.weights.data, b.rmsFfn.weights.data;
    r0 != a.wq.data && r0 != a.wk.data && a.wq.data != a.wk.data && r0 != a.wv.data &&
    a.wq.data != a.wv.data && a.wk.data != a.wv.data && r0 != a.wo.data &&
    a.wq.data != a.wo.data && a.wk.data != a.wo.data && a.wv.data != a.wo.data && r0 != r1 &&
    a.wq.data != r1 && a.wk.data != r1 && a.wv.data != r1 && a.wo.data != r1 && r0 != f.w1.data &&
    a.wq.data != f.w1.data && a.wk.data != f.w1.data && a.wv.data != f.w1.data &&
    a.wo.data != f.w1.data && r1 != f.w1.data && r0 != f.w2.data && a.wq.data != f.w2.data &&
    a.wk.data != f.w2.data && a.wv.data != f.w2.data && a.wo.data != f.w2.data &&
    r1 != f.w2.data && f.w1.data != f.w2.data && r0 != f.w3.data && a.wq.data != f.w3.data &&
    a.wk.data != f.w3.data && a.wv.data != f.w3.data && a.wo.data != f.w3.data &&
    r1 != f.w3.data && f.w1.data != f.w3.data && f.w2.data != f.w3.data
  }

  /** What a block built for `c` keeps for good: the element counts of its tensors, nine
      distinct buffers of those sizes, and the attention's parameters. */
  predicate BlockFixed(c: Config, b: Block)
  {
    var a := b.attention;
    BlockSized(b, c.dim, c.dim * c.dim, c.hidden * c.dim) && BlockApart(b) &&
    a.dim == c.dim && a.nHeads == c.nHeads && a.headDim == HeadDim(c) &&
    a.nKvHeads == c.nKvHeads && a.seqLen == c.seqLen
  }

  /** A block built for configuration `c`: its tensors have the block's shapes, and the rest
      of `BlockFixed`. */
  ghost predicate BlockOk(c: Config, b: Block)
  {
    ShapesOf(b) == BlockShapes(c) && BlockFixed(c, b)
  }

  /** The layers of a block built for a configuration without zero dimensions are valid. */
  lemma BlockValid(c: Config, b: Block)
    requires BlockOk(c, b) && c.dim > 0 && c.hidden > 0 && c.nHeads > 0
    ensures b.rmsAtt.Valid() && b.rmsAtt.weights.shape == [c.dim]
    ensures b.attention.Valid()
    ensures b.rmsFfn.Valid() && b.rmsFfn.weights.shape == [c.dim]
    ensures b.ffn.Valid() && b.ffn.w1.shape == [c.hidden, c.dim]
  {
    var s := ShapesOf(b);
    assert s[0] == b.rmsAtt.weights.shape && s[1] == b.attention.wq.shape && s[2] == b.attention.wk.shape;
    assert s[3] == b.attention.wv.shape && s[4] == b.attention.wo.shape && s[5] == b.rmsFfn.weights.shape;
    assert s[6] == b.ffn.w1.shape && s[7] == b.ffn.w2.shape && s[8] == b.ffn.w3.shape;
    Product1([c.dim]);
    Product2([c.dim, c.dim]);
    Product2([c.hidden, c.dim]);
    Product2([c.dim, c.hidden]);
    MulPositive(c.dim, c.dim);
    MulPositive(c.hidden, c.dim);
    MulPositive(c.dim, c.hidden);
  }

  /** The first half of a block, `RMSNorm(dim)` then `Attention(dim, n_heads, n_kv_heads,
      seq_len)`: zero tensors of the block's first five shapes, in five new buffers. */
  method AllocateAttentionHalf(c: Config) returns (r: Result<(RmsNorm, Attention)>)
    requires c.dim > 0 ==> c.nHeads > 0
    ensures r.Failure? <==> c.dim == 0
    ensures r.Failure? ==> r.error == ZeroDimension
    ensures r.Success? ==> var (n, a) := r.value;
      n.weights.shape == [c.dim] && a.wq.shape == [c.dim, c.dim] && a.wk.shape == [c.dim, c.dim] &&
      a.wv.shape == [c.dim, c.dim] && a.wo.shape == [c.dim, c.dim] &&
      Sized(n.weights, c.dim) && Sized(a.wq, c.dim * c.dim) && Sized(a.wk, c.dim * c.dim) &&
      Sized(a.wv, c.dim * c.dim) && Sized(a.wo, c.dim * c.dim) &&
      a.wq.data != a.wk.data && a.wq.data != a.wv.data && a.wq.data != a.wo.data &&
      a.wk.data != a.wv.data && a.wk.data != a.wo.data && a.wv.data != a.wo.data &&
      n.weights.data !in {a.wq.data, a.wk.data, a.wv.data, a.wo.data} &&
      a.dim == c.dim && a.nHeads == c.nHeads && a.headDim == HeadDim(c) &&
      a.nKvHeads == c.nKvHeads && a.seqLen == c.seqLen
    ensures r.Success? ==> var (n, a) := r.value;
      n.weights.data[..] == Zeros(c.dim) && a.wq.data[..] == Zeros(c.dim * c.dim) &&
      a.wk.data[..] == Zeros(c.dim * c.dim) && a.wv.data[..] == Zeros(c.dim * c.dim) &&
      a.wo.data[..] == Zeros(c.dim * c.dim)
    ensures r.Success? ==> var (n, a) := r.value;
      fresh(n.weights.data) && fresh(a.wq.data) && fresh(a.wk.data) && fresh(a.wv.data) && fresh(a.wo.data)
  {
    var ra := RmsNorm.Create(c.dim);
    if ra.Failure? {
      return Failure(ra.error);
    }
    // `dim` is not 0, so the attention succeeds.
    var at := Attention.Create(c.dim, c.nHeads, c.nKvHeads, c.seqLen);
    Product1(ra.value.weights.shape);
    return Success((ra.value, at.value));
  }

  /** The second half of a block, `RMSNorm(dim)` then `FeedForward(dim, hidden_dim)`: zero
      tensors of the block's last four shapes, in four new buffers. */
  method AllocateFeedForwardHalf(c: Config) returns (r: Result<(RmsNorm, FeedForward)>)
    requires c.dim > 0
    ensures r.Failure? <==> c.hidden == 0
    ensures r.Failure? ==> r.error == ZeroDimension
    ensures r.Success? ==> var (n, f) := r.value;
      n.weights.shape == [c.dim] && f.w1.shape == [c.hidden, c.dim] && f.w2.shape == [c.dim, c.hidden] &&
      f.w3.shape == [c.hidden, c.dim] &&
      Sized(n.weights, c.dim) && Sized(f.w1, c.hidden * c.dim) && Sized(f.w2, c.hidden * c.dim) &&
      Sized(f.w3, c.hidden * c.dim) &&
      f.w1.data != f.w2.data && f.w1.data != f.w3.data && f.w2.data != f.w3.data &&
      n.weights.data !in {f.w1.data, f.w2.data, f.w3.data}
    ensures r.Success? ==> var (n, f) := r.value;
      n.weights.data[..] == Zeros(c.dim) && f.w1.data[..] == Zeros(c.hidden * c.dim) &&
      f.w2.data[..] == Zeros(c.hidden * c.dim) && f.w3.data[..] == Zeros(c.hidden * c.dim)
    ensures r.Success? ==> var (n, f) := r.value;
      fresh(n.weights.data) && fresh(f.w1.data) && fresh(f.w2.data) && fresh(f.w3.data)
  {
    var rf := RmsNorm.Create(c.dim);
    var ff := FeedForward.Create(c.dim, c.hidden);
    if ff.Failure? {
      return Failure(ff.error);
    }
    Product1(rf.value.weights.shape);
    return Success((rf.value, ff.value));
  }

  /** One block as `load_weights` allocates it: `RMSNorm(dim)`, `Attention(dim, n_heads,
      n_kv_heads, seq_len)`, `RMSNorm(dim)`, `FeedForward(dim, hidden_dim)`, all zero and in
      buffers none of which is among `prior`.  Only a zero `dim` or `hidden_dim` makes it
      fail. */
  method AllocateBlock(c: Config, ghost prior: set<array<int>>) returns (r: Result<Block>)
    requires c.dim > 0 ==> c.nHeads > 0
    ensures r.Failure? <==> c.dim == 0 || c.hidden == 0
    ensures r.Failure? ==> r.error == ZeroDimension
    ensures r.Success? ==> Allocated(c, r.value) && BlockArrays(r.value) !! prior && fresh(BlockArrays(r.value))
  {
    var first := AllocateAttentionHalf(c);
    if first.Failure? {
      return Failure(first.error);
    }
    var second := AllocateFeedForwardHalf(c);
    if second.Failure? {
      return Failure(second.error);
    }
    var b := Block(first.value.0, first.value.1, second.value.0, second.value.1);
    assert Allocated(c, b);
    return Success(b);
  }

  /** A block as allocated for `c`, before any read. */
  ghost predicate Allocated(c: Config, b: Block)
    reads BlockArrays(b)
  {
    BlockOk(c, b) && BlockZero(b, c.dim, c.dim * c.dim, c.hidden * c.dim)
  }

  /** `owner` maps each of the nine buffers of `b` to the layer index `l`.  A map from
      buffers to layers makes the blocks' buffers disjoint: no buffer can map to two layers. */
  predicate Owned(owner: map<array<int>, nat>, b: Block, l: nat)
  {
    var a, f, r0, r1 := b.attention, b.ffn, b.rmsAtt.weights.data, b.rmsFfn.weights.data;
    r0 in owner && owner[r0] == l && a.wq.data in owner && owner[a.wq.data] == l &&
    a.wk.data in owner && owner[a.wk.data] == l && a.wv.data in owner && owner[a.wv.data] == l &&
    a.wo.data in owner && owner[a.wo.data] == l && r1 in owner && owner[r1] == l &&
    f.w1.data in owner && owner[f.w1.data] == l && f.w2.data in owner && owner[f.w2.data] == l &&
    f.w3.data in owner && owner[f.w3.data] == l
  }

  /** `owner` with the nine buffers of `b` mapped to `l`. */
  function Own(owner: map<array<int>, nat>, b: Block, l: nat): (o: map<array<int>, nat>)
    ensures Owned(o, b, l) && o.Keys == owner.Keys + BlockArrays(b)
    ensures forall a :: a in owner && a !in BlockArrays(b) ==> a in o && o[a] == owner[a]
  {
    var a, f := b.attention, b.ffn;
    owner[b.rmsAtt.weights.data := l][a.wq.data := l][a.wk.data := l][a.wv.data := l][a.wo.data := l]
         [b.rmsFfn.weights.data := l][f.w1.data := l][f.w2.data := l][f.w3.data := l]
  }

  /** Who owns a buffer stays the same when new buffers are added. */
  lemma OwnedKept(owner: map<array<int>, nat>, b: Block, l: nat, b': Block, l': nat)
    requires Owned(owner, b', l') && BlockArrays(b) !! owner.Keys
    ensures Owned(Own(owner, b, l), b', l')
  {
    var o := Own(owner, b, l);
    assert BlockArrays(b') <= owner.Keys;
  }

  /** `n_layers` blocks, allocated in order; the first failure ends the allocation.  `owner`
      maps every buffer of block `l` to `l`, and none of those buffers is among `prior`. */
  method AllocateLayers(c: Config, ghost prior: set<array<int>>)
    returns (r: Result<seq<Block>>, ghost owner: map<array<int>, nat>)
    requires c.dim > 0 && c.nLayers > 0 ==> c.nHeads > 0
    ensures r.Failure? <==> c.nLayers > 0 && (c.dim == 0 || c.hidden == 0)
    ensures r.Failure? ==> r.error == ZeroDimension
    ensures r.Success? ==> |r.value| == c.nLayers && owner.Keys !! prior && fresh(owner.Keys)
    ensures r.Success? ==> AllAllocated(c, r.value) && AllOwned(owner, r.value)
  {
    var bs: seq<Block> := [];
    owner := map[];
    for i := 0 to c.nLayers
      invariant |bs| == i && owner.Keys !! prior && fresh(owner.Keys) && (i > 0 ==> c.dim > 0 && c.hidden > 0)
      invariant AllAllocated(c, bs) && AllOwned(owner, bs)
    {
      var b := AllocateNext(c, bs, prior + owner.Keys);
      if b.Failure? {
        return Failure(b.error), owner;
      }
      AllocatedSnoc(c, bs, b.value);
      OwnedSnoc(owner, bs, b.value);
      bs := bs + [b.value];
      owner := Own(owner, b.value, i);
    }
    return Success(bs), owner;
  }

  /** `AllocateBlock` after the blocks `bs`, which stay as they were allocated. */
  method AllocateNext(c: Config, bs: seq<Block>, ghost prior: set<array<int>>) returns (r: Result<Block>)
    requires (c.dim > 0 ==> c.nHeads > 0) && AllAllocated(c, bs)
    ensures r.Failure? <==> c.dim == 0 || c.hidden == 0
    ensures r.Failure? ==> r.error == ZeroDimension
    ensures r.Success? ==> Allocated(c, r.value) && BlockArrays(r.value) !! prior && fresh(BlockArrays(r.value))
    ensures AllAllocated(c, bs)
  {
    r := AllocateBlock(c, prior);
  }

  /** Every block of `bs` as allocated for `c`. */
  ghost predicate AllAllocated(c: Config, bs: seq<Block>)
    reads LayerArrays(bs)
  {
    forall l :: 0 <= l < |bs| ==> Allocated(c, bs[l])
  }

  /** `owner` assigns every buffer of block `l` of `bs` to `l`. */
  predicate AllOwned(owner: map<array<int>, nat>, bs: seq<Block>)
  {
    forall l :: 0 <= l < |bs| ==> Owned(owner, bs[l], l)
  }

  lemma AllocatedSnoc(c: Config, bs: seq<Block>, b: Block)
    requires AllAllocated(c, bs) && Allocated(c, b)
    ensures AllAllocated(c, bs + [b])
  {
    assert forall l :: 0 <= l < |bs| ==> (bs + [b])[l] == bs[l];
  }

  /** Giving the buffers of a new block to the next layer keeps every earlier owner. */
  lemma OwnedSnoc(owner: map<array<int>, nat>, bs: seq<Block>, b: Block)
    requires AllOwned(owner, bs) && BlockArrays(b) !! owner.Keys
    ensures AllOwned(Own(owner, b, |bs|), bs + [b])
  {
    forall l | 0 <= l < |bs|
      ensures Owned(Own(owner, b, |bs|), (bs + [b])[l], l)
    {
      assert (bs + [b])[l] == bs[l];
      OwnedKept(owner, b, |bs|, bs[l], l);
    }
  }

  /** Seven distinct buffers. */
  predicate SevenApart(a0: array<int>, a1: array<int>, a2: array<int>, a3: array<int>, a4: array<int>,
                       a5: array<int>, a6: array<int>)
  {
    a0 != a1 && a0 != a2 && a1 != a2 && a0 != a3 && a1 != a3 && a2 != a3 && a0 != a4 && a1 != a4 &&
    a2 != a4 && a3 != a4 && a0 != a5 && a1 != a5 && a2 != a5 && a3 != a5 && a4 != a5 && a0 != a6 &&
    a1 != a6 && a2 != a6 && a3 != a6 && a4 != a6 && a5 != a6
  }

  /** The tensors after the blocks, as `load_weights` allocates them: `RMSNorm(dim)`, the
      output projection `[vocab_size, dim]`, the two caches `[n_layers, seq_len, dim]`, `x` and
      `xb` of `[dim]` and `logits` of `[vocab_size]`, all zero and in new buffers.  With `dim`
      and `vocab_size` not 0, only the caches can fail. */
  method AllocateRest(c: Config) returns (r: Result<(RmsNorm, Tensor, Tensor, Tensor, Tensor, Tensor, Tensor)>)
    requires c.dim > 0 && c.vocab > 0
    ensures r.Failure? <==> c.nLayers == 0 || c.seqLen == 0
    ensures r.Failure? ==> r.error == ZeroDimension
    ensures r.Success? ==> var (rf, fw, kc, vc, xt, xbt, lg) := r.value;
      rf.Valid() && rf.weights.shape == [c.dim] && fw.Valid() && fw.shape == [c.vocab, c.dim] &&
      kc.Valid() && kc.shape == [c.nLayers, c.seqLen, c.dim] && vc.Valid() && vc.shape == [c.nLayers, c.seqLen, c.dim] &&
      xt.Valid() && xt.shape == [c.dim] && xbt.Valid() && xbt.shape == [c.dim] && lg.Valid() && lg.shape == [c.vocab]
    ensures r.Success? ==> var (rf, fw, kc, vc, xt, xbt, lg) := r.value;
      Sized(rf.weights, c.dim) && Sized(fw, c.vocab * c.dim) && Sized(xt, c.dim) && Sized(xbt, c.dim) &&
      Sized(lg, c.vocab) && Sized(kc, c.nLayers * c.seqLen * c.dim) && Sized(vc, c.nLayers * c.seqLen * c.dim)
    ensures r.Success? ==> var (rf, fw, kc, vc, xt, xbt, lg) := r.value;
      rf.weights.data[..] == Zeros(c.dim) && fw.data[..] == Zeros(c.vocab * c.dim) &&
      kc.data[..] == Zeros(kc.size) && vc.data[..] == Zeros(vc.size) && xt.data[..] == Zeros(xt.size) &&
      xbt.data[..] == Zeros(xbt.size) && lg.data[..] == Zeros(lg.size)
    ensures r.Success? ==> var (rf, fw, kc, vc, xt, xbt, lg) := r.value;
      fresh(rf.weights.data) && fresh(fw.data) && fresh(kc.data) && fresh(vc.data) && fresh(xt.data) &&
      fresh(xbt.data) && fresh(lg.data) &&
      SevenApart(rf.weights.data, fw.data, kc.data, vc.data, xt.data, xbt.data, lg.data)
  {
    var rf := RmsNorm.Create(c.dim);
    var fw := Tensor.Create([c.vocab, c.dim]);
    var kc := Tensor.Create([c.nLayers, c.seqLen, c.dim]);
    if kc.Failure? {
      return Failure(kc.error);
    }
    var vc := Tensor.Create([c.nLayers, c.seqLen, c.dim]);
    var xt := Tensor.Create([c.dim]);
    var xbt := Tensor.Create([c.dim]);
    var lg := Tensor.Create([c.vocab]);
    Product1(rf.value.weights.shape);
    Product2(fw.value.shape);
    Product3(kc.value.shape);
    Product3(vc.value.shape);
    Product1(xt.value.shape);
    Product1(xbt.value.shape);
    Product1(lg.value.shape);
    return Success((rf.value, fw.value, kc.value, vc.value, xt.value, xbt.value, lg.value));
  }

  /** `AllocateRest` after the blocks `ls`, which stay as they were allocated. */
  method AllocateRestAfter(c: Config, ghost ls: seq<Block>)
    returns (r: Result<(RmsNorm, Tensor, Tensor, Tensor, Tensor, Tensor, Tensor)>)
    requires c.dim > 0 && c.vocab > 0 && AllAllocated(c, ls)
    ensures AllAllocated(c, ls)
    ensures r.Failure? <==> c.nLayers == 0 || c.seqLen == 0
    ensures r.Failure? ==> r.error == ZeroDimension
    ensures r.Success? ==> var (rf, fw, kc, vc, xt, xbt, lg) := r.value;
      rf.Valid() && rf.weights.shape == [c.dim] && fw.Valid() && fw.shape == [c.vocab, c.dim] &&
      BuffersFit(c, kc, vc, xt, xbt, lg) && Sized(rf.weights, c.dim) && Sized(fw, c.vocab * c.dim)
    ensures r.Success? ==> var (rf, fw, kc, vc, xt, xbt, lg) := r.value;
      IsZero(rf.weights, c.dim) && IsZero(fw, c.vocab * c.dim) && BuffersZeroed(kc, vc, xt, xbt, lg)
    ensures r.Success? ==> var (rf, fw, kc, vc, xt, xbt, lg) := r.value;
      fresh(rf.weights.data) && fresh(fw.data) && fresh(kc.data) && fresh(vc.data) && fresh(xt.data) &&
      fresh(xbt.data) && fresh(lg.data) &&
      SevenApart(rf.weights.data, fw.data, kc.data, vc.data, xt.data, xbt.data, lg.data)
  {
    r := AllocateRest(c);
  }

  /** The buffers of the forward pass, shaped for `c`: the two caches `[n_layers, seq_len,
      dim]`, `x` and `xb` of `[dim]` and `logits` of `[vocab_size]`. */
  ghost predicate BuffersFit(c: Config, kc: Tensor, vc: Tensor, xt: Tensor, xbt: Tensor, lg: Tensor)
  {
    kc.Valid() && kc.shape == [c.nLayers, c.seqLen, c.dim] &&
    vc.Valid() && vc.shape == [c.nLayers, c.seqLen, c.dim] &&
    xt.Valid() && xt.shape == [c.dim] && xbt.Valid() && xbt.shape == [c.dim] &&
    lg.Valid() && lg.shape == [c.vocab] &&
    Sized(kc, c.nLayers * c.seqLen * c.dim) && Sized(vc, c.nLayers * c.seqLen * c.dim) &&
    Sized(xt, c.dim) && Sized(xbt, c.dim) && Sized(lg, c.vocab)
  }

  /** The caches and the activations are zero. */
  ghost predicate BuffersZeroed(kc: Tensor, vc: Tensor, xt: Tensor, xbt: Tensor, lg: Tensor)
    reads kc.data, vc.data, xt.data, xbt.data, lg.data
  {
    kc.data[..] == Zeros(kc.size) && vc.data[..] == Zeros(vc.size) &&
    xt.data[..] == Zeros(xt.size) && xbt.data[..] == Zeros(xbt.size) && lg.data[..] == Zeros(lg.size)
  }

  /** The first half of a block's reads, `rms_att` then the attention's four matrices, from
      where reads have consumed the first `q` words. */
  method ReadAttentionHalf(s: WeightStream, n: RmsNorm, a: Attention, q: nat, d: nat, dd: nat)
    requires s.Valid() && s.cursor == Cur(s.words, q)
    requires n.Valid() && a.Valid()
    requires Sized(n.weights, d) && Sized(a.wq, dd) && Sized(a.wk, dd) && Sized(a.wv, dd) && Sized(a.wo, dd)
    requires n.weights.data != a.wq.data && n.weights.data != a.wk.data
    requires n.weights.data != a.wv.data && n.weights.data != a.wo.data
    requires IsZero(n.weights, d) && IsZero(a.wq, dd) && IsZero(a.wk, dd) && IsZero(a.wv, dd) && IsZero(a.wo, dd)
    modifies s, n.weights.data, a.wq.data, a.wk.data, a.wv.data, a.wo.data
    ensures s.Valid() && s.cursor == Cur(s.words, q + d + 4 * dd)
    ensures Holds(n.weights, s.words, q, d) && Holds(a.wq, s.words, q + d, dd)
    ensures Holds(a.wk, s.words, q + d + dd, dd) && Holds(a.wv, s.words, q + d + 2 * dd, dd)
    ensures Holds(a.wo, s.words, q + d + 3 * dd, dd)
  {
    ghost var w := s.words;
    s.ReadTensor(n.weights);
    assert Holds(n.weights, w, q, d);
    assert IsZero(a.wq, dd) && IsZero(a.wk, dd) && IsZero(a.wv, dd) && IsZero(a.wo, dd);
    NextCur(w, q, d);
    ghost var c0 := s.cursor;
    assert c0 == Cur(w, q + d);
    a.ReadWeights(s);
    NextCur(w, q + d, dd);
    ghost var c1 := Next(w, c0, dd);
    assert c1 == Cur(w, q + d + dd);
    NextCur(w, q + d + dd, dd);
    ghost var c2 := Next(w, c1, dd);
    assert c2 == Cur(w, q + d + 2 * dd);
    NextCur(w, q + d + 2 * dd, dd);
    ghost var c3 := Next(w, c2, dd);
    assert c3 == Cur(w, q + d + 3 * dd);
    NextCur(w, q + d + 3 * dd, dd);
    assert q + d + 3 * dd + dd == q + d + 4 * dd;
  }

  /** The second half of a block's reads, `rms_ffn` then `w1`, `w2`, `w3`, from where the
      first half ended. */
  method ReadFeedForwardHalf(s: WeightStream, n: RmsNorm, f: FeedForward, p: nat, d: nat, dd: nat,
                             hd: nat)
    requires s.Valid() && s.cursor == Cur(s.words, p + d + 4 * dd)
    requires n.Valid() && f.Valid()
    requires Sized(n.weights, d) && Sized(f.w1, hd) && Sized(f.w2, hd) && Sized(f.w3, hd)
    requires n.weights.data != f.w1.data && n.weights.data != f.w2.data && n.weights.data != f.w3.data
    requires IsZero(n.weights, d) && IsZero(f.w1, hd) && IsZero(f.w2, hd) && IsZero(f.w3, hd)
    modifies s, n.weights.data, f.w1.data, f.w2.data, f.w3.data
    ensures s.Valid() && s.cursor == Cur(s.words, p + 2 * d + 4 * dd + 3 * hd)
    ensures Holds(n.weights, s.words, p + d + 4 * dd, d)
    ensures Holds(f.w1, s.words, p + d + 4 * dd + d, hd)
    ensures Holds(f.w2, s.words, p + d + 4 * dd + d + hd, hd)
    ensures Holds(f.w3, s.words, p + d + 4 * dd + d + 2 * hd, hd)
  {
    ghost var w := s.words;
    s.ReadTensor(n.weights);
    assert Holds(n.weights, w, p + d + 4 * dd, d);
    assert IsZero(f.w1, hd) && IsZero(f.w2, hd) && IsZero(f.w3, hd);
    NextCur(w, p + d + 4 * dd, d);
    ghost var c0 := s.cursor;
    assert c0 == Cur(w, p + d + 4 * dd + d);
    f.ReadWeights(s);
    NextCur(w, p + d + 4 * dd + d, hd);
    ghost var c1 := Next(w, c0, hd);
    assert c1 == Cur(w, p + d + 4 * dd + d + hd);
    NextCur(w, p + d + 4 * dd + d + hd, hd);
    ghost var c2 := Next(w, c1, hd);
    assert c2 == Cur(w, p + d + 4 * dd + d + 2 * hd);
    NextCur(w, p + d + 4 * dd + d + 2 * hd, hd);
    assert p + d + 4 * dd + d + 2 * hd + hd == p + 2 * d + 4 * dd + 3 * hd;
  }

  /** A block's nine tensors are read in file order, each in full: `rms_att`, then `wq`,
      `wk`, `wv`, `wo`, then `rms_ffn`, then `w1`, `w2`, `w3`, the first read asked for once
      `p` words were. */
  method ReadBlock(s: WeightStream, b: Block, p: nat, d: nat, dd: nat, hd: nat,
                   ghost owner: map<array<int>, nat>, ghost l: nat)
    requires s.Valid() && s.cursor == Cur(s.words, p)
    requires b.rmsAtt.Valid() && b.attention.Valid() && b.rmsFfn.Valid() && b.ffn.Valid()
    requires BlockSized(b, d, dd, hd) && BlockApart(b) && BlockZero(b, d, dd, hd)
    requires Owned(owner, b, l)
    modifies s, OwnedBy(owner, l)
    ensures s.Valid() && s.cursor == Cur(s.words, p + 2 * d + 4 * dd + 3 * hd)
    ensures BlockHolds(b, s.words, p, d, dd, hd)
  {
    ReadAttentionHalf(s, b.rmsAtt, b.attention, p, d, dd);
    ReadFeedForwardHalf(s, b.rmsFfn, b.ffn, p, d, dd, hd);
  }

  /** The buffers `owner` assigns to layer `l`. */
  ghost function OwnedBy(owner: map<array<int>, nat>, l: nat): set<array<int>>
  {
    set a | a in owner && owner[a] == l
  }

  /** Blocks `0 .. n-1` hold what the reads from where the layout puts them delivered. */
  ghost predicate HeldBelow(c: Config, layers: seq<Block>, words: seq<int>, n: nat)
    requires n <= |layers|
    reads LayerArrays(layers)
  {
    forall j :: 0 <= j < n ==> (LayerArraysHas(layers, j); LayerHolds(c, layers[j], words, j))
  }

  /** Blocks `n ..` are still zero. */
  ghost predicate ZeroFrom(c: Config, layers: seq<Block>, n: nat)
    reads LayerArrays(layers)
  {
    forall j :: n <= j < |layers| ==>
      (LayerArraysHas(layers, j); BlockZero(layers[j], c.dim, c.dim * c.dim, c.hidden * c.dim))
  }

  /** Block `l` is read, and the other blocks keep what they held. */
  method ReadBlockAt(s: WeightStream, c: Config, layers: seq<Block>, ghost owner: map<array<int>, nat>, l: nat)
    requires l < |layers| && s.Valid() && s.cursor == Cur(s.words, BlockStart(c, l))
    requires c.dim > 0 && c.hidden > 0 && c.nHeads > 0
    requires BlockOk(c, layers[l]) && BlockZero(layers[l], c.dim, c.dim * c.dim, c.hidden * c.dim)
    requires forall j :: 0 <= j < |layers| ==> Owned(owner, layers[j], j)
    modifies s, OwnedBy(owner, l)
    ensures s.Valid() && s.cursor == Cur(s.words, BlockStart(c, l + 1))
    ensures LayerHolds(c, layers[l], s.words, l)
    ensures forall j :: 0 <= j < |layers| && j != l && old(LayerHolds(c, layers[j], s.words, j)) ==>
      LayerHolds(c, layers[j], s.words, j)
    ensures forall j :: 0 <= j < |layers| && j != l && old(BlockZero(layers[j], c.dim, c.dim * c.dim, c.hidden * c.dim)) ==>
      BlockZero(layers[j], c.dim, c.dim * c.dim, c.hidden * c.dim)
  {
    BlockValid(c, layers[l]);
    ReadBlock(s, layers[l], BlockStart(c, l), c.dim, c.dim * c.dim, c.hidden * c.dim, owner, l);
    BlockStartNext(c, l);
    forall j | 0 <= j < |layers| && j != l
      ensures old(LayerHolds(c, layers[j], s.words, j)) ==> LayerHolds(c, layers[j], s.words, j)
      ensures old(BlockZero(layers[j], c.dim, c.dim * c.dim, c.hidden * c.dim)) ==>
        BlockZero(layers[j], c.dim, c.dim * c.dim, c.hidden * c.dim)
    {
      var b := layers[j];
      assert Owned(owner, b, j);
      assert unchanged(b.rmsAtt.weights.data, b.attention.wq.data, b.attention.wk.data,
        b.attention.wv.data, b.attention.wo.data, b.rmsFfn.weights.data, b.ffn.w1.data, b.ffn.w2.data,
        b.ffn.w3.data);
    }
  }

  /** One pass of the loop of `load_weights` over the blocks: block `l` is read, and the
      blocks before it keep what they held and those after it stay zero. */
  method ReadLayer(s: WeightStream, c: Config, layers: seq<Block>, ghost owner: map<array<int>, nat>, l: nat)
    requires l < |layers| && s.Valid() && s.cursor == Cur(s.words, BlockStart(c, l))
    requires c.dim > 0 && c.hidden > 0 && c.nHeads > 0
    requires BlockOk(c, layers[l])
    requires forall j :: 0 <= j < |layers| ==> Owned(owner, layers[j], j)
    requires HeldBelow(c, layers, s.words, l) && ZeroFrom(c, layers, l)
    modifies s, OwnedBy(owner, l)
    ensures s.Valid() && s.cursor == Cur(s.words, BlockStart(c, l + 1))
    ensures HeldBelow(c, layers, s.words, l + 1) && ZeroFrom(c, layers, l + 1)
  {
    LayerArraysHas(layers, l);
    assert BlockZero(layers[l], c.dim, c.dim * c.dim, c.hidden * c.dim);
    ghost var w := s.words;
    assert forall j :: 0 <= j < l ==> LayerHolds(c, layers[j], w, j);
    assert forall j :: l < j < |layers| ==> BlockZero(layers[j], c.dim, c.dim * c.dim, c.hidden * c.dim);
    ReadBlockAt(s, c, layers, owner, l);
    forall j | 0 <= j < l
      ensures LayerHolds(c, layers[j], w, j)
    {
      assert old(LayerHolds(c, layers[j], s.words, j));
    }
    forall j | l + 1 <= j < |layers|
      ensures BlockZero(layers[j], c.dim, c.dim * c.dim, c.hidden * c.dim)
    {
      assert old(BlockZero(layers[j], c.dim, c.dim * c.dim, c.hidden * c.dim));
    }
  }

  /** The loop of `load_weights` over the blocks: block `l` is read, in full, from where the
      layout puts it, each block after the one before. */
  method ReadLayers(s: WeightStream, c: Config, layers: seq<Block>, ghost owner: map<array<int>, nat>)
    requires s.Valid() && s.cursor == Cur(s.words, BlockStart(c, 0))
    requires |layers| == c.nLayers && c.dim > 0 && c.hidden > 0 && c.nHeads > 0
    requires forall l :: 0 <= l < |layers| ==> BlockOk(c, layers[l]) && Owned(owner, layers[l], l)
    requires forall l :: 0 <= l < |layers| ==> BlockZero(layers[l], c.dim, c.dim * c.dim, c.hidden * c.dim)
    modifies s, owner.Keys
    ensures s.Valid() && s.cursor == Cur(s.words, BlockStart(c, c.nLayers))
    ensures forall l :: 0 <= l < |layers| ==> LayerHolds(c, layers[l], s.words, l)
  {
    for l := 0 to |layers|
      invariant s.Valid() && s.cursor == Cur(s.words, BlockStart(c, l))
      invariant HeldBelow(c, layers, s.words, l) && ZeroFrom(c, layers, l)
    {
      ReadLayer(s, c, layers, owner, l);
    }
    assert HeldBelow(c, layers, s.words, |layers|);
  }

  /** The reads after the blocks: `rms_final`, then the output projection, each in full, from
      where the layout puts them.  The embedding and the blocks keep what they held. */
  method ReadTail(s: WeightStream, c: Config, n: RmsNorm, fw: Tensor, e: Tensor, layers: seq<Block>,
                  ghost owner: map<array<int>, nat>)
    requires s.Valid() && s.cursor == Cur(s.words, FinalStart(c))
    requires n.Valid() && fw.Valid() && Sized(n.weights, c.dim) && Sized(fw, c.vocab * c.dim)
    requires IsZero(n.weights, c.dim) && IsZero(fw, c.vocab * c.dim)
    requires n.weights.data != fw.data && e.data != n.weights.data && e.data != fw.data
    requires n.weights.data !in owner && fw.data !in owner
    requires forall l :: 0 <= l < |layers| ==> Owned(owner, layers[l], l)
    modifies s, n.weights.data, fw.data
    ensures s.Valid() && s.cursor == Cur(s.words, FileWords(c))
    ensures Holds(n.weights, s.words, FinalStart(c), c.dim)
    ensures Holds(fw, s.words, FinalStart(c) + c.dim, c.vocab * c.dim)
    ensures old(Holds(e, s.words, 0, c.vocab * c.dim)) ==> Holds(e, s.words, 0, c.vocab * c.dim)
    ensures forall l :: 0 <= l < |layers| && old(LayerHolds(c, layers[l], s.words, l)) ==>
      LayerHolds(c, layers[l], s.words, l)
  {
    ghost var w := s.words;
    s.ReadTensor(n.weights);
    assert Holds(n.weights, w, FinalStart(c), c.dim);
    assert IsZero(fw, c.vocab * c.dim);
    NextCur(w, FinalStart(c), c.dim);
    s.ReadTensor(fw);
    assert Holds(fw, w, FinalStart(c) + c.dim, c.vocab * c.dim);
    NextCur(w, FinalStart(c) + c.dim, c.vocab * c.dim);
    FinalStartTotal(c);
    forall l | 0 <= l < |layers|
      ensures old(LayerHolds(c, layers[l], w, l)) ==> LayerHolds(c, layers[l], w, l)
    {
      var b := layers[l];
      assert Owned(owner, b, l);
      assert unchanged(b.rmsAtt.weights.data, b.attention.wq.data, b.attention.wk.data,
        b.attention.wv.data, b.attention.wo.data, b.rmsFfn.weights.data, b.ffn.w1.data, b.ffn.w2.data,
        b.ffn.w3.data);
    }
  }

  /** The buffers of all blocks. */
  function LayerArrays(layers: seq<Block>): set<array<int>>
  {
    set l, a | 0 <= l < |layers| && a in BlockArrays(layers[l]) :: a
  }

  /** The buffers of block `l` are among those of all blocks. */
  lemma LayerArraysHas(layers: seq<Block>, l: nat)
    requires l < |layers|
    ensures BlockArrays(layers[l]) <= LayerArrays(layers)
  {
  }

  /** The weight tensors of a model built for `c`: the embedding table `e`, the blocks, the
      final norm `n` and the output projection `fw`, each of the size the configuration gives
      it and in a buffer of its own; `owner` assigns every block buffer to its layer. */
  ghost predicate WeightsFit(c: Config, e: Tensor, layers: seq<Block>, n: RmsNorm, fw: Tensor,
                             owner: map<array<int>, nat>)
  {
    |layers| == c.nLayers && c.dim > 0 && c.hidden > 0 && c.nHeads > 0 &&
    e.Valid() && Sized(e, c.vocab * c.dim) &&
    (forall l :: 0 <= l < |layers| ==> BlockOk(c, layers[l])) &&
    (forall l :: 0 <= l < |layers| ==> Owned(owner, layers[l], l)) &&
    n.Valid() && fw.Valid() && Sized(n.weights, c.dim) && Sized(fw, c.vocab * c.dim) &&
    n.weights.data != fw.data && e.data != n.weights.data && e.data != fw.data &&
    e.data !in owner && n.weights.data !in owner && fw.data !in owner
  }

  /** Every weight tensor is zero. */
  ghost predicate WeightsZeroed(c: Config, e: Tensor, layers: seq<Block>, n: RmsNorm, fw: Tensor)
    reads e.data, n.weights.data, fw.data, LayerArrays(layers)
  {
    IsZero(e, c.vocab * c.dim) &&
    (forall l :: 0 <= l < |layers| ==> BlockZero(layers[l], c.dim, c.dim * c.dim, c.hidden * c.dim)) &&
    IsZero(n.weights, c.dim) && IsZero(fw, c.vocab * c.dim)
  }

  /** Every weight tensor holds what its read from `words` delivered, the reads following the
      file layout one after the other from the start of the weight section. */
  ghost predicate WeightsLoaded(c: Config, e: Tensor, layers: seq<Block>, n: RmsNorm, fw: Tensor,
                                words: seq<int>)
    reads e.data, n.weights.data, fw.data, LayerArrays(layers)
  {
    Holds(e, words, 0, c.vocab * c.dim) &&
    (forall l :: 0 <= l < |layers| ==> (LayerArraysHas(layers, l); LayerHolds(c, layers[l], words, l))) &&
    Holds(n.weights, words, FinalStart(c), c.dim) &&
    Holds(fw, words, FinalStart(c) + c.dim, c.vocab * c.dim)
  }

  /** The reads of `load_weights`, in file order: the embedding table, the blocks, the final
      norm and the output projection, each in full from where the layout puts it. */
  method ReadFile(s: WeightStream, c: Config, e: Tensor, layers: seq<Block>, n: RmsNorm, fw: Tensor,
                  ghost owner: map<array<int>, nat>)
    requires s.Valid() && s.cursor == 0
    requires WeightsFit(c, e, layers, n, fw, owner) && WeightsZeroed(c, e, layers, n, fw)
    modifies s, e.data, owner.Keys, n.weights.data, fw.data
    ensures s.Valid() && s.cursor == Cur(s.words, FileWords(c))
    ensures WeightsLoaded(c, e, layers, n, fw, s.words)
  {
    ghost var w := s.words;
    s.ReadTensor(e);
    assert Holds(e, w, 0, c.vocab * c.dim);
    NextCur(w, 0, c.vocab * c.dim);
    assert s.cursor == Cur(w, BlockStart(c, 0));
    assert IsZero(n.weights, c.dim) && IsZero(fw, c.vocab * c.dim);
    ReadLayers(s, c, layers, owner);
    assert Holds(e, w, 0, c.vocab * c.dim);
    assert IsZero(n.weights, c.dim) && IsZero(fw, c.vocab * c.dim);
    ReadTail(s, c, n, fw, e, layers, owner);
  }

  /** `ReadFile`, which leaves the shapes and sizes of the weight tensors as they were. */
  method ReadFileKeeping(s: WeightStream, c: Config, e: Tensor, layers: seq<Block>, n: RmsNorm, fw: Tensor,
                         ghost owner: map<array<int>, nat>)
    requires s.Valid() && s.cursor == 0
    requires WeightsFit(c, e, layers, n, fw, owner) && WeightsZeroed(c, e, layers, n, fw)
    modifies s, e.data, owner.Keys, n.weights.data, fw.data
    ensures s.Valid() && s.cursor == Cur(s.words, FileWords(c))
    ensures WeightsLoaded(c, e, layers, n, fw, s.words)
    ensures WeightsFit(c, e, layers, n, fw, owner)
  {
    ReadFile(s, c, e, layers, n, fw, owner);
  }

  // ---------------------------------------------------------------------------------------
  // One token through the buffers

  /** What a block's nine weight tensors hold. */
  ghost function BlockValues(b: Block): BlockWeights
    reads b.rmsAtt.weights.data, b.attention.wq.data, b.attention.wk.data, b.attention.wv.data
    reads b.attention.wo.data, b.rmsFfn.weights.data, b.ffn.w1.data, b.ffn.w2.data, b.ffn.w3.data
  {
    var a, f := b.attention, b.ffn;
    BlockWeights(b.rmsAtt.weights.data[..], a.wq.data[..], a.wk.data[..], a.wv.data[..], a.wo.data[..],
                 b.rmsFfn.weights.data[..], f.w1.data[..], f.w2.data[..], f.w3.data[..])
  }

  /** What the buffers of the forward pass hold. */
  ghost function ActsOf(x: Tensor, xb: Tensor, kc: Tensor, vc: Tensor, lg: Tensor): Activations
    reads x.data, xb.data, kc.data, vc.data, lg.data
  {
    Activations(x.data[..], xb.data[..], kc.data[..], vc.data[..], lg.data[..])
  }

  /** The buffers of the forward pass are five distinct buffers, none of them a weight of `b`. */
  predicate BuffersApart(b: Block, x: Tensor, xb: Tensor, kc: Tensor, vc: Tensor, lg: Tensor)
  {
    var xs := BlockArrays(b);
    x.data != xb.data && x.data != kc.data && x.data != vc.data && x.data != lg.data &&
    xb.data != kc.data && xb.data != vc.data && xb.data != lg.data && kc.data != vc.data &&
    kc.data != lg.data && vc.data != lg.data &&
    x.data !in xs && xb.data !in xs && kc.data !in xs && vc.data !in xs && lg.data !in xs
  }

  /** The first half of a pass of the loop of `forward` over the blocks, with block `b` as
      layer `l`: `rms_att` from `x` into `xb`, the attention from `xb` into `xb` (writing the
      cache slot of `(l, pos)`), then `x += xb`. */
  method AttentionHalfForward(c: Config, b: Block, x: Tensor, xb: Tensor, kc: Tensor, vc: Tensor, lg: Tensor,
                              pos: nat, l: nat, k: Kernels)
    requires BlockOk(c, b) && c.dim > 0 && c.hidden > 0 && Rotates(c) && l < c.nLayers && pos < c.seqLen
    requires BuffersFit(c, kc, vc, x, xb, lg) && BuffersApart(b, x, xb, kc, vc, lg)
    modifies x.data, xb.data, kc.data, vc.data
    ensures BlockFits(c, old(BlockValues(b))) && ActsFit(c, old(ActsOf(x, xb, kc, vc, lg)))
    ensures ActsOf(x, xb, kc, vc, lg) == AttentionHalf(c, old(BlockValues(b)), old(ActsOf(x, xb, kc, vc, lg)), pos, l, k)
  {
    BlockValid(c, b);
    ghost var s, w := ActsOf(x, xb, kc, vc, lg), BlockValues(b);
    var d := c.dim;
    var st := b.rmsAtt.Forward(xb, x, k);
    ghost var h := RmsNormed(s.x, w.rmsAtt, k);
    CacheSlotInside(l, pos, c.nLayers, c.seqLen, d);
    b.attention.Forward(xb, xb, pos, l, kc, vc, k);
    RopeFitsHeads(c.nHeads, HeadDim(c), d);
    ghost var att := xb.data[..];
    SplicesWhole();
    st := Add(x, x, xb);
    assert x.data[..] == AddSeq(s.x, att);
  }

  /** The second half of a pass of the loop of `forward` over the blocks: `rms_ffn` from `x`
      into `xb`, the feed-forward layer from `xb` into `xb`, then `x += xb`. */
  method FeedForwardHalfForward(c: Config, b: Block, x: Tensor, xb: Tensor, kc: Tensor, vc: Tensor, lg: Tensor,
                                k: Kernels)
    requires BlockOk(c, b) && c.dim > 0 && c.hidden > 0 && c.nHeads > 0
    requires BuffersFit(c, kc, vc, x, xb, lg) && BuffersApart(b, x, xb, kc, vc, lg)
    modifies x.data, xb.data
    ensures BlockFits(c, old(BlockValues(b))) && ActsFit(c, old(ActsOf(x, xb, kc, vc, lg)))
    ensures ActsOf(x, xb, kc, vc, lg) == FeedForwardHalf(c, old(BlockValues(b)), old(ActsOf(x, xb, kc, vc, lg)), k)
  {
    BlockValid(c, b);
    ghost var s, w := ActsOf(x, xb, kc, vc, lg), BlockValues(b);
    var st := b.rmsFfn.Forward(xb, x, k);
    ghost var h := RmsNormed(s.x, w.rmsFfn, k);
    b.ffn.Forward(xb, xb, k);
    ghost var f := FeedForwardOut(w.w1, w.w2, w.w3, c.dim, c.hidden, h, k);
    SpliceWhole(h, f);
    st := Add(x, x, xb);
    assert x.data[..] == AddSeq(s.x, f) && xb.data[..] == f;
  }

  /** One pass of the loop of `forward` over the blocks, with block `b` as layer `l`. */
  method BlockForward(c: Config, b: Block, x: Tensor, xb: Tensor, kc: Tensor, vc: Tensor, lg: Tensor,
                      pos: nat, l: nat, k: Kernels)
    requires BlockOk(c, b) && c.dim > 0 && c.hidden > 0 && Rotates(c) && l < c.nLayers && pos < c.seqLen
    requires BuffersFit(c, kc, vc, x, xb, lg) && BuffersApart(b, x, xb, kc, vc, lg)
    modifies x.data, xb.data, kc.data, vc.data
    ensures BlockFits(c, old(BlockValues(b))) && ActsFit(c, old(ActsOf(x, xb, kc, vc, lg)))
    ensures ActsOf(x, xb, kc, vc, lg) == LayerStep(c, old(BlockValues(b)), old(ActsOf(x, xb, kc, vc, lg)), pos, l, k)
  {
    ghost var s, w := ActsOf(x, xb, kc, vc, lg), BlockValues(b);
    AttentionHalfForward(c, b, x, xb, kc, vc, lg, pos, l, k);
    ghost var m := ActsOf(x, xb, kc, vc, lg);
    FeedForwardHalfForward(c, b, x, xb, kc, vc, lg, k);
    assert ActsOf(x, xb, kc, vc, lg) == FeedForwardHalf(c, w, m, k);
  }

  /** Pass `l` of the loop over the blocks, as step `l` of the trace `t`. */
  method BlockPass(c: Config, b: Block, ghost w: Weights, ghost t: seq<Activations>, x: Tensor, xb: Tensor,
                   kc: Tensor, vc: Tensor, lg: Tensor, pos: nat, l: nat, k: Kernels)
    requires Fits(c, w) && l < c.nLayers && pos < c.seqLen && Rotates(c)
    requires BlockOk(c, b) && c.dim > 0 && c.hidden > 0
    requires BuffersFit(c, kc, vc, x, xb, lg) && BuffersApart(b, x, xb, kc, vc, lg)
    requires BlockValues(b) == w.blocks[l] && Chain(c, PassOf(c, w, pos, k), t, c.nLayers)
    requires ActsOf(x, xb, kc, vc, lg) == t[l]
    modifies x.data, xb.data, kc.data, vc.data
    ensures ActsOf(x, xb, kc, vc, lg) == t[l + 1]
  {
    ChainPass(c, w, pos, k, t, l);
    BlockForward(c, b, x, xb, kc, vc, lg, pos, l, k);
  }

  /** The loop of `forward` over the blocks, `layers[l]` as layer `l`, whose weights are
      `w`. */
  method BlocksForward(c: Config, layers: seq<Block>, ghost w: Weights, x: Tensor, xb: Tensor, kc: Tensor,
                       vc: Tensor, lg: Tensor, pos: nat, k: Kernels)
    requires Fits(c, w) && |layers| == c.nLayers && c.dim > 0 && c.hidden > 0 && Rotates(c) && pos < c.seqLen
    requires forall l :: 0 <= l < |layers| ==> BlockOk(c, layers[l])
    requires forall l :: 0 <= l < |layers| ==> BuffersApart(layers[l], x, xb, kc, vc, lg)
    requires forall l :: 0 <= l < |layers| ==> BlockValues(layers[l]) == w.blocks[l]
    requires BuffersFit(c, kc, vc, x, xb, lg)
    modifies x.data, xb.data, kc.data, vc.data
    ensures ActsFit(c, old(ActsOf(x, xb, kc, vc, lg)))
    ensures ActsOf(x, xb, kc, vc, lg) == Blocks(c, w, old(ActsOf(x, xb, kc, vc, lg)), pos, 0, k)
  {
    ghost var s := ActsOf(x, xb, kc, vc, lg);
    assert ActsFit(c, s);
    PassOfPreserves(c, w, pos, k);
    ghost var t := ChainOf(c, PassOf(c, w, pos, k), s, c.nLayers);
    for l := 0 to c.nLayers
      invariant ActsOf(x, xb, kc, vc, lg) == t[l]
    {
      var b := layers[l];
      assert BlockOk(c, b) && BuffersApart(b, x, xb, kc, vc, lg);
      assert BlockValues(b) == w.blocks[l];
      BlockPass(c, b, w, t, x, xb, kc, vc, lg, pos, l, k);
    }
    ChainFrom(c, PassOf(c, w, pos, k), t, 0);
  }

  /** What the weight tensors of the blocks hold, block by block. */
  ghost function LayerValues(layers: seq<Block>): (ws: seq<BlockWeights>)
    reads LayerArrays(layers)
    ensures |ws| == |layers|
    ensures forall l :: 0 <= l < |layers| ==> ws[l] == BlockValues(layers[l])
  {
    seq(|layers|, l reads LayerArrays(layers) requires 0 <= l < |layers| =>
      (LayerArraysHas(layers, l); BlockValues(layers[l])))
  }

  /** A block built for `c` holds weights of the sizes `c` gives them. */
  lemma BlockOkFits(c: Config, b: Block)
    requires BlockOk(c, b) && c.dim > 0 && c.hidden > 0 && c.nHeads > 0
    ensures BlockFits(c, BlockValues(b))
  {
    BlockValid(c, b);
  }

  // ---------------------------------------------------------------------------------------
  // The model

  class Model {
    const config: Config
    const tokenizer: Tokenizer
    const embedding: Embedding
    const layers: seq<Block>
    const rmsFinal: RmsNorm
    const finalWeights: Tensor  // [vocab_size, dim]
    const kCache: Tensor        // [n_layers, seq_len, dim]
    const vCache: Tensor        // [n_layers, seq_len, dim]
    const x: Tensor             // [dim], the activation
    const xb: Tensor            // [dim], the scratch activation
    const logits: Tensor        // [vocab_size]
    ghost const owner: map<array<int>, nat>  // each block buffer to its layer

    /** The buffers the weight file fills. */
    ghost function WeightArrays(): set<array<int>>
    {
      {embedding.weights.data, rmsFinal.weights.data, finalWeights.data} + owner.Keys
    }

    /** Every buffer of the model. */
    ghost function Arrays(): set<array<int>>
    {
      WeightArrays() + {kCache.data, vCache.data, x.data, xb.data, logits.data}
    }

    /** The caches and activations are in buffers of their own, apart from the weights'. */
    ghost predicate Apart()
    {
      var e, rf, fw := embedding.weights.data, rmsFinal.weights.data, finalWeights.data;
      SevenApart(rf, fw, kCache.data, vCache.data, x.data, xb.data, logits.data) &&
      e != kCache.data && e != vCache.data && e != x.data && e != xb.data && e != logits.data &&
      kCache.data !in owner && vCache.data !in owner && x.data !in owner && xb.data !in owner &&
      logits.data !in owner
    }

    /** The model `load_weights` builds from configuration `config`: every tensor with the
        shape that configuration gives it, each in a buffer of its own. */
    ghost predicate Valid()
    {
      var c := config;
      !Degenerate(c) && tokenizer.vocabSize == c.vocab && embedding.Valid() &&
      WeightsFit(c, embedding.weights, layers, rmsFinal, finalWeights, owner) &&
      embedding.weights.shape == [c.vocab, c.dim] && rmsFinal.weights.shape == [c.dim] &&
      finalWeights.shape == [c.vocab, c.dim] &&
      BuffersFit(c, kCache, vCache, x, xb, logits) &&
      Apart()
    }

    /** Every weight is still zero. */
    ghost predicate WeightsZero()
      reads embedding.weights.data, rmsFinal.weights.data, finalWeights.data, LayerArrays(layers)
    {
      WeightsZeroed(config, embedding.weights, layers, rmsFinal, finalWeights)
    }

    /** The caches and the activations are zero. */
    ghost predicate BuffersZero()
      reads kCache.data, vCache.data, x.data, xb.data, logits.data
    {
      BuffersZeroed(kCache, vCache, x, xb, logits)
    }

    /** The model made of freshly allocated, zero tensors shaped for `config`. */
    constructor Init(config: Config, tokenizer: Tokenizer, embedding: Embedding, layers: seq<Block>,
                     rmsFinal: RmsNorm, finalWeights: Tensor, kCache: Tensor, vCache: Tensor,
                     x: Tensor, xb: Tensor, logits: Tensor, ghost owner: map<array<int>, nat>)
      requires !Degenerate(config) && config.nHeads > 0 && tokenizer.vocabSize == config.vocab
      requires embedding.Valid() && embedding.weights.shape == [config.vocab, config.dim]
      requires Sized(embedding.weights, config.vocab * config.dim)
      requires IsZero(embedding.weights, config.vocab * config.dim)
      requires |layers| == config.nLayers && AllAllocated(config, layers) && AllOwned(owner, layers)
      requires rmsFinal.Valid() && rmsFinal.weights.shape == [config.dim] && Sized(rmsFinal.weights, config.dim)
      requires finalWeights.Valid() && finalWeights.shape == [config.vocab, config.dim]
      requires Sized(finalWeights, config.vocab * config.dim)
      requires IsZero(rmsFinal.weights, config.dim) && IsZero(finalWeights, config.vocab * config.dim)
      requires BuffersFit(config, kCache, vCache, x, xb, logits) && BuffersZeroed(kCache, vCache, x, xb, logits)
      requires var e := embedding.weights.data;
        SevenApart(rmsFinal.weights.data, finalWeights.data, kCache.data, vCache.data, x.data, xb.data, logits.data) &&
        e != rmsFinal.weights.data && e != finalWeights.data && e != kCache.data && e != vCache.data &&
        e != x.data && e != xb.data && e != logits.data
      requires embedding.weights.data !in owner && rmsFinal.weights.data !in owner && finalWeights.data !in owner
      requires kCache.data !in owner && vCache.data !in owner && x.data !in owner && xb.data !in owner
      requires logits.data !in owner
      ensures this.config == config && this.tokenizer == tokenizer && this.embedding == embedding
      ensures this.layers == layers && this.rmsFinal == rmsFinal && this.finalWeights == finalWeights
      ensures this.kCache == kCache && this.vCache == vCache && this.x == x && this.xb == xb && this.logits == logits
      ensures this.owner == owner
      ensures Valid() && WeightsZero() && BuffersZero()
    {
      this.config, this.tokenizer, this.embedding, this.layers := config, tokenizer, embedding, layers;
      this.rmsFinal, this.finalWeights, this.kCache, this.vCache := rmsFinal, finalWeights, kCache, vCache;
      this.x, this.xb, this.logits, this.owner := x, xb, logits, owner;
    }

    /** The allocation half of `load_weights` for a configuration: the embedding table, the
        blocks, and the tensors after them, in that order, all zero.  It fails, with the
        first zero dimension, exactly when the configuration is degenerate. */
    static method Allocate(c: Config) returns (r: Result<Model>)
      requires c.vocab > 0 && c.dim > 0 && c.nLayers > 0 ==> c.nHeads > 0
      ensures r.Failure? <==> Degenerate(c)
      ensures r.Failure? ==> r.error == ZeroDimension
      ensures r.Success? ==> fresh(r.value) && r.value.config == c && r.value.Valid()
      ensures r.Success? ==> r.value.WeightsZero() && r.value.BuffersZero()
      ensures r.Success? ==> fresh(r.value.embedding.weights.data) && fresh(r.value.rmsFinal.weights.data) &&
                             fresh(r.value.finalWeights.data) && fresh(r.value.owner.Keys)
    {
      var tok := new Tokenizer(c.vocab);
      var e := Embedding.Create(c.vocab, c.dim);
      if e.Failure? {
        return Failure(e.error);
      }
      Product2(e.value.weights.shape);
      var ls, owner := AllocateLayers(c, {e.value.weights.data});
      if ls.Failure? {
        return Failure(ls.error);
      }
      var rest := AllocateRestAfter(c, ls.value);
      if rest.Failure? {
        return Failure(rest.error);
      }
      var (rf, fw, kc, vc, xt, xbt, lg) := rest.value;
      var m := new Model.Init(c, tok, e.value, ls.value, rf, fw, kc, vc, xt, xbt, lg, owner);
      return Success(m);
    }

    /** The reading half of `load_weights`: the embedding table, then every block in order,
        then the final norm and the output projection, each read in full from the weight
        section.  A short file leaves the rest of the weights zero. */
    method ReadWeights(s: WeightStream)
      requires Valid() && WeightsZero() && BuffersZero() && s.Valid() && s.cursor == 0
      modifies s, WeightArrays()
      ensures Valid() && BuffersZero()
      ensures s.Valid() && s.cursor == Cur(s.words, FileWords(config))
      ensures WeightsLoaded(config, embedding.weights, layers, rmsFinal, finalWeights, s.words)
    {
      ReadFileKeeping(s, config, embedding.weights, layers, rmsFinal, finalWeights, owner);
    }

    /** `Model(path)`: `load_weights` then the tokenizer.  An unopenable file, then a wrong
        magic number, then an unsupported version are rejected before anything is allocated;
        a configuration with a zero dimension fails in the allocation; otherwise every weight
        holds what the weight section delivers in file order, and the caches and activations
        are zero. */
    static method Load(file: Option<ModelFile>) returns (r: Result<Model>)
      requires file.Some? ==> |file.value.header| == HEADER_BYTES
      requires file.Some? && Supported(Decode(file.value.header)) ==> Allocatable(Decode(file.value.header))
      ensures file.None? ==> r == Failure(CannotOpenFile)
      ensures file.Some? && Decode(file.value.header).magic != DAISO_MAGIC ==> r == Failure(BadMagic)
      ensures (file.Some? && Decode(file.value.header).magic == DAISO_MAGIC &&
               Decode(file.value.header).version != SUPPORTED_VERSION) ==> r == Failure(UnsupportedVersion)
      ensures file.Some? && Supported(Decode(file.value.header)) ==>
        (r.Failure? <==> Degenerate(ConfigOf(Decode(file.value.header)))) &&
        (r.Failure? ==> r.error == ZeroDimension)
      ensures r.Success? ==> file.Some? && Supported(Decode(file.value.header))
      ensures r.Success? ==> var m := r.value;
        fresh(m) && m.config == ConfigOf(Decode(file.value.header)) && m.Valid() &&
        WeightsLoaded(m.config, m.embedding.weights, m.layers, m.rmsFinal, m.finalWeights, file.value.words) &&
        m.BuffersZero()
    {
      if file.None? {
        return Failure(CannotOpenFile);
      }
      var h := Decode(file.value.header);
      if h.magic != DAISO_MAGIC {
        return Failure(BadMagic);
      }
      if h.version != SUPPORTED_VERSION {
        return Failure(UnsupportedVersion);
      }
      var a := Allocate(ConfigOf(h));
      if a.Failure? {
        return Failure(a.error);
      }
      var m := a.value;
      var s := new WeightStream(file.value.words);
      m.ReadWeights(s);
      return Success(m);
    }

    // -------------------------------------------------------------------------------------
    // forward and generate

    /** What the weight tensors hold. */
    ghost function Params(): Weights
      requires Valid()
      reads WeightArrays()
    {
      LayerArraysOwned();
      Weights(embedding.weights.data[..], LayerValues(layers), rmsFinal.weights.data[..], finalWeights.data[..])
    }

    /** What the caches and the activations hold. */
    ghost function Acts(): Activations
      reads x.data, xb.data, kCache.data, vCache.data, logits.data
    {
      ActsOf(x, xb, kCache, vCache, logits)
    }

    /** A valid model holds weights and buffers of the sizes its configuration gives them. */
    lemma Fitting()
      requires Valid()
      ensures Fits(config, Params()) && ActsFit(config, Acts())
    {
      var w := Params();
      forall l | 0 <= l < |layers|
        ensures BlockFits(config, w.blocks[l])
      {
        BlockOkFits(config, layers[l]);
      }
    }

    /** The blocks' buffers are those `owner` assigns to layers. */
    lemma LayerArraysOwned()
      requires Valid()
      ensures LayerArrays(layers) <= owner.Keys
    {
      forall a | a in LayerArrays(layers)
        ensures a in owner
      {
        var l :| 0 <= l < |layers| && a in BlockArrays(layers[l]);
        assert Owned(owner, layers[l], l);
      }
    }

    /** Block `l` is valid and apart from the caches and the activations. */
    lemma LayerFacts(l: nat)
      requires Valid() && l < |layers|
      ensures BlockOk(config, layers[l]) && BuffersApart(layers[l], x, xb, kCache, vCache, logits)
    {
      assert Owned(owner, layers[l], l);
    }

    /** The weights are unchanged while their buffers are. */
    twostate lemma ParamsKept()
      requires Valid() && unchanged(embedding.weights.data, rmsFinal.weights.data, finalWeights.data)
      requires forall a | a in owner :: unchanged(a)
      ensures Params() == old(Params())
    {
    }

    /** Every block is valid and apart from the caches and the activations. */
    lemma AllLayerFacts()
      requires Valid()
      ensures forall l :: 0 <= l < |layers| ==> BlockOk(config, layers[l])
      ensures forall l :: 0 <= l < |layers| ==> BuffersApart(layers[l], x, xb, kCache, vCache, logits)
    {
      forall l | 0 <= l < |layers|
        ensures BlockOk(config, layers[l]) && BuffersApart(layers[l], x, xb, kCache, vCache, logits)
      {
        LayerFacts(l);
      }
    }

    /** The loop of `forward` over the blocks, with weights `w`. */
    method RunBlocks(pos: nat, k: Kernels, ghost w: Weights)
      requires Valid() && pos < config.seqLen && Rotates(config) && w == Params()
      modifies x.data, xb.data, kCache.data, vCache.data
      ensures Fits(config, w) && ActsFit(config, old(Acts()))
      ensures unchanged(embedding.weights.data, rmsFinal.weights.data, finalWeights.data)
      ensures forall a | a in owner :: unchanged(a)
      ensures Acts() == Blocks(config, w, old(Acts()), pos, 0, k)
    {
      Fitting();
      AllLayerFacts();
      BlocksForward(config, layers, w, x, xb, kCache, vCache, logits, pos, k);
    }

    /** The end of `forward`: `rms_final` from `x` into `x`, then the logits, row `i` of the
        output projection times `x` for every token id `i`. */
    method RunHead(k: Kernels)
      requires Valid()
      modifies x.data, logits.data
      ensures Fits(config, old(Params())) && ActsFit(config, old(Acts()))
      ensures unchanged(embedding.weights.data, rmsFinal.weights.data, finalWeights.data)
      ensures forall a | a in owner :: unchanged(a)
      ensures Acts() == Head(config, old(Params()), old(Acts()), k)
    {
      Fitting();
      ghost var s, w := Acts(), Params();
      var st := rmsFinal.Forward(x, x, k);
      ghost var xf := RmsNormed(s.x, w.rmsFinal, k);
      MatVecInto(logits.data, finalWeights.data, config.vocab, config.dim, x.data);
      SpliceWhole(s.logits, MatVec(w.output, config.vocab, config.dim, xf));
    }

    /** The start of `forward`: the token goes into a one-element tensor, and the embedding
        copies its row of the table into `x`, or rejects a token outside the vocabulary
        without writing anything. */
    method Embed(token: int) returns (st: Outcome)
      requires Valid()
      modifies x.data
      ensures Fits(config, old(Params())) && ActsFit(config, old(Acts()))
      ensures unchanged(embedding.weights.data, rmsFinal.weights.data, finalWeights.data)
      ensures forall a | a in owner :: unchanged(a)
      ensures st.Fail? <==> !(0 <= FloatOfInt(token) < config.vocab)
      ensures st.Fail? ==> st.error == TokenOutOfRange && Acts() == old(Acts())
      ensures st.Pass? ==>
        Acts() == old(Acts()).(x := Row(old(Params()).embedding, FloatOfInt(token), config.vocab, config.dim))
    {
      Fitting();
      Product1([1]);
      var tokens := new Tensor.Init([1], 1);
      tokens.data[0] := FloatOfInt(token);
      st := embedding.Forward(x, tokens);
    }

    /** `forward(token_id, pos)`: the embedding row of the token into `x`, the blocks in
        order, then the final norm and the logits.  A token outside the vocabulary is rejected
        by the embedding, before anything is written. */
    method Forward(token: int, pos: nat, k: Kernels) returns (st: Outcome)
      requires Valid() && pos < config.seqLen && Rotates(config)
      modifies x.data, xb.data, kCache.data, vCache.data, logits.data
      ensures Fits(config, old(Params())) && ActsFit(config, old(Acts()))
      ensures unchanged(embedding.weights.data, rmsFinal.weights.data, finalWeights.data)
      ensures forall a | a in owner :: unchanged(a)
      ensures var r := Step(config, old(Params()), old(Acts()), token, pos, k);
        (st.Fail? <==> r.Failure?) && (st.Fail? ==> st.error == r.error && Acts() == old(Acts())) &&
        (st.Pass? ==> Acts() == r.value)
    {
      Fitting();
      ghost var s, w := Acts(), Params();
      st := Embed(token);
      ParamsKept();
      if st.Fail? {
        return;
      }
      label embedded:
      ghost var a := Acts();
      RunBlocks(pos, k, w);
      ParamsKept@embedded();
      label blocks:
      ghost var b := Acts();
      RunHead(k);
      ParamsKept@blocks();
      assert Step(config, w, s, token, pos, k) == Success(Head(config, w, b, k));
    }

    /** The prompt loop of `generate`: `prompt[i]` is fed at position `i`.  A token the
        embedding rejects aborts the loop. */
    method FeedPrompt(prompt: seq<int>, k: Kernels, ghost w: Weights, ghost f: ForwardPass) returns (st: Outcome)
      requires Valid() && |prompt| <= config.seqLen && w == Params()
      requires IsStep(config, w, k, f) && IsForward(config, f)
      modifies x.data, xb.data, kCache.data, vCache.data, logits.data
      ensures ActsFit(config, old(Acts()))
      ensures unchanged(embedding.weights.data, rmsFinal.weights.data, finalWeights.data)
      ensures forall a | a in owner :: unchanged(a)
      ensures var run := Prefill(config, f, old(Acts()), prompt, 0);
        st == run.outcome && Acts() == run.acts
    {
      Fitting();
      ghost var whole := Prefill(config, f, Acts(), prompt, 0);
      var pos := 0;
      while pos < |prompt|
        invariant pos <= |prompt| && Params() == w && ActsFit(config, Acts())
        invariant unchanged(embedding.weights.data, rmsFinal.weights.data, finalWeights.data)
        invariant forall a | a in owner :: unchanged(a)
        invariant whole == Prefill(config, f, Acts(), prompt[pos..], pos)
      {
        st := Forward(prompt[pos], pos, k);
        ParamsKept();
        if st.Fail? {
          return;
        }
        assert prompt[pos..][1..] == prompt[pos + 1..];
        pos := pos + 1;
      }
      st := Pass;
    }

    /** One pass of the generation loop, at a position before `seq_len` with `rest` tokens
        still to sample: feed `current` at `pos`, then let `sampler` pick the greedy choice
        `t`.  `whole` is the run of the loop, `tokens` what it has sampled so far. */
    method SampleStep(current: int, pos: nat, sampler: Sampler, k: Kernels, ghost w: Weights,
                      ghost f: ForwardPass, ghost rest: nat, ghost tokens: seq<int>, ghost whole: Run)
      returns (st: Outcome, t: int)
      requires Valid() && w == Params() && pos < config.seqLen && rest > 0
      requires IsStep(config, w, k, f) && IsForward(config, f) && ActsFit(config, Acts())
      requires sampler.vocabSize == config.vocab
      requires whole == SampledAfter(config, f, Acts(), current, pos, rest, tokens)
      modifies x.data, xb.data, kCache.data, vCache.data, logits.data
      ensures ActsFit(config, Acts())
      ensures unchanged(embedding.weights.data, rmsFinal.weights.data, finalWeights.data)
      ensures forall a | a in owner :: unchanged(a)
      ensures st.Fail? ==> whole == Run(st, tokens, Acts())
      ensures st.Pass? ==> whole == SampledAfter(config, f, Acts(), t, pos + 1, rest - 1, tokens + [t])
    {
      ghost var s := Acts();
      assert f(s, current, pos) == Step(config, w, s, current, pos, k);
      st := Forward(current, pos, k);
      t := 0;
      if st.Pass? {
        t := sampler.Sample(logits);
      }
    }

    /** The generation loop of `generate`: until `steps` tokens are sampled or the position
        reaches `seq_len`, feed `next` at `pos`, then let `sampler` pick the greedy choice,
        which is appended and fed next.  `f` is `forward` of this model. */
    method SampleTokens(next: int, pos: nat, n: nat, sampler: Sampler, k: Kernels, ghost w: Weights,
                        ghost f: ForwardPass)
      returns (st: Outcome, tokens: seq<int>)
      requires Valid() && w == Params() && IsStep(config, w, k, f) && IsForward(config, f)
      requires sampler.vocabSize == config.vocab
      modifies x.data, xb.data, kCache.data, vCache.data, logits.data
      ensures ActsFit(config, old(Acts()))
      ensures var run := SampledAfter(config, f, old(Acts()), next, pos, n, []);
        st == run.outcome && tokens == run.tokens && Acts() == run.acts
    {
      ghost var whole := SampledAfter(config, f, Acts(), next, pos, n, []);
      var current, currentPos := next, pos;
      tokens := [];
      var i := 0;
      while i < n
        invariant i <= n && currentPos == pos + i && Params() == w && ActsFit(config, Acts())
        invariant whole == SampledAfter(config, f, Acts(), current, currentPos, n - i, tokens)
      {
        if currentPos >= config.seqLen {
          break;
        }
        label step:
        st, current := SampleStep(current, currentPos, sampler, k, w, f, n - i, tokens, whole);
        ParamsKept@step();
        if st.Fail? {
          return;
        }
        tokens := tokens + [current];
        currentPos := currentPos + 1;
        i := i + 1;
      }
      st := Pass;
    }

    /** `generate(prompt_tokens, steps)`: the prompt fed from position 0, then up to `steps`
        greedy choices, each fed back at the next position, until the position reaches
        `seq_len`.  The result is the prompt followed by the tokens sampled; a token the
        embedding rejects aborts the whole call. */
    method Generate(prompt: seq<int>, steps: int, k: Kernels) returns (r: Result<seq<int>>)
      requires Valid() && Rotates(config) && |prompt| <= config.seqLen
      modifies x.data, xb.data, kCache.data, vCache.data, logits.data
      ensures Fits(config, old(Params())) && ActsFit(config, old(Acts()))
      ensures var run := Generated(config, StepOf(config, old(Params()), k), old(Acts()), prompt, steps);
        (r.Failure? <==> run.outcome.Fail?) && (r.Failure? ==> r.error == run.outcome.error) &&
        (r.Success? ==> r.value == prompt + run.tokens) && Acts() == run.acts
    {
      Fitting();
      ghost var w := Params();
      ghost var f := StepOf(config, w, k);
      StepOfIsStep(config, w, k);
      var sampler := new Sampler(config.vocab);
      var st := FeedPrompt(prompt, k, w, f);
      ParamsKept();
      if st.Fail? {
        return Failure(st.error);
      }
      var next := if |prompt| == 0 then 0 else prompt[|prompt| - 1];
      var n: nat := if steps < 0 then 0 else steps;
      ghost var s := Acts();
      ghost var run := Sampled(config, f, s, next, |prompt|, n);
      SampledAfterIsSampled(config, f, s, next, |prompt|, n, []);
      assert [] + run.tokens == run.tokens;
      var tokens;
      st, tokens := SampleTokens(next, |prompt|, n, sampler, k, w, f);
      assert st == run.outcome && tokens == run.tokens && Acts() == run.acts;
      if st.Fail? {
        return Failure(st.error);
      }
      return Success(prompt + tokens);
    }
  }
}
