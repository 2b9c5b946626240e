/** The SwiGLU feed-forward layer: `w2 @ (swish(w1 @ x) * (w3 @ x))`, where `w1` and `w3` are
    `hidden_dim x dim` and `w2` is `dim x hidden_dim`. */
module FeedForwardLayer {
  import opened Errors
  import opened Numerics
  import opened Tensors
  import opened Streams

  /** The gated activation: each hidden entry times its own logistic, times its gate. */
  function SwiGlu(h: seq<int>, gate: seq<int>, k: Kernels): (r: seq<int>)
    requires |gate| == |h|
    ensures |r| == |h|
  {
    seq(|h|, i requires 0 <= i < |h| => h[i] * Sigmoid(h[i], k) * gate[i])
  }

  /** The layer's output for the first `dim` entries of `x`. */
  function FeedForwardOut(w1: seq<int>, w2: seq<int>, w3: seq<int>, dim: nat, hidden: nat,
                          x: seq<int>, k: Kernels): (y: seq<int>)
    requires hidden * dim <= |w1| && hidden * dim <= |w3| && dim * hidden <= |w2| && dim <= |x|
    ensures |y| == dim
  {
    MatVec(w2, dim, hidden, SwiGlu(MatVec(w1, hidden, dim, x), MatVec(w3, hidden, dim, x), k))
  }

  /** A shape's first dimension is at most its element count. */
  lemma {:induction false} ProductFirst(s: seq<nat>)
    requires |s| > 0 && 0 !in s
    ensures s[0] <= Product(s)
  {
    if |s| > 1 {
      var init := s[..|s| - 1];
      assert init[0] == s[0] && 0 !in init;
      ProductFirst(init);
      MulMonotone(1, s[|s| - 1], Product(init));
    } else {
      Product1(s);
    }
  }

  class FeedForward {
    const w1: Tensor  // gate projection
    const w2: Tensor  // down projection
    const w3: Tensor  // up projection

    /** The three matrices with consistent shapes, in distinct buffers. */
    ghost predicate Valid()
    {
      w1.Valid() && w2.Valid() && w3.Valid() &&
      |w1.shape| == 2 && w2.shape == [w1.shape[1], w1.shape[0]] && w3.shape == w1.shape &&
      w1.size == w1.shape[0] * w1.shape[1] && w2.size == w1.shape[1] * w1.shape[0] &&
      w3.size == w1.shape[0] * w1.shape[1] &&
      w1.data != w2.data && w1.data != w3.data && w2.data != w3.data
    }

    constructor Init(w1: Tensor, w2: Tensor, w3: Tensor)
      requires w1.Valid() && w2.Valid() && w3.Valid()
      requires |w1.shape| == 2 && w2.shape == [w1.shape[1], w1.shape[0]] && w3.shape == w1.shape
      requires w1.data != w2.data && w1.data != w3.data && w2.data != w3.data
      ensures this.w1 == w1 && this.w2 == w2 && this.w3 == w3 && Valid()
    {
      this.w1, this.w2, this.w3 := w1, w2, w3;
      new;
      Product2(w1.shape);
      Product2(w2.shape);
      Product2(w3.shape);
    }

    /** `FeedForward(dim, hidden_dim)`: zero matrices `w1: [hidden_dim, dim]`,
        `w2: [dim, hidden_dim]`, `w3: [hidden_dim, dim]`; fails when either dimension is 0. */
    static method Create(dim: nat, hidden: nat) returns (r: Result<FeedForward>)
      ensures r.Failure? <==> dim == 0 || hidden == 0
      ensures r.Failure? ==> r.error == ZeroDimension
      ensures r.Success? ==> fresh(r.value) && fresh(r.value.w1) && fresh(r.value.w2) && fresh(r.value.w3)
      ensures r.Success? ==> fresh(r.value.w1.data) && fresh(r.value.w2.data) && fresh(r.value.w3.data)
      ensures r.Success? ==> r.value.Valid() && r.value.w1.shape == [hidden, dim]
      ensures r.Success? ==> r.value.w1.data[..] == Zeros(r.value.w1.size) &&
                             r.value.w2.data[..] == Zeros(r.value.w2.size) && r.value.w3.data[..] == Zeros(r.value.w3.size)
    {
      var t1 := Tensor.Create([hidden, dim]);
      if t1.Failure? {
        return Failure(t1.error);
      }
      // The other two have the same, non-zero, dimensions.
      var t2 := Tensor.Create([dim, hidden]);
      var t3 := Tensor.Create([hidden, dim]);
      var f := new FeedForward.Init(t1.value, t2.value, t3.value);
      return Success(f);
    }

    /** `read_weights`: `w1`, `w2`, `w3`, in that order, each read in full from the stream. */
    method ReadWeights(s: WeightStream)
      requires Valid() && s.Valid()
      modifies s, w1.data, w2.data, w3.data
      ensures s.Valid() && Valid()
      ensures var c0 := old(s.cursor);
              var c1 := Next(s.words, c0, w1.size);
              var c2 := Next(s.words, c1, w2.size);
              w1.data[..] == Splice(old(w1.data[..]), 0, Chunk(s.words, c0, w1.size)) &&
              w2.data[..] == Splice(old(w2.data[..]), 0, Chunk(s.words, c1, w2.size)) &&
              w3.data[..] == Splice(old(w3.data[..]), 0, Chunk(s.words, c2, w3.size)) &&
              s.cursor == Next(s.words, c2, w3.size)
    {
      s.ReadTensor(w1);
      s.ReadTensor(w2);
      s.ReadTensor(w3);
    }

    /** `forward(out, input)`: with `dim` the input's first dimension and `hidden_dim` the rows
        of `w1`, the first `dim` entries of `out` become the layer's output.  Nothing is
        checked: the input may not be wider than the layer and `out` must hold `dim` entries.
        `out` may be `input` itself (the input is fully read before `out` is written). */
    method Forward(out: Tensor, input: Tensor, k: Kernels)
      requires Valid() && out.Valid() && input.Valid()
      requires |input.shape| > 0 && input.shape[0] <= w1.shape[1] && input.shape[0] <= out.size
      requires out.data != w1.data && out.data != w2.data && out.data != w3.data
      modifies out.data
      ensures input.shape[0] <= input.size
      ensures out.data[..] == Splice(old(out.data[..]), 0,
        FeedForwardOut(w1.data[..], w2.data[..], w3.data[..], input.shape[0], w1.shape[0],
                       old(input.data[..]), k))
    {
      var dim := input.shape[0];
      var hidden := w1.shape[0];
      ProductPositive(input.shape);
      ProductFirst(input.shape);
      MulMonotone(dim, w1.shape[1], hidden);
      ghost var x := input.data[..];
      var h := new int[hidden];
      var gate := new int[hidden];
      MatVecInto(h, w1.data, hidden, dim, input.data);
      MatVecInto(gate, w3.data, hidden, dim, input.data);
      assert h[..] == MatVec(w1.data[..], hidden, dim, x);
      assert gate[..] == MatVec(w3.data[..], hidden, dim, x);
      ApplySwiGlu(h, gate, k);
      MatVecInto(out.data, w2.data, dim, hidden, h);
    }
  }

  /** The activation loop of `forward`: each hidden entry times its logistic, times its gate,
      written back over the hidden vector. */
  method ApplySwiGlu(h: array<int>, gate: array<int>, k: Kernels)
    requires gate.Length == h.Length && gate != h
    modifies h
    ensures h[..] == SwiGlu(old(h[..]), gate[..], k)
  {
    ghost var h0 := h[..];
    for i := 0 to h.Length
      invariant forall q :: 0 <= q < i ==> h[q] == h0[q] * Sigmoid(h0[q], k) * gate[q]
      invariant forall q :: i <= q < h.Length ==> h[q] == h0[q]
    {
      var val := h[i];
      val := val * k.div(1, 1 + k.exp(-val));  // swish
      val := val * gate[i];
      h[i] := val;
    }
    assert h[..] == SwiGlu(h0, gate[..], k);
  }
}
