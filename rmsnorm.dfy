/** Root-mean-square normalisation with a learned per-entry gain.  The scale 1 / sqrt(ss / n +
    1e-5) is a floating-point kernel; the model fixes what it is applied to. */
module Normalization {
  import opened Errors
  import opened Numerics
  import opened Tensors

  /** The output of `RMSNorm::forward` for input `x` and gains `w`: every entry scaled by the
      same factor, computed from the sum of squares of the whole input, then by its gain. */
  function RmsNormed(x: seq<int>, w: seq<int>, k: Kernels): (y: seq<int>)
    requires |w| == |x|
    ensures |y| == |x|
  {
    var scale := k.rmsScale(Dot(x, x), |x|);
    seq(|x|, i requires 0 <= i < |x| => w[i] * (scale * x[i]))
  }

  class RmsNorm {
    const weights: Tensor

    ghost predicate Valid()
    {
      weights.Valid() && |weights.shape| == 1
    }

    constructor Init(weights: Tensor)
      requires weights.Valid() && |weights.shape| == 1
      ensures this.weights == weights && Valid()
    {
      this.weights := weights;
    }

    /** `RMSNorm(dim)`: a zero gain vector of shape `[dim]`, which fails when `dim` is 0. */
    static method Create(dim: nat) returns (r: Result<RmsNorm>)
      ensures r.Failure? <==> dim == 0
      ensures r.Failure? ==> r.error == ZeroDimension
      ensures r.Success? ==> fresh(r.value) && fresh(r.value.weights) && fresh(r.value.weights.data)
      ensures r.Success? ==> r.value.Valid() && r.value.weights.shape == [dim]
      ensures r.Success? ==> r.value.weights.data[..] == Zeros(r.value.weights.size)
    {
      var t := Tensor.Create([dim]);
      if t.Failure? {
        return Failure(t.error);
      }
      var n := new RmsNorm.Init(t.value);
      return Success(n);
    }

    /** `forward(out, input)`: rejects unless input and output have the same shape and the
        input has as many entries as there are gains; otherwise `out` is the normalised input.
        `out` may be `input` itself (the sum of squares is complete before anything is
        written). */
    method Forward(out: Tensor, input: Tensor, k: Kernels) returns (st: Outcome)
      requires Valid() && out.Valid() && input.Valid()
      requires out.data != weights.data
      modifies out.data
      ensures st.Fail? <==> input.shape != out.shape || input.size != weights.size
      ensures st.Fail? ==> st.error == RmsNormShapeMismatch && out.data[..] == old(out.data[..])
      ensures st.Pass? ==> out.data[..] == RmsNormed(old(input.data[..]), weights.data[..], k)
    {
      if input.shape != out.shape || input.size != weights.size {
        return Fail(RmsNormShapeMismatch);
      }
      var size := input.size;
      ghost var x := input.data[..];
      var ss := SumOfSquares(input.data);
      var scale := k.rmsScale(ss, size);
      for i := 0 to size
        invariant forall q :: 0 <= q < i ==> out.data[q] == weights.data[q] * (scale * x[q])
        invariant forall q :: i <= q < size ==> input.data[q] == x[q]
      {
        out.data[i] := weights.data[i] * (scale * input.data[i]);
      }
      assert out.data[..] == RmsNormed(x, weights.data[..], k);
      return Pass;
    }
  }

  /** The first loop of `forward`: the sum of the squares of all entries. */
  method SumOfSquares(x: array<int>) returns (ss: int)
    ensures ss == Dot(x[..], x[..])
  {
    ss := 0;
    for i := 0 to x.Length
      invariant ss == Dot(x[..i], x[..i])
    {
      DotSnoc(x[..], x[..], i);
      ss := ss + x[i] * x[i];
    }
    assert x[..x.Length] == x[..];
  }
}
