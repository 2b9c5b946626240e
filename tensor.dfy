/** The tensor abstraction of tensor.cpp: a shape, its element count, and a flat row-major
    buffer that the free functions write in place. */
module Tensors {
  import opened Errors
  import opened Numerics

  /** `size_t` arithmetic wraps modulo 2^64. */
  const SIZE_T_MODULUS: nat := 0x1_0000_0000_0000_0000

  /** The element count exactly as the constructor's loop computes it in `size_t`. */
  function WrappedSize(s: seq<nat>): (r: nat)
    ensures r < SIZE_T_MODULUS || s == []
  {
    if s == [] then 1 else (WrappedSize(s[..|s| - 1]) * s[|s| - 1]) % SIZE_T_MODULUS
  }

  /** For a shape whose true element count fits in `size_t`, the wrapped count is exact. */
  lemma {:induction false} WrappedSizeExact(s: seq<nat>)
    requires Product(s) < SIZE_T_MODULUS
    ensures WrappedSize(s) == Product(s)
  {
    if s != [] {
      var init, last := s[..|s| - 1], s[|s| - 1];
      if last > 0 {
        MulMonotone(1, last, Product(init));
        WrappedSizeExact(init);
      }
    }
  }

  /** A shape of two 2^32-wide dimensions: its true element count is 2^64, but the wrapped
      count is 0, so the constructor allocates an empty buffer for it. */
  lemma WrappedSizeUndersized()
    ensures Product([0x1_0000_0000, 0x1_0000_0000]) == SIZE_T_MODULUS
    ensures WrappedSize([0x1_0000_0000, 0x1_0000_0000]) == 0
  {
    var s: seq<nat> := [0x1_0000_0000, 0x1_0000_0000];
    Product2(s);
    assert s[..1] == [0x1_0000_0000];
    assert s[..1][..0] == [];
  }

  /** `reshape` compares the wrapped count too: a size-1 tensor reshaped to two dimensions of
      2^63 + 1 passes the check, since (2^63 + 1)^2 is 1 modulo 2^64, although the shape
      describes far more than one element. */
  lemma ReshapeWrapAccepted()
    ensures Product([0x8000_0000_0000_0001, 0x8000_0000_0000_0001]) > 1
    ensures WrappedSize([0x8000_0000_0000_0001, 0x8000_0000_0000_0001]) == 1
  {
    var s: seq<nat> := [0x8000_0000_0000_0001, 0x8000_0000_0000_0001];
    Product2(s);
    assert s[..1] == [0x8000_0000_0000_0001];
    assert s[..1][..0] == [];
  }

  class Tensor {
    const shape: seq<nat>
    const size: nat
    const data: array<int>

    /** The buffer holds exactly the product of the shape, which is positive. */
    ghost predicate Valid()
    {
      size == Product(shape) && size > 0 && data.Length == size
    }

    constructor Init(shape: seq<nat>, size: nat)
      requires size == Product(shape) && size > 0
      ensures Valid() && this.shape == shape && this.size == size
      ensures fresh(data) && data[..] == Zeros(size)
    {
      this.shape := shape;
      this.size := size;
      data := new int[size](_ => 0);
      new;
      assert data[..] == Zeros(size);
    }

    /** A tensor of shape `shape` over the existing buffer `data`. */
    constructor View(shape: seq<nat>, size: nat, data: array<int>)
      requires size == Product(shape) && size > 0 && data.Length == size
      ensures Valid() && this.shape == shape && this.size == size && this.data == data
    {
      this.shape := shape;
      this.size := size;
      this.data := data;
    }

    /** `Tensor(shape)`: rejects a zero dimension; otherwise the size is the product of the
        shape and the buffer holds that many zeros. */
    static method Create(shape: seq<nat>) returns (r: Result<Tensor>)
      ensures r.Failure? <==> 0 in shape
      ensures r.Failure? ==> r.error == ZeroDimension
      ensures r.Success? ==> fresh(r.value) && fresh(r.value.data) && r.value.Valid()
      ensures r.Success? ==> r.value.shape == shape && r.value.size == Product(shape)
      ensures r.Success? ==> r.value.data[..] == Zeros(Product(shape))
    {
      var size: nat := 1;
      for i := 0 to |shape|
        invariant size == Product(shape[..i])
        invariant 0 !in shape[..i]
      {
        if shape[i] == 0 {
          return Failure(ZeroDimension);
        }
        assert shape[..i + 1] == shape[..i] + [shape[i]];
        size := size * shape[i];
      }
      assert shape[..|shape|] == shape;
      ProductPositive(shape);
      var t := new Tensor.Init(shape, size);
      return Success(t);
    }

    /** `reshape`: succeeds exactly when the new shape has the same element count, giving the
        tensor that shape over the same buffer; the size and the buffer's contents are kept. */
    method Reshape(newShape: seq<nat>) returns (r: Result<Tensor>)
      requires Valid()
      ensures r.Failure? <==> Product(newShape) != size
      ensures r.Failure? ==> r.error == ReshapeSizeMismatch
      ensures r.Success? ==> fresh(r.value) && r.value.Valid() && r.value.shape == newShape
      ensures r.Success? ==> r.value.size == size && r.value.data == data
    {
      var newSize: nat := 1;
      for i := 0 to |newShape|
        invariant newSize == Product(newShape[..i])
      {
        assert newShape[..i + 1] == newShape[..i] + [newShape[i]];
        newSize := newSize * newShape[i];
      }
      assert newShape[..|newShape|] == newShape;
      if newSize != size {
        return Failure(ReshapeSizeMismatch);
      }
      var v := new Tensor.View(newShape, size, data);
      return Success(v);
    }

    /** The flat index `at(i)` addresses; a tensor of another rank is rejected. */
    function Offset1(i: nat): (r: Result<nat>)
      ensures r.Failure? <==> |shape| != 1
      ensures r.Failure? ==> r.error == RankMismatch(1)
    {
      if |shape| != 1 then Failure(RankMismatch(1)) else Success(i)
    }

    /** The flat index `at(i, j)` addresses, row-major; a tensor of another rank is rejected. */
    function Offset2(i: nat, j: nat): (r: Result<nat>)
      ensures r.Failure? <==> |shape| != 2
      ensures r.Failure? ==> r.error == RankMismatch(2)
    {
      if |shape| != 2 then Failure(RankMismatch(2)) else Success(i * shape[1] + j)
    }

    /** The flat index `at(i, j, k)` addresses, row-major; a tensor of another rank is rejected. */
    function Offset3(i: nat, j: nat, k: nat): (r: Result<nat>)
      ensures r.Failure? <==> |shape| != 3
      ensures r.Failure? ==> r.error == RankMismatch(3)
    {
      if |shape| != 3 then Failure(RankMismatch(3))
      else Success(i * shape[1] * shape[2] + j * shape[2] + k)
    }

    /** An in-bounds 1-D index addresses an element of the buffer. */
    lemma Offset1InBounds(i: nat)
      requires Valid() && |shape| == 1 && i < shape[0]
      ensures Offset1(i).Success? && Offset1(i).value < size
    {
      Product1(shape);
    }

    /** An in-bounds 2-D index addresses an element of the buffer, and the index is recovered
        from the offset, so distinct in-bounds indices address distinct elements. */
    lemma Offset2InBounds(i: nat, j: nat)
      requires Valid() && |shape| == 2 && i < shape[0] && j < shape[1]
      ensures Offset2(i, j).Success? && Offset2(i, j).value < size
      ensures Offset2(i, j).value / shape[1] == i && Offset2(i, j).value % shape[1] == j
    {
      Product2(shape);
      RowMajor2(i, j, shape[0], shape[1]);
    }

    /** An in-bounds 3-D index addresses an element of the buffer, and the index is recovered
        from the offset. */
    lemma Offset3InBounds(i: nat, j: nat, k: nat)
      requires Valid() && |shape| == 3 && i < shape[0] && j < shape[1] && k < shape[2]
      ensures Offset3(i, j, k).Success? && Offset3(i, j, k).value < size
      ensures Offset3(i, j, k).value / (shape[1] * shape[2]) == i
      ensures Offset3(i, j, k).value % (shape[1] * shape[2]) / shape[2] == j
      ensures Offset3(i, j, k).value % shape[2] == k
    {
      Product3(shape);
      RowMajor3(i, j, k, shape[0], shape[1], shape[2]);
    }

    /** `at(i)` read: the element at Offset1.  There is no bounds check, so the index must be
        in bounds when the rank matches. */
    function At1(i: nat): (r: Result<int>)
      reads data
      requires Valid()
      requires |shape| == 1 ==> i < shape[0]
      ensures r.Failure? <==> |shape| != 1
      ensures r.Success? ==> Offset1(i).Success? && r.value == data[Offset1(i).value]
    {
      if |shape| != 1 then Failure(RankMismatch(1))
      else Offset1InBounds(i); Success(data[i])
    }

    /** `at(i, j)` read: the element at Offset2. */
    function At2(i: nat, j: nat): (r: Result<int>)
      reads data
      requires Valid()
      requires |shape| == 2 ==> i < shape[0] && j < shape[1]
      ensures r.Failure? <==> |shape| != 2
      ensures r.Success? ==> Offset2(i, j).Success? && Offset2(i, j).value < data.Length
      ensures r.Success? ==> r.value == data[Offset2(i, j).value]
    {
      if |shape| != 2 then Failure(RankMismatch(2))
      else Offset2InBounds(i, j); Success(data[Offset2(i, j).value])
    }

    /** `at(i, j, k)` read: the element at Offset3. */
    function At3(i: nat, j: nat, k: nat): (r: Result<int>)
      reads data
      requires Valid()
      requires |shape| == 3 ==> i < shape[0] && j < shape[1] && k < shape[2]
      ensures r.Failure? <==> |shape| != 3
      ensures r.Success? ==> Offset3(i, j, k).Success? && Offset3(i, j, k).value < data.Length
      ensures r.Success? ==> r.value == data[Offset3(i, j, k).value]
    {
      if |shape| != 3 then Failure(RankMismatch(3))
      else Offset3InBounds(i, j, k); Success(data[Offset3(i, j, k).value])
    }
  }

  /** Row `i` of the `n x p` row-major matrix `a`. */
  function Row(a: seq<int>, i: nat, n: nat, p: nat): (r: seq<int>)
    requires i < n && |a| == n * p
    ensures |r| == p
  {
    RowEnd(i, n, p);
    a[i * p .. i * p + p]
  }

  /** Column `j` of the `p x m` row-major matrix `b`. */
  function Column(b: seq<int>, j: nat, p: nat, m: nat): (r: seq<int>)
    requires j < m && |b| == p * m
    ensures |r| == p
  {
    seq(p, k requires 0 <= k < p => RowMajorBound(k, j, p, m); b[k * m + j])
  }

  /** The reference product of an `n x p` and a `p x m` matrix, row-major:
      entry (i, j) sits at `i * m + j` and is the sum over k of a[i][k] * b[k][j]. */
  function MatMul(a: seq<int>, b: seq<int>, n: nat, p: nat, m: nat): (r: seq<int>)
    requires |a| == n * p && |b| == p * m
    ensures |r| == n * m
  {
    seq(n * m, q requires 0 <= q < n * m => MatMulEntry(a, b, n, p, m, q))
  }

  /** Entry (i, j) of the reference product sits at `i * m + j` and is row i of `a` times
      column j of `b`. */
  lemma MatMulAt(a: seq<int>, b: seq<int>, n: nat, p: nat, m: nat, i: nat, j: nat)
    requires |a| == n * p && |b| == p * m && i < n && j < m
    ensures i * m + j < n * m
    ensures MatMul(a, b, n, p, m)[i * m + j] == Dot(Row(a, i, n, p), Column(b, j, p, m))
  {
    RowMajor2(i, j, n, m);
  }

  function MatMulEntry(a: seq<int>, b: seq<int>, n: nat, p: nat, m: nat, q: nat): int
    requires |a| == n * p && |b| == p * m && q < n * m
  {
    QuotientBound(q, n, m);
    Dot(Row(a, q / m, n, p), Column(b, q % m, p, m))
  }

  lemma QuotientBound(q: nat, n: nat, m: nat)
    requires q < n * m
    ensures m > 0 && q / m < n
  {
    if q / m >= n {
      MulMonotone(n, q / m, m);
      assert false;
    }
  }

  /** The shape guard of `matmul`: three 2-D tensors `out = a * b` of matching sizes. */
  predicate MatmulShapesOk(out: seq<nat>, a: seq<nat>, b: seq<nat>)
  {
    |a| == 2 && |b| == 2 && |out| == 2 && a[1] == b[0] && out[0] == a[0] && out[1] == b[1]
  }

  /** `matmul(out, a, b)`: rejects anything but 2-D tensors of matching shapes (rank first);
      otherwise writes the reference product into `out`.  `out` must not share storage with
      `a` or `b`: the loop would read entries it already overwrote. */
  method Matmul(out: Tensor, a: Tensor, b: Tensor) returns (st: Outcome)
    requires out.Valid() && a.Valid() && b.Valid()
    requires out.data != a.data && out.data != b.data
    modifies out.data
    ensures st.Fail? <==> !MatmulShapesOk(out.shape, a.shape, b.shape)
    ensures st.Fail? && (|a.shape| != 2 || |b.shape| != 2 || |out.shape| != 2) ==>
      st.error == MatmulNot2D
    ensures st.Fail? && |a.shape| == 2 && |b.shape| == 2 && |out.shape| == 2 ==>
      st.error == MatmulShapeMismatch
    ensures st.Fail? ==> out.data[..] == old(out.data[..])
    ensures st.Pass? ==> a.size == a.shape[0] * a.shape[1] && b.size == b.shape[0] * b.shape[1]
    ensures st.Pass? ==>
      out.data[..] == MatMul(a.data[..], b.data[..], a.shape[0], a.shape[1], b.shape[1])
  {
    if |a.shape| != 2 || |b.shape| != 2 || |out.shape| != 2 {
      return Fail(MatmulNot2D);
    }
    if a.shape[1] != b.shape[0] || out.shape[0] != a.shape[0] || out.shape[1] != b.shape[1] {
      return Fail(MatmulShapeMismatch);
    }
    var n, p, m := a.shape[0], a.shape[1], b.shape[1];
    Product2(a.shape);
    Product2(b.shape);
    Product2(out.shape);
    MatmulLoops(out.data, a.data, b.data, n, p, m);
    return Pass;
  }

  /** The two outer loops of `matmul` over row-major buffers: entry (i, j) is written once, in
      row order, with the dot product of row i of `a` and column j of `b`. */
  method MatmulLoops(out: array<int>, a: array<int>, b: array<int>, n: nat, p: nat, m: nat)
    requires a.Length == n * p && b.Length == p * m && out.Length == n * m
    requires out != a && out != b
    modifies out
    ensures out[..] == MatMul(a[..], b[..], n, p, m)
  {
    ghost var spec := MatMul(a[..], b[..], n, p, m);
    for i := 0 to n
      invariant i * m <= n * m
      invariant forall q :: 0 <= q < i * m ==> out[q] == spec[q]
    {
      RowEnd(i, n, m);
      MatmulRow(out, a, b, n, p, m, i);
      assert (i + 1) * m == i * m + m;
    }
    assert out[..] == spec;
  }

  /** The middle loop of `matmul`: row i of `out`, entry by entry. */
  method MatmulRow(out: array<int>, a: array<int>, b: array<int>, n: nat, p: nat, m: nat, i: nat)
    requires a.Length == n * p && b.Length == p * m && out.Length == n * m && i < n
    requires i * m + m <= n * m
    requires out != a && out != b
    modifies out
    ensures forall q :: 0 <= q < i * m ==> out[q] == old(out[q])
    ensures forall q :: i * m <= q < i * m + m ==> out[q] == MatMul(a[..], b[..], n, p, m)[q]
  {
    var row := i * m;
    for j := 0 to m
      invariant forall q :: 0 <= q < row ==> out[q] == old(out[q])
      invariant forall q :: row <= q < row + j ==> out[q] == MatMul(a[..], b[..], n, p, m)[q]
    {
      var sum := RowColumnDot(a, b, n, p, m, i, j);
      MatMulAt(a[..], b[..], n, p, m, i, j);
      out[row + j] := sum;  // out.at(i, j)
    }
  }

  /** The innermost loop of `matmul`: the sum over k of a.at(i, k) * b.at(k, j). */
  method RowColumnDot(a: array<int>, b: array<int>, n: nat, p: nat, m: nat, i: nat, j: nat)
    returns (sum: int)
    requires a.Length == n * p && b.Length == p * m && i < n && j < m
    ensures sum == Dot(Row(a[..], i, n, p), Column(b[..], j, p, m))
  {
    sum := 0;
    for k := 0 to p
      invariant sum == Dot(Row(a[..], i, n, p)[..k], Column(b[..], j, p, m)[..k])
    {
      RowColumnStep(a[..], b[..], n, p, m, i, j, k);
      sum := sum + a[i * p + k] * b[k * m + j];
    }
    assert Row(a[..], i, n, p)[..p] == Row(a[..], i, n, p);
    assert Column(b[..], j, p, m)[..p] == Column(b[..], j, p, m);
  }

  /** One step of the innermost loop adds a.at(i, k) * b.at(k, j) to the partial dot product. */
  lemma RowColumnStep(a: seq<int>, b: seq<int>, n: nat, p: nat, m: nat, i: nat, j: nat, k: nat)
    requires |a| == n * p && |b| == p * m && i < n && j < m && k < p
    ensures i * p + k < |a| && k * m + j < |b|
    ensures Dot(Row(a, i, n, p)[..k + 1], Column(b, j, p, m)[..k + 1]) ==
      Dot(Row(a, i, n, p)[..k], Column(b, j, p, m)[..k]) + a[i * p + k] * b[k * m + j]
  {
    var r, c := Row(a, i, n, p), Column(b, j, p, m);
    RowMajorBound(i, k, n, p);
    RowMajorBound(k, j, p, m);
    RowEnd(i, n, p);
    SliceAt(a, i * p, i * p + p, k);
    assert c[k] == b[k * m + j];
    DotSnoc(r, c, k);
  }

  /** `add(out, a, b)`: rejects unless all three shapes are identical; otherwise
      `out[i] = a[i] + b[i]` for every i.  `out` may be `a` or `b` itself. */
  method Add(out: Tensor, a: Tensor, b: Tensor) returns (st: Outcome)
    requires out.Valid() && a.Valid() && b.Valid()
    modifies out.data
    ensures st.Fail? <==> a.shape != b.shape || a.shape != out.shape
    ensures st.Fail? ==> st.error == AddShapeMismatch && out.data[..] == old(out.data[..])
    ensures st.Pass? ==> out.data[..] == AddSeq(old(a.data[..]), old(b.data[..]))
  {
    if a.shape != b.shape || a.shape != out.shape {
      return Fail(AddShapeMismatch);
    }
    ghost var A, B := a.data[..], b.data[..];
    for i := 0 to a.size
      invariant forall q :: 0 <= q < i ==> out.data[q] == A[q] + B[q]
      invariant forall q :: i <= q < a.size ==> a.data[q] == A[q] && b.data[q] == B[q]
    {
      out.data[i] := a.data[i] + b.data[i];
    }
    assert out.data[..] == AddSeq(A, B);
    return Pass;
  }

  /** `element_wise_mul(out, a, b)`: rejects unless all three shapes are identical; otherwise
      `out[i] = a[i] * b[i]` for every i.  `out` may be `a` or `b` itself. */
  method ElementWiseMul(out: Tensor, a: Tensor, b: Tensor) returns (st: Outcome)
    requires out.Valid() && a.Valid() && b.Valid()
    modifies out.data
    ensures st.Fail? <==> a.shape != b.shape || a.shape != out.shape
    ensures st.Fail? ==> st.error == MulShapeMismatch && out.data[..] == old(out.data[..])
    ensures st.Pass? ==> out.data[..] == MulSeq(old(a.data[..]), old(b.data[..]))
  {
    if a.shape != b.shape || a.shape != out.shape {
      return Fail(MulShapeMismatch);
    }
    ghost var A, B := a.data[..], b.data[..];
    for i := 0 to a.size
      invariant forall q :: 0 <= q < i ==> out.data[q] == A[q] * B[q]
      invariant forall q :: i <= q < a.size ==> a.data[q] == A[q] && b.data[q] == B[q]
    {
      out.data[i] := a.data[i] * b.data[i];
    }
    assert out.data[..] == MulSeq(A, B);
    return Pass;
  }

  /** The logistic function applied to every element. */
  function SigmoidSeq(s: seq<int>, k: Kernels): (r: seq<int>)
    ensures |r| == |s|
  {
    seq(|s|, i requires 0 <= i < |s| => Sigmoid(s[i], k))
  }

  /** `sigmoid(out, a)`: rejects a shape mismatch; otherwise applies the logistic function to
      every element.  `out` may be `a` itself. */
  method SigmoidInto(out: Tensor, a: Tensor, k: Kernels) returns (st: Outcome)
    requires out.Valid() && a.Valid()
    modifies out.data
    ensures st.Fail? <==> a.shape != out.shape
    ensures st.Fail? ==> st.error == SigmoidShapeMismatch && out.data[..] == old(out.data[..])
    ensures st.Pass? ==> out.data[..] == SigmoidSeq(old(a.data[..]), k)
  {
    if a.shape != out.shape {
      return Fail(SigmoidShapeMismatch);
    }
    ghost var A := a.data[..];
    for i := 0 to a.size
      invariant forall q :: 0 <= q < i ==> out.data[q] == Sigmoid(A[q], k)
      invariant forall q :: i <= q < a.size ==> a.data[q] == A[q]
    {
      out.data[i] := k.div(1, 1 + k.exp(-a.data[i]));
    }
    assert out.data[..] == SigmoidSeq(A, k);
    return Pass;
  }

  /** Every element divided by `d`. */
  function DivideAll(s: seq<int>, d: int, k: Kernels): (r: seq<int>)
    ensures |r| == |s|
  {
    seq(|s|, j requires 0 <= j < |s| => k.div(s[j], d))
  }

  /** One softmax row computed in place, as both `softmax` and the attention scores do it:
      the maximum, then the shifted exponentials and their sum, then the division.
      `dst` may be `src` itself; nothing outside the row is written. */
  method SoftmaxSlice(dst: array<int>, src: array<int>, base: nat, len: nat, k: Kernels)
    requires 0 < len && base + len <= src.Length && base + len <= dst.Length
    modifies dst
    ensures dst[base .. base + len] == SoftmaxRow(old(src[base .. base + len]), k)
    ensures dst[.. base] == old(dst[.. base]) && dst[base + len ..] == old(dst[base + len ..])
  {
    ghost var r := src[base .. base + len];
    var m := RowMax(src, base, len);
    var total := ExpRow(dst, src, base, len, m, k);
    ghost var e := dst[base .. base + len];
    DivideRow(dst, base, len, total, k);
    assert dst[base .. base + len] == SoftmaxRow(r, k);
  }

  /** The second loop of a softmax row: the shifted exponentials, written over the row, and
      their running sum. */
  method ExpRow(dst: array<int>, src: array<int>, base: nat, len: nat, m: int, k: Kernels)
    returns (total: int)
    requires base + len <= src.Length && base + len <= dst.Length
    modifies dst
    ensures dst[base .. base + len] == Exps(old(src[base .. base + len]), m, k)
    ensures total == Sum(dst[base .. base + len])
    ensures dst[.. base] == old(dst[.. base]) && dst[base + len ..] == old(dst[base + len ..])
  {
    ghost var r := src[base .. base + len];
    ghost var e := Exps(r, m, k);
    total := 0;
    for t := 0 to len
      invariant total == Sum(e[..t])
      invariant forall j :: 0 <= j < t ==> dst[base + j] == e[j]
      invariant forall j :: t <= j < len ==> src[base + j] == r[j]
      invariant forall q :: 0 <= q < dst.Length && (q < base || base + len <= q) ==> dst[q] == old(dst[q])
    {
      SumSnoc(e, t);
      dst[base + t] := k.exp(src[base + t] - m);
      total := total + dst[base + t];
    }
    assert e[..len] == e;
    assert dst[base .. base + len] == e;
    assert dst[.. base] == old(dst[.. base]);
    assert dst[base + len ..] == old(dst[base + len ..]);
  }

  /** The third loop of a softmax row: every entry divided by the sum. */
  method DivideRow(dst: array<int>, base: nat, len: nat, total: int, k: Kernels)
    requires base + len <= dst.Length
    modifies dst
    ensures dst[base .. base + len] == DivideAll(old(dst[base .. base + len]), total, k)
    ensures dst[.. base] == old(dst[.. base]) && dst[base + len ..] == old(dst[base + len ..])
  {
    ghost var r := dst[base .. base + len];
    for t := 0 to len
      invariant forall j :: 0 <= j < t ==> dst[base + j] == k.div(r[j], total)
      invariant forall j :: t <= j < len ==> dst[base + j] == r[j]
      invariant dst[.. base] == old(dst[.. base]) && dst[base + len ..] == old(dst[base + len ..])
    {
      dst[base + t] := k.div(dst[base + t], total);
    }
    assert dst[base .. base + len] == DivideAll(r, total, k);
  }

  /** The first loop of a softmax row: the running maximum, starting from the first entry and
      replaced only by a strictly larger one. */
  method RowMax(src: array<int>, base: nat, len: nat) returns (m: int)
    requires 0 < len && base + len <= src.Length
    ensures m == Max(src[base .. base + len])
  {
    ghost var r := src[base .. base + len];
    m := src[base];
    for t := 1 to len
      invariant m == Max(r[..t])
    {
      MaxSnoc(r, t);
      if src[base + t] > m {
        m := src[base + t];
      }
    }
    assert r[..len] == r;
  }

  /** `softmax(out, a)`: rejects a shape mismatch; otherwise the buffer is `size / last_dim`
      rows of `last_dim` entries, and each row of `out` is the softmax of the same row of `a`
      alone.  `out` may be `a` itself.  The source reads `shape().back()`, which a rank-0 tensor
      does not have. */
  method Softmax(out: Tensor, a: Tensor, k: Kernels) returns (st: Outcome)
    requires out.Valid() && a.Valid()
    requires a.shape == out.shape ==> |a.shape| > 0
    modifies out.data
    ensures st.Fail? <==> a.shape != out.shape
    ensures st.Fail? ==> st.error == SoftmaxShapeMismatch && out.data[..] == old(out.data[..])
    ensures st.Pass? ==> RowsOf(a.size, a.shape[|a.shape| - 1])
    ensures st.Pass? ==> Rowwise(out.data[..], old(a.data[..]), a.size / a.shape[|a.shape| - 1],
      a.shape[|a.shape| - 1], k)
  {
    if a.shape != out.shape {
      return Fail(SoftmaxShapeMismatch);
    }
    var lastDim := a.shape[|a.shape| - 1];
    ProductPositive(a.shape);
    var outerSize := a.size / lastDim;
    assert a.size == outerSize * lastDim by {
      ProductLast(a.shape);
    }
    SoftmaxLoop(out.data, a.data, outerSize, lastDim, k);
    return Pass;
  }

  /** The row loop of `softmax` over row-major buffers of `rows` rows of `len` entries: row i
      starts at `i * len`.  `out` may be `a`. */
  method SoftmaxLoop(out: array<int>, a: array<int>, rows: nat, len: nat, k: Kernels)
    requires 0 < len && a.Length == rows * len && out.Length == rows * len
    modifies out
    ensures Rowwise(out[..], old(a[..]), rows, len, k)
  {
    ghost var A := a[..];
    var base := 0;
    for i := 0 to rows
      invariant 0 <= base && base == i * len
      invariant forall r :: 0 <= r < i ==>
        Row(out[..], r, rows, len) == SoftmaxRow(Row(A, r, rows, len), k)
      invariant base <= a.Length && a[base ..] == A[base ..]
    {
      RowEnd(i, rows, len);
      SoftmaxNextRow(out, a, rows, len, i, base, k, A);
      assert base + len == (i + 1) * len;
      base := base + len;
    }
  }

  /** The body of the row loop: row `i` of the output is the softmax of row `i` of the input,
      which is still as it was. */
  method SoftmaxNextRow(out: array<int>, a: array<int>, rows: nat, len: nat, i: nat, base: nat, k: Kernels,
                        ghost A: seq<int>)
    requires 0 < len && a.Length == rows * len && out.Length == rows * len && |A| == rows * len
    requires i < rows && base == i * len && base + len <= rows * len
    requires forall r :: 0 <= r < i ==> Row(out[..], r, rows, len) == SoftmaxRow(Row(A, r, rows, len), k)
    requires a[base ..] == A[base ..]
    modifies out
    ensures forall r :: 0 <= r < i + 1 ==> Row(out[..], r, rows, len) == SoftmaxRow(Row(A, r, rows, len), k)
    ensures a[base + len ..] == A[base + len ..]
  {
    ghost var before, src := out[..], a[..];
    SoftmaxSlice(out, a, base, len, k);  // a.data() + i * last_dim, out.data() + i * last_dim
    SoftmaxRowStep(before, out[..], A, src, rows, len, i, base, k);
    SuffixAfterRow(src, a[..], A, base, len);
  }

  /** Every row of `o` is the softmax of the same row of `s`. */
  predicate Rowwise(o: seq<int>, s: seq<int>, rows: nat, len: nat, k: Kernels)
    requires 0 < len && |o| == |s| == rows * len
  {
    forall r :: 0 <= r < rows ==> Row(o, r, rows, len) == SoftmaxRow(Row(s, r, rows, len), k)
  }

  /** The buffer of `size` entries is a whole number of rows of `len` entries. */
  predicate RowsOf(size: nat, len: nat)
  {
    len > 0 && size == size / len * len
  }

  /** Writing the softmax of row `i` keeps rows `0 .. i - 1` and makes row `i` right. */
  lemma SoftmaxRowStep(before: seq<int>, after: seq<int>, A: seq<int>, src: seq<int>,
                       rows: nat, len: nat, i: nat, base: nat, k: Kernels)
    requires |before| == rows * len && |after| == rows * len
    requires |A| == rows * len && |src| == rows * len
    requires 0 < len && i < rows && base == i * len && base + len <= rows * len
    requires forall r :: 0 <= r < i ==>
      Row(before, r, rows, len) == SoftmaxRow(Row(A, r, rows, len), k)
    requires src[base ..] == A[base ..]
    requires after[base .. base + len] == SoftmaxRow(src[base .. base + len], k)
    requires after[.. base] == before[.. base]
    ensures forall r :: 0 <= r < i + 1 ==>
      Row(after, r, rows, len) == SoftmaxRow(Row(A, r, rows, len), k)
  {
    assert src[base .. base + len] == A[base .. base + len];
    forall r | 0 <= r < i + 1
      ensures Row(after, r, rows, len) == SoftmaxRow(Row(A, r, rows, len), k)
    {
      if r < i {
        RowEnd(r, i, len);
        SliceOfPrefix(after, i * len, r * len, r * len + len);
        SliceOfPrefix(before, i * len, r * len, r * len + len);
      }
    }
  }

  /** The unread part of the input after one row is written: untouched unless the write
      aliases it, and then only inside the row. */
  lemma SuffixAfterRow(src: seq<int>, after: seq<int>, A: seq<int>, base: nat, len: nat)
    requires base + len <= |src| && |after| == |src| == |A|
    requires src[base ..] == A[base ..]
    requires after == src || after[base + len ..] == src[base + len ..]
    ensures after[base + len ..] == A[base + len ..]
  {
    assert src[base + len ..] == src[base ..][len ..];
    assert A[base + len ..] == A[base ..][len ..];
  }

  lemma SliceOfPrefix(s: seq<int>, n: nat, lo: nat, hi: nat)
    requires lo <= hi <= n <= |s|
    ensures s[..n][lo .. hi] == s[lo .. hi]
  {
  }

  /** `memcpy(dst + dstOff, src + srcOff, n * sizeof(float))`: the `n` entries of `src` from
      `srcOff` on are written over `dst` from `dstOff` on, and nothing else of `dst` changes.
      The two buffers are distinct, as memcpy requires. */
  method CopyBlock(dst: array<int>, dstOff: nat, src: array<int>, srcOff: nat, n: nat)
    requires dst != src && dstOff + n <= dst.Length && srcOff + n <= src.Length
    modifies dst
    ensures dst[..] == Splice(old(dst[..]), dstOff, src[srcOff .. srcOff + n])
  {
    ghost var block := src[srcOff .. srcOff + n];
    for t := 0 to n
      invariant forall q :: 0 <= q < dst.Length && !(dstOff <= q < dstOff + t) ==> dst[q] == old(dst[q])
      invariant forall j :: 0 <= j < t ==> dst[dstOff + j] == block[j]
    {
      dst[dstOff + t] := src[srcOff + t];
    }
    assert dst[..] == Splice(old(dst[..]), dstOff, block);
  }

  /** The matrix-vector loop that attention, the feed-forward layer and the classifier each
      write out: `out[i]` is the dot product of row i of the `rows x cols` matrix `w` with the
      first `cols` entries of `x`, accumulated left to right.  Only the first `rows` entries of
      `out` are written. */
  method MatVecInto(out: array<int>, w: array<int>, rows: nat, cols: nat, x: array<int>)
    requires rows * cols <= w.Length && cols <= x.Length && rows <= out.Length
    requires out != w && out != x
    modifies out
    ensures out[..] == Splice(old(out[..]), 0, MatVec(w[..], rows, cols, x[..]))
  {
    ghost var spec := MatVec(w[..], rows, cols, x[..]);
    for i := 0 to rows
      invariant forall q :: 0 <= q < i ==> out[q] == spec[q]
      invariant forall q :: i <= q < out.Length ==> out[q] == old(out[q])
    {
      RowEnd(i, rows, cols);
      var val := SliceDot(w, i * cols, x, 0, cols);
      assert x[0 .. cols] == x[..cols];
      out[i] := val;
    }
    assert out[..] == Splice(old(out[..]), 0, spec);
  }

  /** A dot-product loop over two buffers: the `n` entries of `a` from `aOff` on against the
      `n` entries of `b` from `bOff` on, accumulated left to right. */
  method SliceDot(a: array<int>, aOff: nat, b: array<int>, bOff: nat, n: nat) returns (val: int)
    requires aOff + n <= a.Length && bOff + n <= b.Length
    ensures val == Dot(a[aOff .. aOff + n], b[bOff .. bOff + n])
  {
    ghost var r, s := a[aOff .. aOff + n], b[bOff .. bOff + n];
    val := 0;
    for j := 0 to n
      invariant val == Dot(r[..j], s[..j])
    {
      DotSnoc(r, s, j);
      val := val + a[aOff + j] * b[bOff + j];
    }
    assert r[..n] == r && s[..n] == s;
  }
}
