/** Integer and index arithmetic shared by the tensor code and the layers: shape products,
    row-major offsets, dot products and matrix-vector products over a flat row-major buffer,
    and the floating-point primitives that the model leaves uninterpreted. */
module Numerics {

  /** The floating-point primitives of the engine.  They are parameters of the model: it fixes
      where and on which values they are applied, not what they compute.  Additions and
      multiplications of elements are exact (`int`), everything else goes through here. */
  datatype Kernels = Kernels(
    exp: int -> int,                  // std::exp
    div: (int, int) -> int,           // float division a / b
    sqrt: int -> int,                 // std::sqrt of a head dimension
    ropeCos: (int, int, int) -> int,  // cos(pos * 10000^(-i / head_dim)) for (pos, i, head_dim)
    ropeSin: (int, int, int) -> int,  // sin(pos * 10000^(-i / head_dim)) for (pos, i, head_dim)
    rmsScale: (int, nat) -> int       // 1 / sqrt(ss / n + 1e-5) for a sum of squares ss over n
  )

  /** The element count of a tensor of shape `s`. */
  function Product(s: seq<nat>): nat
  {
    if s == [] then 1 else Product(s[..|s| - 1]) * s[|s| - 1]
  }

  /** A shape has a positive element count exactly when none of its dimensions is 0. */
  lemma {:induction false} ProductPositive(s: seq<nat>)
    ensures Product(s) > 0 <==> 0 !in s
  {
    if s != [] {
      var init, last := s[..|s| - 1], s[|s| - 1];
      ProductPositive(init);
      assert s == init + [last];
      assert 0 in s <==> 0 in init || last == 0;
      if Product(init) > 0 && last > 0 {
        MulPositive(Product(init), last);
      }
    }
  }

  lemma Product1(s: seq<nat>)
    requires |s| == 1
    ensures Product(s) == s[0]
  {
    assert s[..0] == [];
  }

  lemma Product2(s: seq<nat>)
    requires |s| == 2
    ensures Product(s) == s[0] * s[1]
  {
    Product1(s[..1]);
  }

  lemma Product3(s: seq<nat>)
    requires |s| == 3
    ensures Product(s) == s[0] * s[1] * s[2]
  {
    Product2(s[..2]);
  }

  /** The product of a shape is a multiple of its last dimension. */
  lemma ProductLast(s: seq<nat>)
    requires |s| > 0 && s[|s| - 1] > 0
    ensures Product(s) % s[|s| - 1] == 0
    ensures Product(s) / s[|s| - 1] == Product(s[..|s| - 1])
  {
    DivModUnique(Product(s), s[|s| - 1], Product(s[..|s| - 1]), 0);
  }

  lemma MulPositive(a: nat, b: nat)
    requires a > 0 && b > 0
    ensures a * b > 0
  {
  }

  lemma MulMonotone(a: nat, b: nat, c: nat)
    requires a <= b
    ensures a * c <= b * c
  {
  }

  lemma MulNonNegative(a: nat, b: nat)
    ensures 0 <= a * b
  {
  }

  function Zeros(n: nat): (r: seq<int>)
    ensures |r| == n && forall i :: 0 <= i < n ==> r[i] == 0
  {
    seq(n, _ => 0)
  }

  function Sum(s: seq<int>): int
  {
    if s == [] then 0 else Sum(s[..|s| - 1]) + s[|s| - 1]
  }

  /** The sum of one element more. */
  lemma SumSnoc(s: seq<int>, t: nat)
    requires t < |s|
    ensures Sum(s[..t + 1]) == Sum(s[..t]) + s[t]
  {
    assert s[..t + 1][..t] == s[..t];
  }

  /** The dot product, accumulated left to right as the source's loops do. */
  function Dot(a: seq<int>, b: seq<int>): int
    requires |a| == |b|
    decreases |a|
  {
    if a == [] then 0 else Dot(a[..|a| - 1], b[..|b| - 1]) + a[|a| - 1] * b[|b| - 1]
  }

  /** Extending both operands by one element adds that product to the dot product. */
  lemma DotSnoc(a: seq<int>, b: seq<int>, k: nat)
    requires |a| == |b| && k < |a|
    ensures Dot(a[..k + 1], b[..k + 1]) == Dot(a[..k], b[..k]) + a[k] * b[k]
  {
    assert a[..k + 1][..k] == a[..k] && b[..k + 1][..k] == b[..k];
  }

  /** The largest element of a non-empty sequence. */
  function Max(s: seq<int>): (m: int)
    requires |s| > 0
    ensures m in s
    ensures forall i :: 0 <= i < |s| ==> s[i] <= m
  {
    if |s| == 1 then s[0]
    else
      var m0 := Max(s[..|s| - 1]);
      assert s == s[..|s| - 1] + [s[|s| - 1]];
      if s[|s| - 1] > m0 then s[|s| - 1] else m0
  }

  /** The maximum of one element more. */
  lemma MaxSnoc(s: seq<int>, t: nat)
    requires 0 < t < |s|
    ensures Max(s[..t + 1]) == if s[t] > Max(s[..t]) then s[t] else Max(s[..t])
  {
    assert s[..t + 1][..t] == s[..t];
  }

  /** `s` with the block `b` written over it from `off` on, as a memcpy does. */
  function Splice(s: seq<int>, off: nat, b: seq<int>): (r: seq<int>)
    requires off + |b| <= |s|
    ensures |r| == |s|
    ensures forall i :: 0 <= i < off ==> r[i] == s[i]
    ensures forall i :: off <= i < off + |b| ==> r[i] == b[i - off]
    ensures forall i :: off + |b| <= i < |s| ==> r[i] == s[i]
  {
    s[..off] + b + s[off + |b|..]
  }

  /** A block as long as the whole replaces it. */
  lemma SpliceWhole(s: seq<int>, b: seq<int>)
    requires |b| == |s|
    ensures Splice(s, 0, b) == b
  {
  }

  /** Every block as long as the whole replaces it. */
  lemma SplicesWhole()
    ensures forall s: seq<int>, b: seq<int> {:trigger Splice(s, 0, b)} :: |b| == |s| ==> Splice(s, 0, b) == b
  {
  }

  /** Row `i` of a `rows x cols` matrix ends inside the matrix. */
  lemma RowEnd(i: nat, rows: nat, cols: nat)
    requires i < rows
    ensures i * cols + cols <= rows * cols
  {
    calc {
      i * cols + cols;
    ==
      (i + 1) * cols;
    <=  { MulMonotone(i + 1, rows, cols); }
      rows * cols;
    }
  }

  /** The row-major offset `i * s1 + j` of an in-bounds index lies inside the `s0 x s1` buffer. */
  lemma RowMajorBound(i: nat, j: nat, s0: nat, s1: nat)
    requires i < s0 && j < s1
    ensures i * s1 + j < s0 * s1
  {
    RowEnd(i, s0, s1);
  }

  /** The row-major offset `i * s1 + j` of an in-bounds index lies inside the `s0 x s1` buffer,
      and the index is recovered from it, so distinct indices have distinct offsets. */
  lemma RowMajor2(i: nat, j: nat, s0: nat, s1: nat)
    requires i < s0 && j < s1
    ensures i * s1 + j < s0 * s1
    ensures (i * s1 + j) / s1 == i && (i * s1 + j) % s1 == j
  {
    RowEnd(i, s0, s1);
    DivModUnique(i * s1 + j, s1, i, j);
  }

  /** Element `k` of a slice is element `lo + k` of the whole. */
  lemma SliceAt(a: seq<int>, lo: nat, hi: nat, k: nat)
    requires lo <= hi <= |a| && k < hi - lo
    ensures a[lo..hi][k] == a[lo + k]
  {
  }

  /** The offset `i * s1 * s2 + j * s2 + k` of an in-bounds index lies inside the
      `s0 x s1 x s2` buffer, and the index is recovered from it. */
  lemma RowMajor3(i: nat, j: nat, k: nat, s0: nat, s1: nat, s2: nat)
    requires i < s0 && j < s1 && k < s2
    ensures i * s1 * s2 + j * s2 + k < s0 * s1 * s2
    ensures (i * s1 * s2 + j * s2 + k) / (s1 * s2) == i
    ensures (i * s1 * s2 + j * s2 + k) % (s1 * s2) / s2 == j
    ensures (i * s1 * s2 + j * s2 + k) % s2 == k
  {
    var plane := s1 * s2;
    var inner := j * s2 + k;
    var n := i * s1 * s2 + j * s2 + k;
    MulAssoc(i, s1, s2);
    MulAssoc(s0, s1, s2);
    MulAddRight(i * s1, j, s2);
    RowMajor2(j, k, s1, s2);
    RowMajor2(i, inner, s0, plane);
    assert n == i * plane + inner;
    assert n == (i * s1 + j) * s2 + k;
    DivModUnique(n, s2, i * s1 + j, k);
  }

  lemma MulAssoc(a: nat, b: nat, c: nat)
    ensures a * (b * c) == a * b * c
  {
  }

  lemma MulAddRight(a: nat, b: nat, c: nat)
    ensures (a + b) * c == a * c + b * c
  {
  }

  lemma DivModUnique(n: nat, d: nat, q: nat, r: nat)
    requires d > 0 && r < d && n == q * d + r
    ensures n / d == q && n % d == r
  {
    var q', r' := n / d, n % d;
    if q > q' {
      MulMonotone(q' + 1, q, d);
      assert false;
    }
    if q < q' {
      MulMonotone(q + 1, q', d);
      assert false;
    }
  }

  /** The matrix-vector product of the `rows x cols` row-major matrix `w` with `x`, each entry
      accumulated left to right. */
  function MatVec(w: seq<int>, rows: nat, cols: nat, x: seq<int>): (r: seq<int>)
    requires rows * cols <= |w| && cols <= |x|
    ensures |r| == rows
  {
    seq(rows, i requires 0 <= i < rows =>
      RowEnd(i, rows, cols); Dot(w[i * cols .. i * cols + cols], x[..cols]))
  }

  /** The logistic function 1 / (1 + exp(-x)) of tensor.cpp and of the SwiGLU gate. */
  function Sigmoid(x: int, k: Kernels): int
  {
    k.div(1, 1 + k.exp(-x))
  }

  /** Numerically stabilised softmax of one non-empty row: subtract the row maximum,
      exponentiate, then divide by the sum of the exponentials. */
  function SoftmaxRow(r: seq<int>, k: Kernels): (o: seq<int>)
    requires |r| > 0
    ensures |o| == |r|
  {
    var e := Exps(r, Max(r), k);
    seq(|r|, j requires 0 <= j < |r| => k.div(e[j], Sum(e)))
  }

  /** The shifted exponentials exp(r[j] - m) of a softmax row. */
  function Exps(r: seq<int>, m: int, k: Kernels): (e: seq<int>)
    ensures |e| == |r|
  {
    seq(|r|, j requires 0 <= j < |r| => k.exp(r[j] - m))
  }

  /** Pointwise sum and product of two equally long sequences. */
  function AddSeq(a: seq<int>, b: seq<int>): (r: seq<int>)
    requires |a| == |b|
    ensures |r| == |a|
  {
    seq(|a|, i requires 0 <= i < |a| => a[i] + b[i])
  }

  function MulSeq(a: seq<int>, b: seq<int>): (r: seq<int>)
    requires |a| == |b|
    ensures |r| == |a|
  {
    seq(|a|, i requires 0 <= i < |a| => a[i] * b[i])
  }

  // ---------------------------------------------------------------------------------------
  // An integer stored as a single-precision float

  /** Integers of magnitude up to 2^24 are exact in a single-precision float. */
  const FLOAT_EXACT: int := 0x100_0000

  /** The spacing of single-precision floats at magnitude `m`: 1 below 2^24, doubling with
      each binade above. */
  function Spacing(m: nat): (u: nat)
    ensures u > 0 && (m > 0 ==> u <= m)
  {
    if m < FLOAT_EXACT then 1 else 2 * Spacing(m / 2)
  }

  /** `m` rounded to the nearest multiple of the spacing at its magnitude, a tie going to the
      even significand. */
  function RoundMagnitude(m: nat): (r: nat)
    ensures m > 0 ==> r > 0
  {
    var u := Spacing(m);
    var q, r := m / u, m % u;
    if 2 * r < u || (2 * r == u && q % 2 == 0) then q * u else (q + 1) * u
  }

  /** The integer that `(float)t` holds: `t` rounded to 24 significant bits, to nearest,
      ties to even. */
  function FloatOfInt(t: int): (r: int)
    ensures (r < 0) == (t < 0)
  {
    if t < 0 then -(RoundMagnitude(-t) as int) else RoundMagnitude(t)
  }

  /** Every integer of magnitude up to 2^24 survives the round trip through a float. */
  lemma FloatOfIntExact(t: int)
    requires -FLOAT_EXACT <= t <= FLOAT_EXACT
    ensures FloatOfInt(t) == t
  {
    var m := if t < 0 then -t else t;
    if m == FLOAT_EXACT {
      assert Spacing(m / 2) == 1;
    }
  }

  /** Just above 2^24 the spacing is 2 and the round trip moves odd integers to an even
      neighbour: 2^24 + 1 ties down to 2^24, 2^24 + 3 ties up to 2^24 + 4. */
  lemma FloatOfIntRounds()
    ensures FloatOfInt(FLOAT_EXACT + 1) == FLOAT_EXACT
    ensures FloatOfInt(FLOAT_EXACT + 3) == FLOAT_EXACT + 4
  {
    assert Spacing(FLOAT_EXACT / 2) == 1;
    assert Spacing(FLOAT_EXACT + 1) == 2 && Spacing(FLOAT_EXACT + 3) == 2;
  }
}
