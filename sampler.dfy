/** The placeholder sampler: greedy argmax over the logits. */
module Sampling {
  import opened Tensors

  /** The initial running maximum, the float literal -1e9. */
  const FLOOR: int := -1_000_000_000

  /** The state of the argmax loop after its first `n` iterations: the index chosen so far and
      the running maximum.  A logit replaces the maximum only when strictly larger, so the
      earliest of equal maxima is kept, and nothing replaces the initial index 0 unless it
      beats -1e9. */
  function Scan(logits: seq<int>, n: nat): (int, int)
    requires n <= |logits|
  {
    if n == 0 then (0, FLOOR)
    else
      var (id, m) := Scan(logits, n - 1);
      if logits[n - 1] > m then (n - 1, logits[n - 1]) else (id, m)
  }

  /** The running maximum bounds every logit scanned, and the index holds the first logit that
      reaches it; while no logit beats -1e9 the index stays 0. */
  lemma {:induction false} ScanIsRunningMax(logits: seq<int>, n: nat)
    requires n <= |logits|
    ensures var s := Scan(logits, n);
      s.1 >= FLOOR &&
      (forall i :: 0 <= i < n ==> logits[i] <= s.1) &&
      (s.1 == FLOOR ==> s.0 == 0) &&
      (s.1 > FLOOR ==> 0 <= s.0 < n && logits[s.0] == s.1) &&
      (s.1 > FLOOR ==> forall i :: 0 <= i < s.0 ==> logits[i] < s.1)
    decreases n
  {
    if n > 0 {
      var m := n - 1;
      ScanIsRunningMax(logits, m);
    }
  }

  /** The token `sample` returns for the first `n` logits. */
  function Greedy(logits: seq<int>, n: nat): int
    requires n <= |logits|
  {
    Scan(logits, n).0
  }

  /** The greedy choice is a valid token id, holds the largest logit, and is the lowest index
      that does; when no logit exceeds -1e9 it is 0. */
  lemma GreedyIsArgmax(logits: seq<int>, n: nat)
    requires 0 < n <= |logits|
    ensures 0 <= Greedy(logits, n) < n
    ensures (exists i :: 0 <= i < n && logits[i] > FLOOR) ==>
      (forall i :: 0 <= i < n ==> logits[i] <= logits[Greedy(logits, n)]) &&
      (forall i :: 0 <= i < Greedy(logits, n) ==> logits[i] < logits[Greedy(logits, n)])
    ensures (forall i :: 0 <= i < n ==> logits[i] <= FLOOR) ==> Greedy(logits, n) == 0
  {
    var s := Scan(logits, n);
    ScanIsRunningMax(logits, n);
    if exists i :: 0 <= i < n && logits[i] > FLOOR {
      var i :| 0 <= i < n && logits[i] > FLOOR;
      assert s.1 > FLOOR;
    }
  }

  /** The greedy choice is one of the first `n` token ids. */
  lemma GreedyInRange(logits: seq<int>, n: nat)
    requires 0 < n <= |logits|
    ensures 0 <= Greedy(logits, n) < n
  {
    ScanIsRunningMax(logits, n);
  }

  class Sampler {
    const vocabSize: int

    /** `Sampler(vocab_size, temperature, top_p)`; only the vocabulary size is used. */
    constructor (vocabSize: int)
      ensures this.vocabSize == vocabSize
    {
      this.vocabSize := vocabSize;
    }

    /** `sample`: the greedy choice over the first `vocab_size` logits.  The logits are only
        read.  There is no bounds check, so the tensor must hold that many. */
    method Sample(logits: Tensor) returns (id: int)
      requires logits.Valid() && vocabSize <= logits.size
      ensures vocabSize <= 0 ==> id == 0
      ensures vocabSize > 0 ==> id == Greedy(logits.data[..], vocabSize)
    {
      id := 0;
      var maxLogit := FLOOR;
      var i := 0;
      while i < vocabSize
        invariant 0 <= i <= (if vocabSize > 0 then vocabSize else 0)
        invariant (id, maxLogit) == Scan(logits.data[..], i)
      {
        if logits.data[i] > maxLogit {
          maxLogit := logits.data[i];
          id := i;
        }
        i := i + 1;
      }
    }
  }
}
