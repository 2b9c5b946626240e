/** The weight file after its header: a stream of float words that `read_tensor` consumes
    into tensor buffers in a fixed order.  A read asks for as many words as the tensor holds;
    at the end of the file it gets what is left, and every later read gets nothing. */
module Streams {
  import opened Numerics
  import opened Tensors

  function Min(a: nat, b: nat): nat
  {
    if a <= b then a else b
  }

  /** The words a read of `n` words at cursor `c` delivers. */
  function Chunk(words: seq<int>, c: nat, n: nat): (r: seq<int>)
    requires c <= |words|
    ensures |r| == Min(n, |words| - c) && |r| <= n
    ensures c + |r| <= |words|
  {
    words[c .. c + Min(n, |words| - c)]
  }

  /** The cursor after a read of `n` words at cursor `c`. */
  function Next(words: seq<int>, c: nat, n: nat): (c': nat)
    requires c <= |words|
    ensures c <= c' <= |words|
    ensures c' - c == |Chunk(words, c, n)|
    ensures c' == |words| || c' == c + n
  {
    c + Min(n, |words| - c)
  }

  /** Two reads in a row deliver what one read of their combined length would. */
  lemma ChunkConcat(words: seq<int>, c: nat, a: nat, b: nat)
    requires c <= |words|
    ensures Chunk(words, c, a) + Chunk(words, Next(words, c, a), b) == Chunk(words, c, a + b)
    ensures Next(words, Next(words, c, a), b) == Next(words, c, a + b)
  {
  }

  /** The total of a list of sizes. */
  function SumNat(ns: seq<nat>): nat
  {
    if ns == [] then 0 else ns[0] + SumNat(ns[1..])
  }

  /** An open weight file positioned after its header. */
  class WeightStream {
    const words: seq<int>
    var cursor: nat

    ghost predicate Valid()
      reads this
    {
      cursor <= |words|
    }

    constructor (words: seq<int>)
      ensures this.words == words && cursor == 0 && Valid()
    {
      this.words := words;
      cursor := 0;
    }

    /** `read_tensor(file, t)`: the next `t.size` words, or what is left of them, overwrite the
        front of the tensor's buffer; the rest of the buffer keeps its contents. */
    method ReadTensor(t: Tensor)
      requires Valid() && t.Valid()
      modifies this, t.data
      ensures Valid() && cursor == Next(words, old(cursor), t.size)
      ensures t.data[..] == Splice(old(t.data[..]), 0, Chunk(words, old(cursor), t.size))
    {
      var c := cursor;
      var n := Min(t.size, |words| - c);
      for j := 0 to n
        modifies t.data
        invariant forall q :: j <= q < t.data.Length ==> t.data[q] == old(t.data[q])
        invariant forall q :: 0 <= q < j ==> t.data[q] == words[c + q]
      {
        t.data[j] := words[c + j];
      }
      assert t.data[..] == Splice(old(t.data[..]), 0, Chunk(words, c, t.size));
      cursor := c + n;
    }
  }
}
