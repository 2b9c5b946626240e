/** The token embedding table: a `vocab_size x dim` matrix whose row `t` is the vector of
    token `t`. */
module EmbeddingLayer {
  import opened Errors
  import opened Numerics
  import opened Tensors

  class Embedding {
    const weights: Tensor

    /** The table is a valid `vocab_size x dim` tensor. */
    ghost predicate Valid()
    {
      weights.Valid() && |weights.shape| == 2 && weights.size == weights.shape[0] * weights.shape[1]
    }

    constructor Init(weights: Tensor)
      requires weights.Valid() && |weights.shape| == 2
      ensures this.weights == weights && Valid()
    {
      this.weights := weights;
      new;
      Product2(weights.shape);
    }

    /** `Embedding(vocab_size, dim)`: allocates a zero table of shape `[vocab_size, dim]`, which
        fails when either is 0. */
    static method Create(vocabSize: nat, dim: nat) returns (r: Result<Embedding>)
      ensures r.Failure? <==> vocabSize == 0 || dim == 0
      ensures r.Failure? ==> r.error == ZeroDimension
      ensures r.Success? ==> fresh(r.value) && fresh(r.value.weights) && fresh(r.value.weights.data)
      ensures r.Success? ==> r.value.Valid() && r.value.weights.shape == [vocabSize, dim]
      ensures r.Success? ==> r.value.weights.data[..] == Zeros(vocabSize * dim)
    {
      var t := Tensor.Create([vocabSize, dim]);
      if t.Failure? {
        return Failure(t.error);
      }
      Product2([vocabSize, dim]);
      var e := new Embedding.Init(t.value);
      return Success(e);
    }

    /** `forward(out, tokens)`: four checks in this order (one token, a 1-D output, the token
        inside the vocabulary, the output as wide as a row), then row `token_id` of the table
        is copied into `out`.  On failure nothing is written; the table is never written. */
    method Forward(out: Tensor, tokens: Tensor) returns (st: Outcome)
      requires Valid() && out.Valid() && tokens.Valid()
      requires out.data != weights.data
      modifies out.data
      ensures tokens.size != 1 ==> st == Fail(NotSingleToken)
      ensures tokens.size == 1 && |out.shape| != 1 ==> st == Fail(OutputNot1D)
      ensures tokens.size == 1 && |out.shape| == 1 && !(0 <= old(tokens.data[0]) < weights.shape[0]) ==>
        st == Fail(TokenOutOfRange)
      ensures (tokens.size == 1 && |out.shape| == 1 && 0 <= old(tokens.data[0]) < weights.shape[0] &&
               out.shape[0] != weights.shape[1]) ==> st == Fail(EmbeddingDimMismatch)
      ensures st.Pass? <==> (tokens.size == 1 && |out.shape| == 1 &&
                             0 <= old(tokens.data[0]) < weights.shape[0] && out.shape[0] == weights.shape[1])
      ensures st.Fail? ==> out.data[..] == old(out.data[..])
      ensures st.Pass? ==>
        out.data[..] == Row(weights.data[..], old(tokens.data[0]), weights.shape[0], weights.shape[1])
    {
      if tokens.size != 1 {
        return Fail(NotSingleToken);
      }
      if |out.shape| != 1 {
        return Fail(OutputNot1D);
      }
      var tokenId := tokens.data[0];
      var dim := out.shape[0];
      var vocabSize := weights.shape[0];
      if tokenId < 0 || tokenId >= vocabSize {
        return Fail(TokenOutOfRange);
      }
      if dim != weights.shape[1] {
        return Fail(EmbeddingDimMismatch);
      }
      Product1(out.shape);
      RowEnd(tokenId, vocabSize, dim);
      ghost var row := Row(weights.data[..], tokenId, vocabSize, dim);
      assert row == weights.data[tokenId * dim .. tokenId * dim + dim];
      CopyBlock(out.data, 0, weights.data, tokenId * dim, dim);
      assert out.data[..] == row;
      return Pass;
    }
  }
}
