/** `Model::generate`: the prompt loop, then the generation loop that feeds each greedy choice
    back in.  Both loops are stated over any function that behaves as `forward` does on the
    buffers (`IsForward`); `StepOf` is `forward` itself, so the lemmas below need only what
    `forward` promises, not how it computes. */
module Generation {
  import opened Errors
  import opened Numerics
  import opened Streams
  import opened Sampling
  import opened Inference

  /** A forward pass: the buffers after feeding a token at a position, or the error. */
  type ForwardPass = (Activations, int, nat) --> Result<Activations>

  /** `f` is defined on buffers of the sizes `c` gives them at every position before
      `seq_len`; it rejects exactly the tokens whose single-precision rounding lies outside
      the vocabulary, with the embedding's error, and otherwise leaves buffers of the same sizes. */
  ghost predicate IsForward(c: Config, f: ForwardPass)
  {
    forall s: Activations, t: int, p: nat {:trigger f.requires(s, t, p)} {:trigger f(s, t, p)} ::
      ActsFit(c, s) && p < c.seqLen ==>
      f.requires(s, t, p) &&
      (f(s, t, p).Failure? <==> !(0 <= FloatOfInt(t) < c.vocab)) &&
      (f(s, t, p).Failure? ==> f(s, t, p).error == TokenOutOfRange) &&
      (f(s, t, p).Success? ==> ActsFit(c, f(s, t, p).value))
  }

  /** From buffers `a` and `b` whose caches agree before position `p`, feeding `t` at `p`
      gives the same outcome and the same logits, and leaves caches that agree up to and
      including `p`. */
  ghost predicate CausalAt(c: Config, f: ForwardPass, a: Activations, b: Activations, t: int, p: nat)
  {
    (ActsFit(c, a) && ActsFit(c, b) && p < c.seqLen && AgreeBefore(c, a, b, p) &&
     f.requires(a, t, p) && f.requires(b, t, p)) ==>
    f(a, t, p).Success? == f(b, t, p).Success? &&
    (f(a, t, p).Success? ==>
      f(a, t, p).value.logits == f(b, t, p).value.logits &&
      AgreeBefore(c, f(a, t, p).value, f(b, t, p).value, p + 1))
  }

  /** `f` reads the caches only at the positions before the one it is fed at. */
  ghost predicate Causal(c: Config, f: ForwardPass)
  {
    forall a: Activations, b: Activations, t: int, p: nat :: CausalAt(c, f, a, b, t, p)
  }

  /** `forward` of a model with configuration `c` and weights `w`. */
  function StepOf(c: Config, w: Weights, k: Kernels): (f: ForwardPass)
    requires Fits(c, w) && Rotates(c)
    ensures IsForward(c, f)
  {
    (s: Activations, t: int, p: nat) requires ActsFit(c, s) && p < c.seqLen => Step(c, w, s, t, p, k)
  }

  /** `f` computes what `forward` of a model with configuration `c` and weights `w` computes,
      wherever that is defined. */
  ghost predicate IsStep(c: Config, w: Weights, k: Kernels, f: ForwardPass)
  {
    Fits(c, w) && Rotates(c) &&
    forall s: Activations, t: int, p: nat {:trigger Step(c, w, s, t, p, k)} ::
      ActsFit(c, s) && p < c.seqLen ==> f.requires(s, t, p) && f(s, t, p) == Step(c, w, s, t, p, k)
  }

  /** `StepOf` is `forward`. */
  lemma StepOfIsStep(c: Config, w: Weights, k: Kernels)
    requires Fits(c, w) && Rotates(c)
    ensures IsStep(c, w, k, StepOf(c, w, k))
  {
  }

  /** `forward` reads the caches only before the position it is fed at. */
  lemma StepOfCausal(c: Config, w: Weights, k: Kernels)
    requires Fits(c, w) && Rotates(c)
    ensures Causal(c, StepOf(c, w, k))
  {
    var f := StepOf(c, w, k);
    forall a: Activations, b: Activations, t: int, p: nat
      ensures CausalAt(c, f, a, b, t, p)
    {
      if ActsFit(c, a) && ActsFit(c, b) && p < c.seqLen && AgreeBefore(c, a, b, p) {
        StepCausal(c, w, a, b, t, p, k);
        assert f(a, t, p) == Step(c, w, a, t, p, k) && f(b, t, p) == Step(c, w, b, t, p, k);
      }
    }
  }

  // ---------------------------------------------------------------------------------------
  // The two loops

  /** Where a run of steps ended: whether a token was rejected, the tokens sampled, and the
      buffers. */
  datatype Run = Run(outcome: Outcome, tokens: seq<int>, acts: Activations)

  /** The prompt loop of `generate`: `tokens[i]` is fed at position `pos + i`.  The first
      rejected token ends the loop, with the buffers as the previous step left them. */
  function Prefill(c: Config, f: ForwardPass, s: Activations, tokens: seq<int>, pos: nat): (r: Run)
    requires IsForward(c, f) && ActsFit(c, s) && pos + |tokens| <= c.seqLen
    ensures ActsFit(c, r.acts) && r.tokens == []
    decreases |tokens|
  {
    if |tokens| == 0 then Run(Pass, [], s)
    else
      assert pos < c.seqLen && ActsFit(c, s);
      var t := tokens[0];
      match f(s, t, pos)
      case Failure(e) => Run(Fail(e), [], s)
      case Success(s1) => Prefill(c, f, s1, tokens[1..], pos + 1)
  }

  /** `r` after the tokens `ts`. */
  function Prepend(ts: seq<int>, r: Run): Run
  {
    r.(tokens := ts + r.tokens)
  }

  /** Prepending twice prepends the concatenation. */
  lemma PrependTwice(a: seq<int>, b: seq<int>, r: Run)
    ensures Prepend(a, Prepend(b, r)) == Prepend(a + b, r)
  {
    assert a + (b + r.tokens) == (a + b) + r.tokens;
  }

  /** The generation loop of `generate`: until `steps` tokens are sampled or the position
      reaches `seq_len`, feed `next` at `pos`, then sample the greedy choice over the logits,
      which becomes the next token fed. */
  function Sampled(c: Config, f: ForwardPass, s: Activations, next: int, pos: nat, steps: nat): (r: Run)
    requires IsForward(c, f) && ActsFit(c, s)
    ensures ActsFit(c, r.acts)
    decreases steps
  {
    if steps == 0 || pos >= c.seqLen then Run(Pass, [], s)
    else match f(s, next, pos)
      case Failure(e) => Run(Fail(e), [], s)
      case Success(s1) =>
        var t := Greedy(s1.logits, c.vocab);
        Prepend([t], Sampled(c, f, s1, t, pos + 1, steps - 1))
  }

  /** The token the generation loop feeds first: the last prompt token, or 0. */
  function First(prompt: seq<int>): int
  {
    if prompt == [] then 0 else prompt[|prompt| - 1]
  }

  /** The generation loop with the tokens sampled so far in `acc`: the loop state of
      `generate` after it has appended `acc`. */
  function SampledAfter(c: Config, f: ForwardPass, s: Activations, next: int, pos: nat, steps: nat,
                        acc: seq<int>): (r: Run)
    requires IsForward(c, f) && ActsFit(c, s)
    ensures ActsFit(c, r.acts)
    decreases steps
  {
    if steps == 0 || pos >= c.seqLen then Run(Pass, acc, s)
    else match f(s, next, pos)
      case Failure(e) => Run(Fail(e), acc, s)
      case Success(s1) =>
        var t := Greedy(s1.logits, c.vocab);
        SampledAfter(c, f, s1, t, pos + 1, steps - 1, acc + [t])
  }

  /** The accumulating loop is the generation loop with `acc` in front of its tokens. */
  lemma {:induction false} SampledAfterIsSampled(c: Config, f: ForwardPass, s: Activations, next: int, pos: nat,
                                                 steps: nat, acc: seq<int>)
    requires IsForward(c, f) && ActsFit(c, s)
    ensures SampledAfter(c, f, s, next, pos, steps, acc) == Prepend(acc, Sampled(c, f, s, next, pos, steps))
    decreases steps
  {
    if steps == 0 || pos >= c.seqLen {
      assert acc + [] == acc;
    } else {
      match f(s, next, pos)
      case Failure(e) =>
        assert acc + [] == acc;
      case Success(s1) =>
        var t := Greedy(s1.logits, c.vocab);
        SampledAfterIsSampled(c, f, s1, t, pos + 1, steps - 1, acc + [t]);
        PrependTwice(acc, [t], Sampled(c, f, s1, t, pos + 1, steps - 1));
    }
  }

  /** `generate(prompt_tokens, steps)`: the prompt tokens from position 0, then the generation
      loop from the last prompt token (or 0) at the next position.  The prompt loop does not
      look at `seq_len`, so a prompt longer than `seq_len` would write past the caches: the
      prompt must fit. */
  function Generated(c: Config, f: ForwardPass, s: Activations, prompt: seq<int>, steps: int): (r: Run)
    requires IsForward(c, f) && ActsFit(c, s) && |prompt| <= c.seqLen
    ensures ActsFit(c, r.acts)
  {
    var p := Prefill(c, f, s, prompt, 0);
    if p.outcome.Fail? then p
    else Sampled(c, f, p.acts, First(prompt), |prompt|, if steps < 0 then 0 else steps)
  }

  // ---------------------------------------------------------------------------------------
  // What the loops return

  /** The prompt loop rejects exactly a prompt with a token whose single-precision rounding
      lies outside the vocabulary, and then with the embedding's error. */
  lemma {:induction false} PrefillOutcome(c: Config, f: ForwardPass, s: Activations, tokens: seq<int>, pos: nat)
    requires IsForward(c, f) && ActsFit(c, s) && pos + |tokens| <= c.seqLen
    ensures var r := Prefill(c, f, s, tokens, pos);
      (r.outcome.Fail? <==> exists i :: 0 <= i < |tokens| && !(0 <= FloatOfInt(tokens[i]) < c.vocab)) &&
      (r.outcome.Fail? ==> r.outcome.error == TokenOutOfRange)
    decreases |tokens|
  {
    if |tokens| > 0 {
      assert pos < c.seqLen && ActsFit(c, s);
      var t := tokens[0];
      var st := f(s, t, pos);
      if st.Success? {
        var s1, rest, p1 := st.value, tokens[1..], pos + 1;
        PrefillOutcome(c, f, s1, rest, p1);
        assert forall i :: 1 <= i < |tokens| ==> tokens[i] == rest[i - 1];
        if exists i :: 0 <= i < |rest| && !(0 <= FloatOfInt(rest[i]) < c.vocab) {
          var i :| 0 <= i < |rest| && !(0 <= FloatOfInt(rest[i]) < c.vocab);
          assert tokens[i + 1] == rest[i];
        }
      }
    }
  }

  /** Once the token fed is accepted, the generation loop never fails: it samples `steps`
      tokens or as many as the positions left before `seq_len` allow, and every one is a token
      of the vocabulary.  This needs a vocabulary whose ids a float holds exactly. */
  lemma {:induction false} SampledOutcome(c: Config, f: ForwardPass, s: Activations, next: int, pos: nat, steps: nat)
    requires IsForward(c, f) && ActsFit(c, s) && 0 < c.vocab <= FLOAT_EXACT
    requires pos < c.seqLen ==> 0 <= FloatOfInt(next) < c.vocab
    ensures var r := Sampled(c, f, s, next, pos, steps);
      r.outcome == Pass &&
      |r.tokens| == (if pos >= c.seqLen then 0 else Min(steps, c.seqLen - pos)) &&
      forall i :: 0 <= i < |r.tokens| ==> 0 <= r.tokens[i] < c.vocab
    decreases steps
  {
    if steps > 0 && pos < c.seqLen {
      var s1 := f(s, next, pos).value;
      var t := Greedy(s1.logits, c.vocab);
      GreedyInRange(s1.logits, c.vocab);
      FloatOfIntExact(t);
      var p1, n1 := pos + 1, steps - 1;
      SampledOutcome(c, f, s1, t, p1, n1);
      var r, r' := Sampled(c, f, s, next, pos, steps), Sampled(c, f, s1, t, p1, n1);
      assert r.outcome == r'.outcome && r.tokens == [t] + r'.tokens;
      forall i | 0 <= i < |r.tokens| ensures 0 <= r.tokens[i] < c.vocab {
        if i > 0 { assert r.tokens[i] == r'.tokens[i - 1]; }
      }
    }
  }

  /** What `generate` returns: it fails exactly when a prompt token's single-precision
      rounding lies outside the vocabulary, with the embedding's error; otherwise it samples
      `steps` tokens, or as many as the positions after the prompt allow, all of them in the
      vocabulary. */
  lemma GeneratedOutcome(c: Config, f: ForwardPass, s: Activations, prompt: seq<int>, steps: int)
    requires IsForward(c, f) && ActsFit(c, s) && 0 < c.vocab <= FLOAT_EXACT && |prompt| <= c.seqLen
    ensures var r := Generated(c, f, s, prompt, steps);
      (r.outcome.Fail? <==> exists i :: 0 <= i < |prompt| && !(0 <= FloatOfInt(prompt[i]) < c.vocab)) &&
      (r.outcome.Fail? ==> r.outcome.error == TokenOutOfRange) &&
      (r.outcome.Pass? ==>
        |r.tokens| == Min(if steps < 0 then 0 else steps, c.seqLen - |prompt|) &&
        forall i :: 0 <= i < |r.tokens| ==> 0 <= r.tokens[i] < c.vocab)
  {
    var p := Prefill(c, f, s, prompt, 0);
    PrefillOutcome(c, f, s, prompt, 0);
    if p.outcome.Pass? {
      var n := if steps < 0 then 0 else steps;
      SampledOutcome(c, f, p.acts, First(prompt), |prompt|, n);
    }
  }

  // ---------------------------------------------------------------------------------------
  // What the loops read

  /** The prompt loop depends on the caches only at the positions before `pos`. */
  lemma {:induction false} PrefillCausal(c: Config, f: ForwardPass, a: Activations, b: Activations,
                                         tokens: seq<int>, pos: nat)
    requires IsForward(c, f) && Causal(c, f) && ActsFit(c, a) && ActsFit(c, b) && pos + |tokens| <= c.seqLen
    requires AgreeBefore(c, a, b, pos)
    ensures var ra, rb := Prefill(c, f, a, tokens, pos), Prefill(c, f, b, tokens, pos);
      ra.outcome == rb.outcome && (ra.outcome.Pass? ==> AgreeBefore(c, ra.acts, rb.acts, pos + |tokens|))
    decreases |tokens|
  {
    if |tokens| > 0 {
      assert pos < c.seqLen && ActsFit(c, a) && ActsFit(c, b);
      var t := tokens[0];
      var sa, sb := f(a, t, pos), f(b, t, pos);
      assert CausalAt(c, f, a, b, t, pos);
      if sa.Success? {
        var rest, p1 := tokens[1..], pos + 1;
        PrefillCausal(c, f, sa.value, sb.value, rest, p1);
      }
    }
  }

  /** The generation loop depends on the caches only at the positions before `pos`. */
  lemma {:induction false} SampledCausal(c: Config, f: ForwardPass, a: Activations, b: Activations, next: int,
                                         pos: nat, steps: nat)
    requires IsForward(c, f) && Causal(c, f) && ActsFit(c, a) && ActsFit(c, b)
    requires AgreeBefore(c, a, b, pos)
    ensures var ra, rb := Sampled(c, f, a, next, pos, steps), Sampled(c, f, b, next, pos, steps);
      ra.outcome == rb.outcome && ra.tokens == rb.tokens
    decreases steps
  {
    if steps > 0 && pos < c.seqLen {
      assert f.requires(a, next, pos) && f.requires(b, next, pos);
      var sa, sb := f(a, next, pos), f(b, next, pos);
      assert CausalAt(c, f, a, b, next, pos);
      if sa.Success? {
        assert sb.Success? && sa.value.logits == sb.value.logits;
        var t := Greedy(sa.value.logits, c.vocab);
        var p1, n1 := pos + 1, steps - 1;
        SampledCausal(c, f, sa.value, sb.value, t, p1, n1);
        var ra, rb := Sampled(c, f, a, next, pos, steps), Sampled(c, f, b, next, pos, steps);
        var ra', rb' := Sampled(c, f, sa.value, t, p1, n1), Sampled(c, f, sb.value, t, p1, n1);
        assert ra.outcome == ra'.outcome && ra.tokens == [t] + ra'.tokens;
        assert rb.outcome == rb'.outcome && rb.tokens == [t] + rb'.tokens;
      }
    }
  }

  /** What `generate` returns does not depend on what the caches and activations held before:
      each position's slot is written before any step reads it.  This is why the caches need
      no clearing between two calls. */
  lemma GeneratedIgnoresBuffers(c: Config, f: ForwardPass, a: Activations, b: Activations, prompt: seq<int>,
                                steps: int)
    requires IsForward(c, f) && Causal(c, f) && ActsFit(c, a) && ActsFit(c, b) && |prompt| <= c.seqLen
    ensures var ra, rb := Generated(c, f, a, prompt, steps), Generated(c, f, b, prompt, steps);
      ra.outcome == rb.outcome && ra.tokens == rb.tokens
  {
    PrefillCausal(c, f, a, b, prompt, 0);
    var pa, pb := Prefill(c, f, a, prompt, 0), Prefill(c, f, b, prompt, 0);
    if pa.outcome.Pass? {
      var n := if steps < 0 then 0 else steps;
      SampledCausal(c, f, pa.acts, pb.acts, First(prompt), |prompt|, n);
    }
  }
}
