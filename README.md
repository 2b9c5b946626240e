# DaisoML inference core in Dafny

A model of the inference core of DaisoML. DaisoML is a small C++ engine that runs a
Llama-style transformer:

- A model file is a 36-byte header followed by the weights as raw floats.
- Loading validates the header and allocates every tensor.
- The weights are read in a fixed order.
- `forward` pushes one token through the embedding, the blocks and the output projection.
- `generate` feeds a prompt and then its own greedy choices back in, one cache position per token.

The project is written the way the C++ is:

- Classes whose fields are updated in place (`Tensor`, the layers, `Model`) are Dafny classes over `array<int>` buffers, with `modifies` frames.
- The loops are `while`/`for` loops with invariants.
- Each method is proved against a pure specification function: `MatMul`, `Row`, `Rope`, `Mixed`, `LayerStep`, `Step`, `Prefill`, `Sampled`, `Generated` and others. The properties the engine relies on are lemmas about those functions.

Modules, one per source file:

| module | file | models |
|---|---|---|
| `Numerics` | numerics.dfy | products of shapes, dot products, row-major arithmetic, the `Kernels` record of float kernels, the int→float→int round trip of a token id |
| `Errors` | errors.dfy | one `Error` constructor per `throw` site, `Result` and `Outcome` |
| `Tensors` | tensor.dfy | `Tensor`, `reshape`, `at`, `matmul`, `add`, `element_wise_mul`, `sigmoid`, `softmax`, the `size_t` wrap of the element count |
| `Streams` | stream.dfy | `read_tensor` over the float words after the header |
| `FileFormat` | file_format.dfy | `DAISO_MAGIC` and the nine-field `DaisoModelHeader` as 36 little-endian bytes |
| `EmbeddingLayer`, `Normalization`, `FeedForwardLayer`, `AttentionLayer` | embedding.dfy, rmsnorm.dfy, feed_forward.dfy, attention.dfy | the four layers: guards, weight shapes, read order, forward passes, the KV-cache update and the RoPE pair loop |
| `Sampling`, `Tokenization` | sampler.dfy, tokenizer.dfy | greedy argmax, the char↔int tokenizer |
| `Inference` | inference.dfy | `forward` as a function of configuration, weights and buffers; what one step keeps and what it reads |
| `Generation` | generation.dfy | the prompt loop and the generation loop of `generate` over any forward pass with the right properties |
| `Transformer` | model.dfy | `Model`: `load_weights` (validation, allocation, reading), `forward`, `generate` |

Floating point is the one deliberate abstraction. Tensor elements are `int`, so sums and
products are exact ring operations and `matmul` has a definition that can be stated. The
float-only kernels are fields of a `Kernels` value passed in as a parameter: `exp`, division,
`sqrt`, the RMS scale, and RoPE's `cos`/`sin`. They are deterministic but uninterpreted.
Every property below therefore holds for any choice of those kernels.

File input is a parameter of `Model.Load`:

- `None` stands for a file that cannot be opened.
- Otherwise the file is its header bytes and the float words after them.

Logging, the sampler's random seed and the command-line driver are not modelled.

## Model

| member | source | states |
|---|---|---|
| Numerics.ProductPositive | tensor.cpp:13-18 | a shape with no zero dimension has a positive element count |
| Numerics.FloatOfIntExact | model.cpp:99 | every id of magnitude up to 2^24 survives `(float)token_id` and the cast back unchanged |
| Numerics.FloatOfIntRounds | model.cpp:99 | above 2^24 the round trip moves ids: 2^24+1 becomes 2^24 and 2^24+3 becomes 2^24+4 |
| Tensors.WrappedSizeExact | tensor.cpp:13-18 | the constructor's `size_t` product equals the true element count whenever that count is below 2^64 |
| Tensors.WrappedSizeUndersized | tensor.cpp:13-18 | the shape [2^32, 2^32] has 2^64 elements, but the wrapped count is 0 |
| Tensors.ReshapeWrapAccepted | tensor.cpp:40-45 | [2^63+1, 2^63+1] has a wrapped count of 1, so `reshape` of a one-element tensor accepts it |
| Tensors.Tensor.Create | tensor.cpp:12-21 | fails with the zero-dimension error exactly when some dimension is 0; otherwise the size is the product of the shape and the buffer is that many zeros |
| Tensors.Tensor.Reshape | tensor.cpp:39-48 | fails with the size error exactly when the new shape's product differs from the size; otherwise the new shape over the same buffer and the same size |
| Tensors.Tensor.Offset1 | tensor.cpp:50-57 | `at(i)` fails with the rank error exactly when the tensor is not 1-D |
| Tensors.Tensor.Offset2 | tensor.cpp:59-66 | `at(i, j)` fails with the rank error exactly when the tensor is not 2-D |
| Tensors.Tensor.Offset3 | tensor.cpp:68-75 | `at(i, j, k)` fails with the rank error exactly when the tensor is not 3-D |
| Tensors.Tensor.Offset1InBounds | tensor.cpp:50-53 | an in-bounds index of a 1-D tensor addresses an element inside the buffer |
| Tensors.Tensor.Offset2InBounds | tensor.cpp:59-62 | for `i < s0`, `j < s1` the flat index is inside the buffer, and dividing by `s1` recovers `i` and `j` (row-major) |
| Tensors.Tensor.Offset3InBounds | tensor.cpp:68-71 | for in-bounds `i, j, k` the flat index is inside the buffer, and `i`, `j`, `k` are recovered from it by division and remainder |
| Tensors.Tensor.At1 | tensor.cpp:50-53 | the element `at(i)` reads: the rank error, or the buffer entry at the 1-D offset |
| Tensors.Tensor.At2 | tensor.cpp:59-62 | the element `at(i, j)` reads: the rank error, or the buffer entry at `i*s1 + j` |
| Tensors.Tensor.At3 | tensor.cpp:68-71 | the element `at(i, j, k)` reads: the rank error, or the buffer entry at `i*s1*s2 + j*s2 + k` |
| Tensors.MatMulAt | tensor.cpp:93-101 | entry `(i, j)` of the product is the dot product of row `i` of `a` and column `j` of `b` |
| Tensors.Matmul | tensor.cpp:80-102 | the 2-D error when a tensor is not 2-D, then the shape error when the shapes disagree, and `out` untouched in both cases; otherwise `out` is the matrix product |
| Tensors.MatmulLoops | tensor.cpp:93-101 | the triple loop leaves `out` equal to the product of `a` and `b` |
| Tensors.MatmulRow | tensor.cpp:94-100 | one pass of the `i` loop writes row `i` of the product and keeps the rows before it |
| Tensors.RowColumnDot | tensor.cpp:95-98 | the `k` loop sums to the dot product of row `i` and column `j` |
| Tensors.Add | tensor.cpp:104-111 | fails, leaving `out` as it was, exactly when the three shapes are not all equal; otherwise `out[i] = a[i] + b[i]`, also when `out` is `a` |
| Tensors.ElementWiseMul | tensor.cpp:152-159 | fails, leaving `out` as it was, exactly when the three shapes are not all equal; otherwise `out[i] = a[i] * b[i]`, also when `out` aliases an input |
| Tensors.SigmoidInto | tensor.cpp:143-150 | fails exactly on a shape mismatch, leaving `out` as it was; otherwise `out` is the kernel's sigmoid of `a` elementwise |
| Tensors.Softmax | tensor.cpp:113-141 | fails exactly on a shape mismatch; otherwise the size splits into `size/last_dim` rows, each row of `out` is the softmax of the same row of `a`, and nothing crosses a row |
| Tensors.SoftmaxLoop | tensor.cpp:122-140 | the row loop makes every row of `out` the softmax of its row of `a` |
| Tensors.SoftmaxSlice | tensor.cpp:123-139 | one row is rewritten and every entry before and after it is kept |
| Tensors.RowMax | tensor.cpp:127 | the running maximum of a row is its largest entry |
| Tensors.ExpRow | tensor.cpp:130-134 | the row becomes `exp(a[j] - max)` and the returned sum is the sum of those entries; the rest of the buffer is kept |
| Tensors.DivideRow | tensor.cpp:137-139 | the row is divided by the sum and the rest of the buffer is kept |
| Tensors.CopyBlock | layers/embedding.cpp:42-44 | the `memcpy` of `n` entries: `dst` receives `src[srcOff .. srcOff+n]` at `dstOff` and every other entry of `dst` is kept (also the cache writes at layers/attention.cpp:104-105) |
| Tensors.MatVecInto | model.cpp:130-136 | the row-by-column loop leaves the first `rows` entries of `out` equal to `w · x` for a row-major `rows × cols` matrix, and keeps the rest of `out` (also the projections at layers/attention.cpp:74-89 and 143-150 and at layers/feed_forward.cpp:58-74 and 86-93) |
| Tensors.SliceDot | layers/attention.cpp:116-119 | the score accumulator is the dot product of the query slice and the cached key slice |
| Streams.WeightStream.ReadTensor | model.cpp:17-19 | `read_tensor` copies the next `size` words into the tensor and advances the cursor; a short file stops at its end and leaves the rest of the buffer as it was |
| Streams.ChunkConcat | model.cpp:17-19 | two reads in a row deliver the same words as one read of their combined length |
| FileFormat.WordOfWordBytes | file_format.h:14 | a 32-bit field decodes from its four little-endian bytes |
| FileFormat.SignedBits | file_format.h:15-24 | an `int32_t` field survives its two's-complement bit pattern |
| FileFormat.WordsWordsBytes | file_format.h:13-28 | a sequence of words survives encoding to bytes and back |
| FileFormat.DecodeEncode | file_format.h:13-28 | every header survives encoding to its 36 bytes and decoding back |
| FileFormat.EncodeDecode | file_format.h:13-28 | every 36-byte block is the encoding of the header decoded from it, so the layout is a bijection |
| FileFormat.MagicOnDisk | file_format.h:11 | `DAISO_MAGIC` is 0x64616973, stored in file order as the bytes 0x73 0x69 0x61 0x64, that is "siad" |
| EmbeddingLayer.Embedding.Create | layers/embedding.cpp:8-11 | a zero table of shape `[vocab_size, dim]`, or the zero-dimension error when either is 0 |
| EmbeddingLayer.Embedding.Forward | layers/embedding.cpp:19-45 | the four guards in order: not a single token, output not 1-D, token id outside the table, width mismatch; `out` is untouched on every error; otherwise `out` is row `token_id` of the table |
| Normalization.RmsNorm.Create | layers/rmsnorm.cpp:8-11 | a zero weight vector of length `dim`, or the zero-dimension error |
| Normalization.RmsNorm.Forward | layers/rmsnorm.cpp:19-43 | fails, leaving `out` as it was, exactly when the shapes of `input` and `out` differ or the size is not the weights' size; otherwise `out` is the weighted RMS normalisation of `input` (in place when `out` is `input`) |
| Normalization.SumOfSquares | layers/rmsnorm.cpp:31-34 | the loop computes the dot product of `x` with itself |
| FeedForwardLayer.FeedForward.Create | layers/feed_forward.cpp:15-20 | zero tensors `w1: [hidden, dim]`, `w2: [dim, hidden]`, `w3: [hidden, dim]`, or the zero-dimension error |
| FeedForwardLayer.FeedForward.ReadWeights | layers/feed_forward.cpp:28-32 | reads `w1`, `w2`, `w3` in that order, each the full size of the tensor, from consecutive stretches of the stream |
| FeedForwardLayer.FeedForward.Forward | layers/feed_forward.cpp:38-94 | `out` is `w2 · SwiGLU(w1 · x, w3 · x)` over the first `dim` entries, with the input read before `out` is written |
| FeedForwardLayer.ApplySwiGlu | layers/feed_forward.cpp:76-84 | every hidden entry becomes `swish(h[i]) * gate[i]` |
| AttentionLayer.Attention.Create | layers/attention.cpp:35-46 | `head_dim == dim / n_heads` and four zero `[dim, dim]` matrices, or the zero-dimension error |
| AttentionLayer.Attention.HeadsFit | layers/attention.cpp:38 | with `head_dim = dim / n_heads`, the head slices `[h*head_dim, (h+1)*head_dim)` lie inside `[0, dim)` |
| AttentionLayer.Attention.ReadWeights | layers/attention.cpp:55-60 | reads `wq`, `wk`, `wv`, `wo` in that order, each `dim*dim` words, from consecutive stretches of the stream |
| AttentionLayer.Attention.Forward | layers/attention.cpp:62-151 | the key and value caches change only in the `dim`-wide slot at `layer*seq_len*dim + pos*dim`, which receives the rotated key and the value of the input; `out` is `wo` times the heads' attention over the positions `0..pos` of that layer |
| AttentionLayer.Attention.Project | layers/attention.cpp:72-97 | `q` and `k` are `wq · x` and `wk · x` rotated head by head at `pos`, and `v` is `wv · x` |
| AttentionLayer.Attention.Attend | layers/attention.cpp:107-150 | `out` is `wo` times the mixed heads, computed from `q` and the window of `pos + 1` cache slots |
| AttentionLayer.StoreSlot | layers/attention.cpp:99-105 | the two `memcpy`s write `k` and `v` into their slots and nothing else changes |
| AttentionLayer.ApplyRope | layers/attention.cpp:16-33 | the pair loop applies the rotation of pair `(i, i+1)` for `i = 0, 2, …` below `head_dim` to both `q` and `k` |
| AttentionLayer.RotatePair | layers/attention.cpp:23-31 | one pair is rotated by `cos`/`sin` from its old values |
| AttentionLayer.RopeHeads | layers/attention.cpp:93-97 | the head loop applies `apply_rope` to every head of `q` and `k` at offset `h*head_dim` |
| AttentionLayer.RopeHead | layers/attention.cpp:17-32 | the pair loop changes nothing outside `[base, base + 2n)` |
| AttentionLayer.RopeSpanBounds | layers/attention.cpp:17 | the pair loop reaches `head_dim` entries when `head_dim` is even and one more when it is odd |
| AttentionLayer.RopeEvenHeadsIndependent | layers/attention.cpp:93-97 | for an even `head_dim`, each head's slice after the loop is `apply_rope` of that head's slice alone |
| AttentionLayer.RopeEvenUntouched | layers/attention.cpp:93-97 | for an even `head_dim`, the entries after the last head are left alone |
| AttentionLayer.RopeUntouched | layers/attention.cpp:93-97 | in general the rotation reaches at most one entry past the last head's slice |
| AttentionLayer.CacheSlotInside | layers/attention.cpp:100-105 | for `layer < n_layers` and `pos < seq_len` the slot lies inside the `[n_layers, seq_len, dim]` buffer |
| AttentionLayer.CacheSlotsDisjoint | layers/attention.cpp:101-105 | slots of distinct `(layer, pos)` pairs do not overlap |
| AttentionLayer.SlotProduct | layers/attention.cpp:101 | the offset `layer*(seq_len*dim) + pos*dim` is `(layer*seq_len + pos)*dim` |
| AttentionLayer.WindowAfterWrite | layers/attention.cpp:104-115 | after the write, the positions `0..pos` of the layer are the earlier slots followed by the new key |
| AttentionLayer.ScoreInCache | layers/attention.cpp:114-121 | score `t` of head `h` is the scaled dot product of the head's query slice with cache slot `t` at offset `h*head_dim` |
| AttentionLayer.HeadOutAt | layers/attention.cpp:133-140 | entry `i` of a head's output is the probability-weighted sum of column `h*head_dim + i` of the value slots |
| AttentionLayer.HeadsSnoc | layers/attention.cpp:109-141 | the head loop appends each head's output at `h*head_dim` |
| AttentionLayer.Mixed | layers/attention.cpp:70 | the concatenated head outputs are `dim` wide, and the entries past the last head stay 0 |
| AttentionLayer.AttendHeads | layers/attention.cpp:109-141 | the head loop fills `y` with every head's output |
| AttentionLayer.AttendHead | layers/attention.cpp:110-140 | one head writes its output slice of `y` and nothing else |
| AttentionLayer.HeadScores | layers/attention.cpp:114-121 | the first `pos + 1` entries of `scores` are the head's scaled scores |
| AttentionLayer.HeadProbabilities | layers/attention.cpp:114-131 | the first `pos + 1` entries of `scores` become the softmax of those scores |
| AttentionLayer.WeightedValues | layers/attention.cpp:134-140 | the value loop makes each entry of the head's slice the weighted sum of the value slots and keeps the rest of `y` |
| AttentionLayer.FillZero | layers/attention.cpp:134 | `std::fill` zeroes the head's slice and keeps the rest |
| AttentionLayer.AccumulateScaled | layers/attention.cpp:137-139 | the inner loop adds `p * v` to the slice and keeps the rest |
| Inference.BlocksNext | model.cpp:103-121 | the layer loop runs block `l` and then the blocks after it |
| Inference.BlocksDone | model.cpp:103 | after the last block the loop changes nothing |
| Inference.AttentionHalf | model.cpp:105-111 | the attention norm, attention and residual add keep the buffer sizes and leave the logits alone |
| Inference.FeedForwardHalf | model.cpp:114-120 | the FFN norm, feed-forward and residual add keep the buffer sizes and touch neither cache nor the logits |
| Inference.LayerStep | model.cpp:104-120 | one iteration of the layer loop keeps the buffer sizes and leaves the logits alone |
| Inference.Head | model.cpp:123-136 | the final norm and the logits leave `xb` and both caches as they were |
| Inference.Step | model.cpp:96-137 | `forward` fails with the embedding's range error exactly when the single-precision rounding of the token id is outside the vocabulary; otherwise the buffers keep their sizes |
| Inference.LayerKeeps | model.cpp:103-121 | a block changes the caches only in its own slot at `pos` |
| Inference.BlocksKeep | model.cpp:103-121 | the layers from `l` on change the caches only in the slots at `pos` |
| Inference.StepKeeps | model.cpp:96-137 | a successful `forward` at `pos` keeps every cache slot of every other position |
| Inference.LayerCausal | layers/attention.cpp:114-139 | a block's outputs depend on the caches only at the positions before `pos` of its layer |
| Inference.HeadCausal | model.cpp:123-136 | the logits depend only on `x`, not on the caches |
| Inference.BlocksCausal | model.cpp:103-121 | the layer loop reads the caches only before `pos` and leaves caches that agree up to `pos` |
| Inference.StepCausal | model.cpp:96-137 | two runs of `forward` whose caches agree before `pos` give the same outcome and logits, and caches that agree up to `pos` |
| Generation.StepOf | model.cpp:96-100 | `forward` with fixed weights is a forward pass: defined on buffers of the right sizes, rejecting exactly the tokens the embedding rejects |
| Generation.StepOfCausal | model.cpp:96-137 | `forward` with fixed weights reads the caches only before `pos` |
| Generation.Prefill | model.cpp:149-155 | the prompt loop keeps the buffer sizes and collects no tokens; `PrefillOutcome` and `PrefillCausal` state its outcome |
| Generation.Sampled | model.cpp:161-173 | the generation loop keeps the buffer sizes; `SampledOutcome` and `SampledCausal` state its tokens |
| Generation.SampledAfter | model.cpp:161-173 | the loop with the tokens pushed so far keeps the buffer sizes; `SampledAfterIsSampled` ties it to `Sampled` |
| Generation.Generated | model.cpp:142-177 | `generate` keeps the buffer sizes; `GeneratedOutcome` and `GeneratedIgnoresBuffers` state its result |
| Generation.SampledAfterIsSampled | model.cpp:159-171 | the loop state after the tokens sampled so far is the rest of the loop's run with those tokens in front |
| Generation.PrefillOutcome | model.cpp:147-154 | the prompt loop fails, with the embedding's error, exactly when some prompt token's rounding is outside the vocabulary |
| Generation.SampledOutcome | model.cpp:159-171 | once the fed token is accepted, the generation loop never fails; it samples `min(steps, seq_len - pos)` tokens (none at or past `seq_len`), all in the vocabulary |
| Generation.GeneratedOutcome | model.cpp:142-177 | `generate` fails exactly on a rejected prompt token; otherwise it samples `min(max(steps, 0), seq_len - n)` tokens, `n` being the prompt length, all of them in the vocabulary |
| Generation.PrefillCausal | model.cpp:147-154 | two prompt runs whose caches agree before `pos` have the same outcome and leave caches that agree before `pos` plus the prompt length |
| Generation.SampledCausal | model.cpp:159-171 | the generation loop's tokens depend on the caches only before its starting position |
| Generation.GeneratedIgnoresBuffers | model.cpp:142-177 | what `generate` returns does not depend on what the caches and activations held before the call, so they need no clearing between calls |
| Transformer.LayoutTotal | model.cpp:61-91 | the weight section holds `2*vocab*dim + n_layers*(2*dim + 4*dim² + 3*dim*hidden) + dim` floats |
| Transformer.BlockOffsets | model.cpp:85-88 | within a block the nine tensors start at `0, d, d+dd, …` in the read order `rms_att, wq, wk, wv, wo, rms_ffn, w1, w2, w3` |
| Transformer.BlockStartLayout | model.cpp:83-89 | block `l` starts after the embedding table and `l` whole blocks |
| Transformer.FinalStartTotal | model.cpp:90-91 | `rms_final` and `final_weights` are the last `dim + vocab*dim` floats |
| Transformer.CompleteRead | model.cpp:17-19 | a tensor that the remaining file covers receives exactly its stretch of words |
| Transformer.ShortRead | model.cpp:17-19 | a tensor past the end of the file keeps its zeros |
| Transformer.CutRead | model.cpp:17-19 | a tensor cut by the end of the file receives the words left and keeps its zeros after them |
| Transformer.AllocateAttentionHalf | model.cpp:65-66 | `rms_att` and the attention of a block: zero tensors of the shapes the layers give them, or the zero-dimension error |
| Transformer.AllocateFeedForwardHalf | model.cpp:67-68 | `rms_ffn` and the feed-forward of a block: zero tensors of their shapes, or the zero-dimension error |
| Transformer.AllocateBlock | model.cpp:64-69 | one block allocated in source order, failing exactly when `dim` or `hidden_dim` is 0 |
| Transformer.AllocateLayers | model.cpp:62-70 | `n_layers` fresh, separately owned blocks, or the zero-dimension error when there is a layer and `dim` or `hidden_dim` is 0 |
| Transformer.AllocateRest | model.cpp:71-79 | `rms_final` `[dim]`, `final_weights` `[vocab, dim]`, both caches `[n_layers, seq_len, dim]`, `x` and `xb` `[dim]` and `logits` `[vocab]`, all zero, or the zero-dimension error |
| Transformer.Model.Allocate | model.cpp:60-79 | allocation fails, with the first zero dimension, exactly when some dimension is 0; otherwise every tensor has its shape and holds zeros |
| Transformer.ReadAttentionHalf | model.cpp:85-86 | `rms_att`, `wq`, `wk`, `wv`, `wo` receive consecutive stretches of the file |
| Transformer.ReadFeedForwardHalf | model.cpp:87-88 | `rms_ffn`, `w1`, `w2`, `w3` receive the following stretches |
| Transformer.ReadBlock | model.cpp:85-88 | a block's nine tensors hold their stretches of the file, and the cursor has moved over the whole block |
| Transformer.ReadLayers | model.cpp:84-89 | every layer `l` holds the stretch that starts at its block offset |
| Transformer.ReadTail | model.cpp:90-91 | `rms_final` and `final_weights` receive the last stretches, and the earlier tensors are kept |
| Transformer.ReadFile | model.cpp:83-91 | every weight tensor holds what the file delivers at its place in the read order, and the cursor ends at the total |
| Transformer.Model.ReadWeights | model.cpp:81-91 | the model's weights are loaded in file order and the caches and activations stay zero |
| Transformer.Model.Load | model.cpp:47-94 | an unopenable file, then a wrong magic, then a version other than 1 are rejected before any allocation; then the zero-dimension error exactly for a degenerate configuration; otherwise the configuration is the header's, every weight holds its stretch of the file, and the buffers are zero |
| Transformer.AttentionHalfForward | model.cpp:105-111 | the attention norm, attention and residual add update the buffers as the attention half of the block specifies |
| Transformer.FeedForwardHalfForward | model.cpp:114-120 | the FFN norm, feed-forward and residual add update the buffers as the feed-forward half specifies |
| Transformer.BlockForward | model.cpp:104-120 | one iteration of the layer loop is one block step |
| Transformer.BlocksForward | model.cpp:103-121 | the layer loop computes the blocks in order |
| Transformer.Model.RunBlocks | model.cpp:103-121 | the layer loop over the model's own buffers leaves them equal to `Blocks` of the old buffers and weights, and changes no weight |
| Transformer.Model.RunHead | model.cpp:124-136 | `rms_final` in place and the logits loop leave the buffers equal to `Head` of the old buffers and weights, and change no weight |
| Transformer.Model.Embed | model.cpp:98-100 | the token goes through a float into a one-element tensor; the embedding rejects an out-of-range id without writing, or copies that id's row into `x` |
| Transformer.Model.Forward | model.cpp:96-137 | the buffers after `forward` are exactly the `Step` of the old buffers and weights, or the embedding's error with nothing written; the weights are unchanged |
| Transformer.Model.FeedPrompt | model.cpp:147-154 | prompt token `i` is fed at position `i`; the outcome and the buffers are those of the prompt loop's run |
| Transformer.Model.SampleStep | model.cpp:166-170 | one iteration: `forward` at `pos`, then the sampler's choice, advancing the loop's run by one token |
| Transformer.Model.SampleTokens | model.cpp:159-171 | the generation loop's outcome, tokens and buffers are those of the run that starts from the last prompt token at the position after the prompt and stops at `steps` or `seq_len` |
| Transformer.Model.Generate | model.cpp:142-177 | the result is the prompt followed by the run's sampled tokens, or the embedding's error of a rejected token |
| Sampling.ScanIsRunningMax | sampler.cpp:27-34 | the loop's running maximum bounds every logit seen, starts at -1e9, and its index is the first logit that reaches it |
| Sampling.GreedyIsArgmax | sampler.cpp:26-35 | the choice is in `[0, vocab_size)`, holds the largest logit with ties to the lowest index, and is 0 when no logit exceeds -1e9 |
| Sampling.GreedyInRange | sampler.cpp:27-35 | the choice is a valid token id |
| Sampling.Sampler.constructor | sampler.cpp:8-14 | the sampler keeps the vocabulary size |
| Sampling.Sampler.Sample | sampler.cpp:16-36 | `sample` returns the greedy choice over the first `vocab_size` logits (0 when that is not positive) and only reads the logits |
| Tokenization.ToChar | tokenizer.cpp:29 | `static_cast<char>` keeps a value that already is a `char` and otherwise reduces it modulo 256 |
| Tokenization.Encoded | tokenizer.cpp:14-22 | one token per character, `tokens[i] == text[i]` |
| Tokenization.Decoded | tokenizer.cpp:24-32 | one character per token, `text[i] == (char)tokens[i]` |
| Tokenization.DecodeEncode | tokenizer.cpp:14-32 | decoding the encoding of any text gives the text back |
| Tokenization.EncodeDecode | tokenizer.cpp:14-32 | tokens survive decode then encode exactly when every token is a `char` value |
| Tokenization.Tokenizer.Empty | tokenizer.cpp:6-8 | the default tokenizer has vocabulary size 0 |
| Tokenization.Tokenizer.constructor | tokenizer.cpp:10-12 | `vocab_size()` returns the constructor's argument |
| Tokenization.Tokenizer.Encode | tokenizer.cpp:14-22 | the `push_back` loop builds exactly the encoding |
| Tokenization.Tokenizer.Decode | tokenizer.cpp:24-32 | the `+=` loop builds exactly the decoding |

## Left out

- Tensors.Add, Tensors.ElementWiseMul, Tensors.Matmul and every other kernel: floating point is not modelled. Elements are unbounded integers, so rounding, NaN and infinities are not modelled. `exp`, division, `sqrt`, the RMS scale and RoPE's `cos`/`sin` are uninterpreted `Kernels` fields. No property of softmax or RMSNorm values (sums, scale invariance) is stated.
- Transformer.Model.Load: requires the header to be exactly 36 bytes. A file shorter than the header leaves part of `config` unread, and the model does not capture those indeterminate bytes.
- Transformer.Model.Load: requires the header's dimensions to be non-negative (`Allocatable`). The source casts a negative `int32_t` to `size_t`, and that huge allocation is not modelled.
- Transformer.Model.Load: requires `n_heads > 0` whenever a layer's attention gets allocated. With `n_heads == 0`, `dim / n_heads` at layers/attention.cpp:38 divides by zero. A zero `vocab_size` or `dim` fails earlier and is modelled. A negative `n_heads` is excluded too, although the source accepts it: `head_dim` becomes negative, the head loops at layers/attention.cpp:93 and 109 run zero times, and attention yields `wo` times a zero vector. The model does not capture that case.
- Tensors.Tensor.Create: takes `nat` dimensions, so the `(size_t)` cast of a negative `int` is outside the model.
- EmbeddingLayer.Embedding.Create: takes `nat` sizes where layers/embedding.cpp:9 casts `int` to `size_t`; negative sizes are outside the model.
- Normalization.RmsNorm.Create: takes a `nat` size where layers/rmsnorm.cpp:9 casts `int` to `size_t`.
- FeedForwardLayer.FeedForward.Create: takes `nat` sizes where layers/feed_forward.cpp:16-18 cast `int` to `size_t`.
- AttentionLayer.Attention.Create: takes `nat` sizes where layers/attention.cpp:40-43 cast `int` to `size_t`.
- Tensors.Tensor.Create: computes the exact product. The `size_t` wrap is modelled separately by `WrappedSize` and listed under Findings.
- Tensors.Tensor.Reshape: returns a new view with the new shape over the same buffer and size, instead of assigning `_shape` in place. `shape` is a constant of the model's `Tensor`. So other references to the old tensor object are not shown the new shape.
- Tensors.Tensor.Reshape: compares the exact product; the `size_t` wrap of the comparison is listed under Findings.
- Tensors.Matmul: requires `out` not to share a buffer with `a` or `b`. The source does not check this, and an aliased call would read entries it has already overwritten. No caller in the engine aliases them.
- Tensors.Softmax: requires a non-empty shape when the shapes match, because `back()` of an empty shape is undefined.
- EmbeddingLayer.Embedding.Forward: requires `out` not to be the table itself.
- Normalization.RmsNorm.Forward: requires `out` not to be the weight vector. FeedForwardLayer.FeedForward.Forward and AttentionLayer.Attention.Forward likewise require `out` and the caches to be apart from the weights. `out` may still be the input, as at model.cpp:108 and 117.
- Transformer.Model.Forward: requires `Rotates`: `n_heads > 0`, and the RoPE pair loop of every head stays inside `dim`. For an odd `head_dim` the loop reads `q[i+1]` one entry past the head, and past the end of the vector for the last head. That undefined read is not modelled. A negative `n_heads` is excluded as well, although the source runs such a model with empty head loops, as described for `Load` above.
- Transformer.Model.Generate: requires `Rotates` as well, for the same reason as Transformer.Model.Forward. `Load` does not establish it.
- Transformer.Model.SampleStep: requires `Rotates` through `IsStep`, for the same reason. Transformer.Model.SampleTokens and Transformer.Model.FeedPrompt do too.
- Transformer.Model.Generate: requires `|prompt| <= seq_len`. The prompt loop does no check, and a longer prompt writes past the caches.
- AttentionLayer.Attention.Forward: requires `pos < seq_len` and the cache slot to lie inside both caches, as the source assumes without checking. The `int` products at layers/attention.cpp:115 and 136 and the `int` operands of the offset at 101-102 are unbounded here; an overflow past 2^31 is not modelled.
- Transformer.Model.Embed: `static_cast<int>` of a float id at or above 2^31 is undefined; `FloatOfInt` yields the exact rounded value instead.
- Generation.SampledOutcome: requires `vocab_size <= 2^24`. Above that, a sampled id can round to another id (`FloatOfIntRounds`), and the loop may then read the wrong row or be rejected. The model states nothing about that case. The same holds for Generation.GeneratedOutcome.
- AttentionLayer.Attention.Create: requires `n_heads > 0`, because `dim / n_heads` divides by zero when it is 0. A negative `n_heads`, which the source accepts with a negative `head_dim`, is excluded as well.
- Logging (`log`), the sampler's `random_device` seed and its unused `temperature` and `top_p` are left out: they have no effect on any result.
- The default `Tensor()` constructor, destructors and `shared_ptr`/`new`/`delete` ownership are left out; the model's tensors are garbage-collected objects.
- The bytes of the weight section as floats are left out: the model reads words that are already values.
- `main.cpp`, `create_dummy_model.cpp` and `utils.cpp` are not part of this model.
- `n_kv_heads` is stored and never used, as in the source.
- The payload comment at file_format.h:30-40 lists a tokenizer section and per-kind grouping that the loader does not read; the model follows the read order at model.cpp:83-91.
- Tokenization: `char` is taken to be signed 8-bit.

## Findings

| source | as written | input that shows it | evidently intended | confidence | as-written member | corrected member |
|---|---|---|---|---|---|---|
| tensor.cpp:13-18 | `_size *= dim` multiplies in `size_t` and wraps modulo 2^64 | shape `[2^32, 2^32]`: `_size` becomes 0 and the buffer is empty although the shape describes 2^64 elements | the size is the true product of the shape | not executed | Tensors.WrappedSizeUndersized | Tensors.Tensor.Create |
| tensor.cpp:40-45 | `reshape` compares the wrapped product with `_size` | a one-element tensor reshaped to `[2^63+1, 2^63+1]` passes the check, since (2^63+1)² is 1 modulo 2^64 | `reshape` accepts only shapes with the same true element count | not executed | Tensors.ReshapeWrapAccepted | Tensors.Tensor.Reshape |
