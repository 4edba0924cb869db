# Verified models

Dafny models of the parts of this repository whose correctness rests on an argument rather than on a
formula, with proofs. `dafny verify dfyconfig.toml` checks everything.

**Lossless speculative decoding.** A draft proposes a block, the target verifies it, a prefix plus one bonus
token is committed and the caches are cropped or rolled back. `Distribution`, `RejectionSampling`,
`SpeculativeBlock` and `SampledGenerate` show that sampled output has exactly the law of the target,
`SparseBlock` that this holds for runs whose drafts propose from a list of candidates, and `SampledRounds` (with
`InverseDraw`) for which random numbers the executable round emits what. `OverwriteResidual` compares the residual
of the MLX version with the accumulating one.
`SamplingFilter` describes the top-k/top-p filter; `GenerateLoop` is the decoding loop on its buffer and
caches, and `GreedyDecoding` shows that greedy output is plain autoregressive decoding. `CacheRollback` and
`MlxGenerate` do the same for the MLX stream with recurrent layers, and `SampledStream` gives its sampled law.

**Weight transfer.** `WeightChunks` splits and merges weights, `BucketPacking` packs chunks into buckets,
`BucketLoop` is the packing loop on its two buffers. `NixlChain` (relay chain) and `NcclBroadcast` (broadcast
group) are step machines in which filling, posting, transferring, notifying, yielding and swapping interleave
arbitrarily; they share `BucketSender` and `BucketReceiver`. A transfer in flight may leave any bytes in its
destination until it completes. `NixlTopology` is the wiring of the chain.

**Online producer.** `ProducerFlowControl` is the pause policy, `ProducerLedger` the byte accounting and
publication, `Producer` the step machine of workers, capture slots, prompt pool, driver and consumer,
`ProducerRuns` what holds in all its runs, `ProducerProgress` that a waiting consumer is served, `ProducerOutcome`
how runs end, and `ProducerScenarios` runs that exist in every configuration.

**Partitioning and classic algorithms.** `PipelineShards`, `QkvSplit`, `DataDispatch` with `NestedTensors`,
`SamplerShards`, `Reservoir` and `SummaryReward`.

Tensors are sequences, probabilities are reals, a model is a function of the token prefix (with any cache
state it keeps made explicit), and expectations of arbitrary scores stand for laws: equal expectations of
every score mean equal laws. External services appear through what their callers rely on: a key-value cache
crop drops the newest entries; a transfer copies the source buffer as it is when it completes and then
notifies; `collective.broadcast` returns at the sender only after its buffer has been read for every rank;
a capture returns at most one reference per leased prompt; the consumed counter only grows and never passes
the published count; `should_stop` stays true once it is; `unbind` raises on nested tensors of three dimensions or
more and on no others, as the comment at `tensordict_utils.py:321-333` says; whether `TensorDict.chunk` takes nested
tensors at all (line 306 says it does not) is a parameter.

## Where the code and its description differ

- Rollback of a recurrent layer equals never having speculated only for convolution kernels at least two wide:
  with width one the forward pass keeps the whole `conv_input` (`conv_input[:, -0:]`) and rollback keeps nothing.
- `_prefill_target` with a hidden limit of zero (sliding window one) keeps every hidden state.
- The MLX stream emits one token even for `max_tokens` zero or below, and one token only for `block_size` one or
  below; `MlxGenerate.StreamBudget` is the resulting budget.
- Zero-byte weights yield no chunk and are missing after the merge.
- `build_topology` of the NIXL engine does not work for a single rollout worker.
- With the default low watermark (equal to the high one) the pause latch flips at every check at the watermark, so
  workers go on at the high watermark itself: captures come on top of at most `high - 1` references in every run if
  and only if the low watermark lies below the high one or a batch has fewer rounds than a worker has slots;
  otherwise some run reaches `high` plus workers times slots times lease.
- A publication that fails after transferring references leaves them out of `published_sizes`; `resident_bytes` is
  then too small. Once the consumer has acknowledged more than the published references less the transferred ones,
  `reconcile_consumed_locked` raises inside `publish_refs`, which drops that batch without publishing or aborting
  it. This takes a second worker: with one worker no run loses a batch, with two or more some run does.
- `get_dynamic_pipeline_shards` raises an index error on splits such as five layers over four ranks.
- The sparse residual written with `scatter_add_` is exact for all candidates. The MLX version, which overwrites,
  arrives at the same clamped row if and only if every candidate has no weight but its last one, or that one alone
  covers its target mass. Where that fails it has some mass too much, and draws the bonus token from the right law
  only if that surplus is proportional to the right row (so never when a token outside the candidates has target
  mass). Candidates chosen by `argpartition` are distinct, so none of this happens there.
- Slicing a batch falls back to the padded tensor when a nested field does not unbind, concatenating does not: three
  rows of three-dimensional position ids can be sliced, but `pad_dataproto_to_divisor` raises on them. Padding works
  if and only if the size is a multiple already or every nested field unbinds.
- That fallback cuts the first dimension of a row by its length in the ragged one. With the second dimension ragged
  (`ragged_idx` two, the default for matrices) it restores a row if and only if the row is as wide as the widest and
  no higher than wide; otherwise padding stays in or lines are lost.

## Model

| member | source | states |
|---|---|---|
| `AcceptedPrefix.LongestPrefixUnique` | extermal/dflash/dflash/model.py:106-108 | cumulative product and sum of the accept flags is the length of their longest all-true prefix, and only that number is |
| `RejectionSampling.AcceptEvent` | extermal/dflash/dflash/model.py:106-108 | the test `u * q < p` succeeds exactly for `u` below a threshold that, weighted by `q`, is `min(p, q)` |
| `RejectionSampling.CountEvent` | extermal/dflash/dflash/model.py:101-108 | `k` tokens are accepted exactly when the random numbers lie in a box |
| `SpeculativeBlock.RejectionSampleEvent` | extermal/dflash/dflash/model.py:94-124 | `_rejection_sample` returns `k` and the `k`-th bonus law exactly on that box, whose volume is the `k`-th count weight |
| `RejectionSampling.CountLawTotal` | extermal/dflash/dflash/model.py:106-108 | the count weights sum to one |
| `RejectionSampling.ResidualSamplable` | extermal/dflash/dflash/model.py:112-124 | the weights handed to the multinomial always have positive mass, and the clamped division by the total is scale-free |
| `RejectionSampling.FallbackUnreachable` | extermal/dflash/dflash/model.py:118-123 | where the residual is zero everywhere, every token is rejected with probability zero |
| `RejectionSampling.OnePosition` | extermal/dflash/dflash/model.py:94-124 | accept with `min(1, p/q)`, else draw from the residual: the expectation of every score is that under `p` |
| `SpeculativeBlock.SparseRowIsDense` | extermal/dflash/dflash/model.py:104-116 | acceptance mass and residual of a top-k draft equal those of its dense form, repeated candidates included |
| `SpeculativeBlock.SparseDrawIsDense` | extermal/dflash/dflash/model.py:251-258 | drawing a candidate from the sparse weights is drawing from the dense form, which is a law |
| `OverwriteResidual.OverwriteIsAccumulate` | extermal/dflash/dflash/model_mlx.py:93-99 | after the clamp, the overwriting residual of the MLX version equals the accumulating one if and only if every candidate has no weight but its last one, or that one alone covers its target mass; distinct candidates always qualify |
| `OverwriteResidual.OverwriteDrawsAlike` | extermal/dflash/dflash/model_mlx.py:93-106 | then the bonus token has the law of the accumulating residual; and if a token outside the candidates has target mass, only then |
| `OverwriteResidual.OverwriteDrawsAlikeIff` | extermal/dflash/dflash/model_mlx.py:93-106 | in general, where a rejection is possible at all, the two laws agree if and only if what the overwriting row has too much is proportional to the accumulating row |
| `OverwriteResidual.OverwriteLosesRepeatedMass` | extermal/dflash/dflash/model_mlx.py:93-106 | a candidate listed twice: the two residuals draw from `[0.8, 0.2]` and from `[0, 1]` |
| `OverwriteResidual.OverwritingSampleIsDense` | extermal/dflash/dflash/model_mlx.py:68-106 | with distinct candidates the MLX verification returns the count and the bonus law of the dense branch on the full rows |
| `SpeculativeBlock.Block.Exact` | extermal/dflash/dflash/model.py:277-294 | drafting a block from `q`, verifying it and drawing the bonus scores every emitted continuation as autoregressive sampling from the target does |
| `SparseBlock.SparseSampleIsDense` | extermal/dflash/dflash/model.py:94-124 | with candidate rows, `_rejection_sample` returns the count and the bonus law of the dense branch on the full rows, repeated candidates included |
| `SparseBlock.CandidateBlock.DraftedIsFull` | extermal/dflash/dflash/model.py:251-294 | expected score of a block drafted candidate by candidate and verified on the sparse branch is that of the block on the full rows |
| `SparseBlock.CandidateBlock.Exact` | extermal/dflash/dflash/model.py:277-294 | so drafting candidates, verifying them on the sparse branch and drawing the bonus scores like sampling from the target alone |
| `SampledGenerate.Run.RunIsPlain` | extermal/dflash/dflash/model.py:233-305 | from any text, the expectation of every score of the finished output is that of sampling one token at a time |
| `SampledGenerate.Run.SampledOutputHasTargetLaw` | extermal/dflash/dflash/model.py:180-310 | the same for the whole run from the prompt: block size, draft, stop set and length limit do not change the law of the output |
| `SparseBlock.CandidateRun.RunIsFull` | extermal/dflash/dflash/model.py:233-305 | a run whose rounds all draft candidates scores, from every text, like the run on the full rows |
| `SparseBlock.CandidateRun.CandidateOutputHasTargetLaw` | extermal/dflash/dflash/model.py:180-310 | so its output has the law of plain sampling from the target too |
| `SampledRounds.RoundIsBlock` | extermal/dflash/dflash/model.py:237-303 | with the target rows as laws and given random numbers, a round of the executable loop emits exactly the outcome of the block whose law is computed, and goes on with the text the block scores |
| `InverseDraw.PickEvent` | extermal/dflash/dflash/model.py:124-124 | a token drawn from a row by one uniform number comes up exactly in a cell as long as its probability |
| `SampledRounds.RoundEvent` | extermal/dflash/dflash/model.py:101-124 | the executable round, verifying with uniforms `u` and drawing the bonus by `v`, emits `k` drafted tokens and bonus `t` exactly for `u` in a box as large as the count weight of `k` and `v` in a cell as long as the probability of `t` |
| `SamplingFilter.NucleusKeepsShortestPrefix` | extermal/dflash/dflash/model.py:60-65 | top-p keeps, in descending order, the shortest non-empty prefix of mass at least `top_p`, renormalized with ratios preserved; the rest is zero |
| `SamplingFilter.NucleusSamplable` | extermal/dflash/dflash/model.py:60-65 | the kept mass divided by is at least `top_p` |
| `SamplingFilter.SamplingProbsIsLaw` | extermal/dflash/dflash/model.py:46-69 | the result is non-negative, sums to one and vanishes outside the top-k ids |
| `SamplingFilter.SamplingProbsKeepNucleus` | extermal/dflash/dflash/model.py:46-69 | with top-k and top-p together, the shortest descending prefix of the selected ids with mass `top_p` keeps its softmax ratios, divided by its mass, and every other id has probability zero |
| `SamplingFilter.SamplingProbsFollowLogits` | extermal/dflash/dflash/model.py:46-69 | in terms of the logits alone: ids with positive probability have the ratios of `exp(logit / temperature)`, and without filters every probability is that exponential divided by the sum of all of them |
| `DecodeLimits.Limits.CommitExtend` | extermal/dflash/dflash/model.py:295-303 | one more emitted token changes what a round commits only when the round was not finished before it |
| `GenerateLoop.CommittedPrefix` | extermal/dflash/dflash/model.py:293-303 | what a round commits is a non-empty prefix of the verified block, within the length limit |
| `GenerateLoop.Decoder.constructor` | extermal/dflash/dflash/model.py:192-232 | prefill leaves the target cache at the prompt and the first token in place |
| `GenerateLoop.Decoder.Propose` | extermal/dflash/dflash/model.py:237-268 | the draft sees the features of exactly the committed text, and its cache is cropped back to them |
| `GenerateLoop.Decoder.Write` | extermal/dflash/dflash/model.py:293-294 | the accepted block and the bonus token are written in bounds behind the committed text |
| `GenerateLoop.Decoder.Commit` | extermal/dflash/dflash/model.py:295-303 | at least one token is committed, at most the block, cut at the first stop token and the limit |
| `GenerateLoop.Decoder.Verify` | extermal/dflash/dflash/model.py:269-308 | one target call, the verdict, the commit and the crop leave the target cache equal to the committed text |
| `GenerateLoop.Decoder.Round` | extermal/dflash/dflash/model.py:233-308 | a round keeps `output_ids`, both caches and the hidden states consistent and appends exactly what the specification of the round emits |
| `GenerateLoop.Decoder.Run` | extermal/dflash/dflash/model.py:233-310 | the loop terminates and returns the specified text for any verification rule |
| `GenerateLoop.Generate` | extermal/dflash/dflash/model.py:180-310 | the whole function against the specification `Models.Decode` |
| `GreedyDecoding.GreedyEmission` | extermal/dflash/dflash/model.py:289-292 | every greedily emitted token is the target's own next token |
| `GreedyDecoding.AutoregressiveSplit` | extermal/dflash/dflash/model.py:295-303 | plain decoding can be advanced by several tokens at once as long as none but the last is a stop token |
| `GreedyDecoding.GreedyCommit` | extermal/dflash/dflash/model.py:295-303 | what is committed of a greedy emission is a run of the target's next tokens without inner stop token |
| `GreedyDecoding.DecodeIsAutoregressive` | extermal/dflash/dflash/model.py:233-310 | from any text the loop yields plain greedy decoding, for every draft, block size and stop set |
| `GreedyDecoding.GreedyOutput` | extermal/dflash/dflash/model.py:180-310 | the same from the prompt |
| `GreedyDecoding.GreedyRound` | extermal/dflash/dflash/model.py:289-294 | a round emits the drafted tokens that agree with the target before the first that does not, and the target's own next token |
| `GreedyDecoding.AdvancesAreRounds` | extermal/dflash/dflash/model.py:289-307 | the acceptance lengths add up to the output round by round: each is what the length limit and the first stop token leave of those tokens |
| `GreedyDecoding.GenerateGreedy` | extermal/dflash/dflash/model.py:180-324 | the executable run returns the prompt followed by plain greedy decoding, in terms of the target alone, and the acceptance lengths of its rounds |
| `CacheRollback.RollbackEqualsNeverSpeculating` | extermal/dflash/dflash/model_mlx.py:560-601 | state and convolution window after rollback equal those of feeding only the accepted tokens, if and only if the kernel is at least two wide |
| `CacheRollback.InputsSplit` | extermal/dflash/dflash/model_mlx.py:567-571 | the inputs a layer sees for two blocks in turn are those for their concatenation |
| `CacheRollback.ForwardInTurn` | extermal/dflash/dflash/model_mlx.py:560-600 | for kernels of two and wider a block leaves the layer as its tokens do one after the other |
| `CacheRollback.Target.Call` | extermal/dflash/dflash/model_mlx.py:560-606 | a call advances every layer cache to the longer text and captures the recurrent layers |
| `CacheRollback.Target.Rollback` | extermal/dflash/dflash/model_mlx.py:628-653 | after rollback every layer cache is the one of the text without the rejected tokens; the capture assertion holds |
| `CacheRollback.Target.TrimRecent` | extermal/dflash/dflash/model_mlx.py:489-504 | the same for models whose caches can all be trimmed |
| `MlxGenerate.RetainedExactly` | extermal/dflash/dflash/model_mlx.py:699-700 | the slice `[-limit:]` keeps the last `limit` hidden states exactly when `limit` is positive |
| `MlxGenerate.RetainedAppend` | extermal/dflash/dflash/model_mlx.py:695-700 | dropping old states chunk by chunk keeps what dropping them at the end would |
| `MlxGenerate.PrefillTarget` | extermal/dflash/dflash/model_mlx.py:685-710 | chunked prefill feeds the whole prompt and returns the last row, the retained states and their offset, for every step size; it raises exactly for non-positive ones |
| `MlxGenerate.VerifiedFollows` | extermal/dflash/dflash/model_mlx.py:832-844 | as many drafted tokens are accepted as agree with the target before the first that does not; they and the bonus are the target's own next tokens |
| `MlxGenerate.EmitGreedy` | extermal/dflash/dflash/model_mlx.py:844-871 | cutting at `max_tokens` and at the first end token keeps the output equal to plain decoding |
| `MlxGenerate.Stream.Propose` | extermal/dflash/dflash/model_mlx.py:800-817 | the block is what the draft proposes from the retained states of all tokens but the last; its offset is then `prompt.size + n - 1`, so the trim of the draft cache never acts |
| `MlxGenerate.Stream.Verify` | extermal/dflash/dflash/model_mlx.py:818-844 | the accepted count is the number of drafted tokens that agree before the first that does not, the verified tokens are these and the target's next one, and the target cache holds the whole block |
| `MlxGenerate.Stream.Emit` | extermal/dflash/dflash/model_mlx.py:845-884 | the response carries the verified tokens up to the budget and the first end token, and the text stays plain greedy decoding |
| `MlxGenerate.Stream.Settle` | extermal/dflash/dflash/model_mlx.py:886-892 | rollback leaves the target cache at the committed text and the hidden states at what the draft has not seen |
| `MlxGenerate.Stream.Round` | extermal/dflash/dflash/model_mlx.py:795-892 | every round keeps all of this and adds a token |
| `MlxGenerate.Stream.Close` | extermal/dflash/dflash/model_mlx.py:894-904 | the last response reports "stop" exactly when the text ends in an end token |
| `MlxGenerate.StreamGenerate` | extermal/dflash/dflash/model_mlx.py:726-907 | the stream yields plain greedy decoding up to the budget, in responses of which each holds, cut by budget and end token, the drafted tokens that agree and the target's next one; the last one tells stop from length |
| `SampledStream.StreamCommits` | extermal/dflash/dflash/model_mlx.py:844-871 | what a round of the MLX stream appends is what the other loop commits under the limits prompt plus `max_tokens` |
| `SampledStream.StreamIsRun` | extermal/dflash/dflash/model_mlx.py:795-892 | from any emitted tokens, the expectation of every score of the sampled stream is that of plain sampling |
| `SampledStream.SampledStreamHasTargetLaw` | extermal/dflash/dflash/model_mlx.py:726-907 | the same for the whole sampled stream, first token included |
| `WeightChunks.SplitWeightChunks` | verl/verl/checkpoint_engine/base.py:495-521 | the generator loop yields the chunks of `Split` |
| `WeightChunks.MergeWeightChunks` | verl/verl/checkpoint_engine/base.py:524-563 | the merge loop with its assertions yields `Merge` |
| `WeightChunks.MergeRest` | verl/verl/checkpoint_engine/base.py:548-563 | the remaining chunks of a wide weight complete its buffer |
| `WeightChunks.MergeSplit` | verl/verl/checkpoint_engine/base.py:495-563 | merging the split chunks raises nothing and gives the weights that have any bytes |
| `WeightChunks.MergeSplitIsIdentity` | verl/verl/checkpoint_engine/base.py:507-563 | split and merge are the identity exactly on lists without zero-byte weights |
| `BucketPacking.SplitWellSplit` | verl/verl/checkpoint_engine/base.py:510-521 | chunks of distinctly named weights fit a bucket, and one followed by another of its weight fills it |
| `BucketPacking.PlaceLayout` | verl/verl/checkpoint_engine/nccl_checkpoint_engine.py:252-279 | one iteration of the packing loop keeps the layout, and both assertions hold when a chunk is placed |
| `BucketPacking.BucketsLayout` | verl/verl/checkpoint_engine/nccl_checkpoint_engine.py:248-294 | no bucket overflows, names in a bucket are distinct, only the last bucket can be empty |
| `BucketPacking.RangesDisjoint` | verl/verl/checkpoint_engine/nccl_checkpoint_engine.py:276-279 | chunks of a bucket occupy disjoint byte ranges inside it |
| `BucketPacking.PackMonotone` | verl/verl/checkpoint_engine/nccl_checkpoint_engine.py:252-271 | a closed bucket never changes again |
| `BucketPacking.BucketsAreFull` | verl/verl/checkpoint_engine/nccl_checkpoint_engine.py:252-271 | a bucket is closed only when the next chunk, the first of the next bucket, does not fit any more |
| `BucketPacking.BucketsKeepOrder` | verl/verl/checkpoint_engine/nccl_checkpoint_engine.py:250-294 | the buckets hold all chunks in order |
| `BucketPacking.BucketsRebuildWeights` | verl/verl/checkpoint_engine/base.py:495-563 | merging the chunks of all buckets gives exactly the non-empty weights |
| `BucketPacking.WriteHolds` | verl/verl/checkpoint_engine/nccl_checkpoint_engine.py:276-279 | copying a chunk behind the others keeps them readable |
| `BucketLoop.SendBuckets` | verl/verl/checkpoint_engine/nccl_checkpoint_engine.py:244-294 | the loop on two buffers posts the buckets in order, each intact in the posted buffer, exactly the last one marked last |
| `BucketSender.FillInv` | verl/verl/checkpoint_engine/nixl_checkpoint_engine.py:393-422 | filling keeps the sender's invariant and leaves the buffer in flight alone |
| `BucketSender.PostInv` | verl/verl/checkpoint_engine/nixl_checkpoint_engine.py:402-414 | posting announces the next bucket of the packing, lying intact in the send buffer |
| `BucketSender.FillAssertions` | verl/verl/checkpoint_engine/nixl_checkpoint_engine.py:416-417 | the assertions before a fill hold whenever the loop gets there |
| `BucketReceiver.ViewIsChunk` | verl/verl/checkpoint_engine/nixl_checkpoint_engine.py:484-487 | every view into the current bucket is the chunk the sender packed |
| `BucketReceiver.ReceiveKeeps` | verl/verl/checkpoint_engine/nixl_checkpoint_engine.py:479-493 | receiving into the other buffer leaves the current bucket alone |
| `BucketReceiver.YieldedPrefix` | verl/verl/checkpoint_engine/nixl_checkpoint_engine.py:468-515 | what a rank has yielded is a prefix of all chunks, and all of them after the last bucket |
| `NixlTopology.ChainNeedsTwoRollouts` | verl/verl/checkpoint_engine/nixl_checkpoint_engine.py:288-331 | the wiring is a valid chain exactly when there is a trainer and at least two rollout workers |
| `NixlTopology.OneRolloutHasTooManySuccessors` | verl/verl/checkpoint_engine/nixl_checkpoint_engine.py:303-303 | with one rollout worker the slice from `-0` is the whole list |
| `NixlChain.MoveKeepsSelf` | verl/verl/checkpoint_engine/nixl_checkpoint_engine.py:445-519 | every step of a rank keeps its own invariant |
| `NixlChain.MoveKeepsUp` | verl/verl/checkpoint_engine/nixl_checkpoint_engine.py:190-232 | and that of the link it reads from |
| `NixlChain.MoveKeepsDown` | verl/verl/checkpoint_engine/nixl_checkpoint_engine.py:156-174 | and that of the link it serves |
| `NixlChain.RunKeepsInv` | verl/verl/checkpoint_engine/nixl_checkpoint_engine.py:390-519 | the invariant of the whole chain holds in every run of any length |
| `NixlChain.RankYieldsPrefix` | verl/verl/checkpoint_engine/nixl_checkpoint_engine.py:445-519 | under every interleaving each rank yields a prefix of the sender's chunks, and all of them when it is done |
| `NixlChain.RankRebuildsWeights` | verl/verl/checkpoint_engine/nixl_checkpoint_engine.py:436-443 | a rank that is done has rebuilt exactly the sender's non-empty weights |
| `NixlChain.UnreadBucketIsIntact` | verl/verl/checkpoint_engine/nixl_checkpoint_engine.py:403-408 | an announced, unread bucket lies intact in the buffer its message names |
| `NixlChain.UnreadBucketIsUntouched` | verl/verl/checkpoint_engine/nixl_checkpoint_engine.py:470-500 | and no step of any rank touches it before it has been read |
| `NixlChain.YieldedViewIsStable` | verl/verl/checkpoint_engine/nixl_checkpoint_engine.py:484-487 | while a rank yields, no step changes its buffer, so every view is the sender's chunk |
| `NixlChain.WaitNextSteps` | verl/verl/checkpoint_engine/nixl_checkpoint_engine.py:170-174 | a read notification carries the key awaited, so that assertion never fails |
| `NixlChain.NoDeadlock` | verl/verl/checkpoint_engine/nixl_checkpoint_engine.py:390-519 | every reachable state that is not final has an enabled step |
| `NixlChain.RunIsBounded` | verl/verl/checkpoint_engine/nixl_checkpoint_engine.py:390-519 | every run takes a bounded number of steps |
| `NixlChain.StuckRunHasDelivered` | verl/verl/checkpoint_engine/nixl_checkpoint_engine.py:390-519 | so a run that cannot go on has finished the sender and rebuilt the weights on every rank |
| `NcclBroadcast.MoveKeepsSelf` | verl/verl/checkpoint_engine/nccl_checkpoint_engine.py:307-361 | every step of a receiving rank keeps its invariant |
| `NcclBroadcast.StepKeeps` | verl/verl/checkpoint_engine/nccl_checkpoint_engine.py:244-361 | every step of the group keeps the invariant |
| `NcclBroadcast.RankYieldsPrefix` | verl/verl/checkpoint_engine/nccl_checkpoint_engine.py:307-361 | under every interleaving each rank yields a prefix of the sender's chunks, and all of them when it is done |
| `NcclBroadcast.RankRebuildsWeights` | verl/verl/checkpoint_engine/nccl_checkpoint_engine.py:298-305 | a rank that is done has rebuilt exactly the sender's non-empty weights |
| `NcclBroadcast.BroadcastBufferIsUntouched` | verl/verl/checkpoint_engine/nccl_checkpoint_engine.py:255-279 | the buffer being filled is never the one in flight, and the one in flight does not change |
| `NcclBroadcast.YieldedViewIsStable` | verl/verl/checkpoint_engine/nccl_checkpoint_engine.py:345-361 | while a rank yields, no step changes its buffer |
| `NcclBroadcast.NoDeadlock` | verl/verl/checkpoint_engine/nccl_checkpoint_engine.py:244-361 | every reachable state that is not final has an enabled step, even when the collective waits for all ranks |
| `NcclBroadcast.RunIsBounded` | verl/verl/checkpoint_engine/nccl_checkpoint_engine.py:244-361 | every run takes a bounded number of steps |
| `NcclBroadcast.StuckRunHasDelivered` | verl/verl/checkpoint_engine/nccl_checkpoint_engine.py:244-361 | so a run that cannot go on has rebuilt the weights on every rank |
| `ProducerFlowControl.FlowControl.ShouldPause` | extermal/SpecForge/specforge/runtime/control_plane/flow_control.py:93-114 | the latch and its counters after a check |
| `ProducerFlowControl.HeldBackAbove` | extermal/SpecForge/specforge/launch.py:1185-1198 | a worker is surely held back exactly above `high - 1` in flight, or above `high` when the low watermark equals it |
| `ProducerFlowControl.PausesOnBytes` | extermal/SpecForge/specforge/runtime/control_plane/flow_control.py:93-114 | on bytes alone, whatever the latch and the references, the policy pauses if and only if the bytes reach their high watermark and lie above the low one |
| `ProducerFlowControl.PausedSinceHigh` | extermal/SpecForge/specforge/runtime/control_plane/flow_control.py:93-114 | over any readings none of which is high and low at once, the policy is paused if and only if no low reading followed the last high one |
| `ProducerFlowControl.LatchReleasesBelowWindow` | extermal/SpecForge/specforge/launch.py:1021-1039 | watermarks accepted at start-up let the policy resume once less than a window is in flight and the bytes are low |
| `ProducerLedger.Driver.Reconcile` | extermal/SpecForge/specforge/launch.py:1069-1081 | the popping loop computes the specified books and raises exactly when they cannot match |
| `ProducerLedger.Driver.PublishRefs` | extermal/SpecForge/specforge/launch.py:1090-1127 | publishing with hard cap and cleanup against the specification `Publish` |
| `ProducerLedger.Transact` | extermal/SpecForge/specforge/launch.py:375-402 | on an error exactly the untouched suffix is aborted |
| `ProducerLedger.ReconcileKeeps` | extermal/SpecForge/specforge/launch.py:1069-1081 | with exact books reconciling never raises and gives the bytes of published, unacknowledged references |
| `ProducerLedger.PublishKeeps` | extermal/SpecForge/specforge/launch.py:1090-1127 | a publication that does not stop half-way keeps the books exact and within the hard cap |
| `ProducerLedger.PublishConserves` | extermal/SpecForge/specforge/launch.py:1090-1127 | every reference of a batch is published, aborted or lost, once |
| `ProducerLedger.PublishOutcome` | extermal/SpecForge/specforge/launch.py:1090-1127 | with exact books a batch is refused if and only if it would take the unacknowledged bytes past the hard cap; of any other the channel holds what it accepted, and only a batch accepted as a whole does not raise |
| `ProducerLedger.BrokenPublicationIsUntracked` | extermal/SpecForge/specforge/launch.py:1120-1127 | after a publication that broke off the books are exact if and only if nothing was transferred; otherwise they are short by the transferred sizes |
| `ProducerLedger.BrokenBooksMatchUpTo` | extermal/SpecForge/specforge/launch.py:1069-1127 | such books keep matching if and only if the consumer has acknowledged at most the published references less the transferred ones; until then no batch is lost, beyond it every further batch is |
| `ProducerLedger.BatchIsLost` | extermal/SpecForge/specforge/launch.py:1069-1094 | a batch is lost exactly when the books do not match the channel |
| `Producer.FatesCover` | extermal/SpecForge/specforge/runtime/control_plane/controller.py:139-201 | a capture ends with every leased prompt captured, requeued or failed |
| `Producer.StepConserves` | extermal/SpecForge/specforge/launch.py:1090-1299 | every step keeps each prompt in exactly one place |
| `Producer.StepKeepsBooks` | extermal/SpecForge/specforge/launch.py:1069-1165 | every step keeps the books exact unless a publication stops half-way |
| `Producer.StepBounded` | extermal/SpecForge/specforge/launch.py:1180-1296 | references in flight plus those allowed captures may bring stay below the ceiling |
| `ProducerRuns.InFlightIsBounded` | extermal/SpecForge/specforge/launch.py:1185-1248 | in every run references in flight exceed the go-ahead mark by at most workers times slots (or rounds of a batch, if fewer) times lease |
| `ProducerFlowControl.EqualMarksToggle` | extermal/SpecForge/specforge/runtime/control_plane/flow_control.py:93-114 | with equal marks the latch flips at every check at the watermark |
| `ProducerScenarios.EqualMarksOvershoot` | extermal/SpecForge/specforge/launch.py:1185-1248 | with equal watermarks and as many rounds in a batch as slots, in every configuration, some run reaches the high watermark plus workers times slots times lease |
| `ProducerScenarios.BoundBelowHighIff` | extermal/SpecForge/specforge/launch.py:1185-1248 | captures come on top of at most `high - 1` references in every run if and only if the low watermark lies below the high one or a batch has fewer rounds than a worker has slots |
| `ProducerRuns.PauseLeavesWindow` | extermal/SpecForge/specforge/launch.py:1185-1198 | when a worker pauses, a whole optimizer window has been published on top of what the consumer had acknowledged when the worker last stood at its loop top, whatever ran in between |
| `ProducerProgress.StarvingConsumerIsServed` | extermal/SpecForge/specforge/launch.py:1180-1296 | in every run without broken publication: while the consumer lacks a window and prompts are pending, an active worker whose captures have not failed or outgrown the hard cap reaches a publication by itself, without any consumer step and whatever check it is in the middle of |
| `ProducerRuns.PromptsAreConserved` | extermal/SpecForge/specforge/launch.py:1063-1299 | in every run each prompt is pending, failed, inside a capture, published, aborted or lost, once |
| `ProducerRuns.BooksAreExact` | extermal/SpecForge/specforge/launch.py:1069-1127 | as long as no publication stops half-way, nothing is lost, `resident_bytes` is exact and within the hard cap |
| `ProducerRuns.SingleWorkerLosesNothing` | extermal/SpecForge/specforge/launch.py:1069-1127 | with one worker nothing is lost in any run, broken publications included |
| `ProducerScenarios.TwoWorkersLoseABatch` | extermal/SpecForge/specforge/launch.py:1090-1127 | with two workers or more and a round to submit in, in every configuration, some run loses a batch |
| `ProducerScenarios.LosesNothingIff` | extermal/SpecForge/specforge/launch.py:1090-1127 | so no run loses a reference if and only if there is at most one worker, or no round to submit in |
| `ProducerRuns.SuccessIsComplete` | extermal/SpecForge/specforge/launch.py:1345-1426 | an unstopped success has published every prompt of every epoch; nothing is pending, leased, failed, held, aborted or lost |
| `ProducerOutcome.CloseOutcome` | extermal/SpecForge/specforge/launch.py:1390-1425 | in every run that comes to its end, closing reports success if and only if it was stopped or no prompt failed and none is pending, and failure otherwise |
| `ProducerOutcome.JoinOutcome` | extermal/SpecForge/specforge/launch.py:1338-1379 | in every run, joining the workers fails if and only if one crashed, or one was dropped while prompts are left and nobody asked to stop; otherwise the next batch follows, or the end when stopped |
| `ProducerOutcome.FailedMetTerminal` | extermal/SpecForge/specforge/runtime/control_plane/controller.py:139-173 | in every run exactly the prompts that met a terminal failure in some capture count as failed |
| `ProducerOutcome.EarlyExitMeansDrained` | extermal/SpecForge/specforge/launch.py:1250-1260 | in every run, while a batch is worked on, a worker that left its loop without being dropped, stopped or out of rounds left a pool with nothing pending and nothing leased; no peer brings a prompt back after that |
| `ProducerOutcome.StoppedWorkerSubmitsNothing` | extermal/SpecForge/specforge/launch.py:1180-1248 | a worker at its loop top when the stop is requested submits no capture any more, in whatever run follows |
| `ProducerOutcome.SomeRunSucceeds` | extermal/SpecForge/specforge/launch.py:1345-1426 | in every configuration with a worker and a round, some run publishes a non-empty batch and closes unstopped with success |
| `ProducerOutcome.StoppedRunCloses` | extermal/SpecForge/specforge/launch.py:1345-1425 | from every start some run is stopped and still closes with success |
| `PipelineShards.CandidateIff` | verl/verl/model_merger/megatron_model_merger.py:83-87 | a middle size is a candidate exactly when it reaches the even spread and leaves two layers for the ends |
| `PipelineShards.EverySplitHasALargeShard` | verl/verl/model_merger/megatron_model_merger.py:57-66 | no split has all shards below `ceil(layers / ranks)` |
| `PipelineShards.FairIsOptimal` | verl/verl/model_merger/megatron_model_merger.py:57-66 | so no split has a smaller fullest shard than the one returned |
| `PipelineShards.FiveLayersOnFourRanks` | verl/verl/model_merger/megatron_model_merger.py:68-98 | the exact success condition fails for five layers over four ranks |
| `PipelineShards.GetDynamicPipelineShards` | verl/verl/model_merger/megatron_model_merger.py:57-98 | the errors, exactly when the search succeeds, that the result is positive, complete and has the smallest possible maximum, and which rank gets which size |
| `PipelineShards.ArrangedIsUnique` | verl/verl/model_merger/megatron_model_merger.py:83-98 | with its sum, that arrangement (even middle, last end equal to the first or one more) leaves one list of sizes |
| `QkvSplit.SplitQkv` | verl/verl/model_merger/megatron_model_merger.py:330-354 | the errors, exactly when the split works, and which row of q, k and v is which row of the tensor |
| `QkvSplit.FirstChunkTooLong` | verl/verl/model_merger/megatron_model_merger.py:343-349 | when the key-value heads do not divide the key rows the first chunk does not split |
| `QkvSplit.SplitIsReversible` | verl/verl/model_merger/megatron_model_merger.py:343-354 | re-interleaving q, k and v restores the tensor |
| `DataDispatch.FallbackIsUnbind` | verl/verl/protocol.py:727-734 | the padded fallback yields the same rows as unbinding |
| `DataDispatch.NestedRows` | verl/verl/utils/tensordict_utils.py:173-174 | a jagged tensor built from a non-empty list of rows has these rows |
| `NestedTensors.FromListRows` | verl/verl/utils/tensordict_utils.py:162-182 | the same for rows that are matrices, ragged in either dimension |
| `NestedTensors.FallbackRestores` | verl/verl/protocol.py:727-734 | for matrices the padded fallback restores a row if and only if the first dimension is the ragged one, or the row is as wide as the widest and no higher than wide |
| `NestedTensors.FallbackKeepsPadding` | verl/verl/protocol.py:727-734 | two rows ragged in the second dimension of which the shorter one keeps its padding |
| `DataDispatch.ConcatTables` | verl/verl/utils/tensordict_utils.py:208-218 | concatenation succeeds exactly when every nested field unbinds (and there is a row to build it from), and then appends the rows of every field |
| `DataDispatch.PadToDivisor` | verl/verl/protocol.py:74-99 | padding succeeds if and only if the size is a multiple already or every nested field unbinds; row `i` of the result is row `i mod len`, and an empty batch is returned as it is |
| `DataDispatch.SliceDoesNotAppend` | verl/verl/protocol.py:88-93 | a batch with a nested field that does not unbind can be sliced, but the slice cannot be appended |
| `DataDispatch.DeepRowsDoNotPad` | verl/verl/protocol.py:88-93 | three rows of such a field, padded for two workers |
| `DataDispatch.ChunkwiseIsWhole` | verl/verl/protocol.py:893-932 | where chunking works, running a row-wise function on every chunk and concatenating works exactly when the outputs unbind, and is running it on the batch |
| `DataDispatch.Dispatch` | verl/verl/protocol.py:74-106 | pad, chunk, compute, concatenate, unpad succeeds if and only if padding does, the library chunks the nested fields there are, and the outputs unbind; it then computes the function on exactly the original rows |
| `SamplerShards.PaddedIsCyclic` | extermal/SpecForge/specforge/launch.py:234-238 | padding extends the order cyclically |
| `SamplerShards.ShardsInterleave` | extermal/SpecForge/specforge/launch.py:219-239 | every rank gets `ceil(size / dp)` indices, and the ranks interleave to the cyclic extension |
| `SamplerShards.ShardsAreExtension` | extermal/SpecForge/specforge/launch.py:219-239 | the index lists of all ranks together hold exactly the entries of the cyclic extension |
| `SamplerShards.CoverageIsBalanced` | extermal/SpecForge/specforge/launch.py:219-239 | in the lists of all ranks together every sample occurs, and no sample more than once more often than another |
| `Reservoir.LoadPromptMessages` | scripts/benchmark_ar_baseline.py:43-71 | the loop keeps the prompts at the selected positions; it raises exactly when none is selected |
| `Reservoir.SelectedDistinct` | scripts/benchmark_ar_baseline.py:61-67 | the selected positions are distinct |
| `Reservoir.WeightIsAverage` | scripts/benchmark_ar_baseline.py:61-67 | the selection weight of a position is the average of its weights after the next draw |
| `Reservoir.SlotsAreSelected` | scripts/benchmark_ar_baseline.py:61-67 | after the first `k` rows, the positions the loop keeps are those of the replacing recursion |
| `Reservoir.SelectionIsUniform` | scripts/benchmark_ar_baseline.py:61-67 | over all draw sequences the loop keeps each of `n` prompts in a `k / n` fraction |
| `SummaryReward.LcsLength` | scripts/vn_summarization_reward.py:12-21 | the two-row table computes the cell recurrence |
| `SummaryReward.LcsIsMaximum` | scripts/vn_summarization_reward.py:12-21 | which is the maximum length of a common subsequence |
| `SummaryReward.ComputeScore` | scripts/vn_summarization_reward.py:24-32 | the score is the harmonic mean of precision and recall of a longest common subsequence, zero on an empty list, an error on a foreign source |
| `SummaryReward.ScoreIsHarmonicMean` | scripts/vn_summarization_reward.py:28-32 | for non-empty lists the score times both lengths together is twice the length of every longest common subsequence |
| `SummaryReward.ScoreRange` | scripts/vn_summarization_reward.py:24-32 | the score lies between zero and one, is one exactly on equal non-empty lists, and is symmetric |

## Left out

- SampledGenerate.Run.SampledOutputHasTargetLaw: states the law as expectations over the draws of every round; which random numbers make the executable round emit what is `SampledRounds.RoundEvent`, but no probability space over whole sequences of random numbers is built.
- SampledRounds.RoundIsBlock: takes the verification of the round as given by its accepted count and a bonus token; the case in which a random number draws the bonus is `SampledRounds.RoundEvent`.
- SpeculativeBlock.RejectionSampleEvent: covers full draft rows; candidate rows reach it through `SparseBlock.SparseSampleIsDense`.
- SpeculativeBlock.Block.Exact: covers full draft rows; for candidate rows see `SparseBlock.CandidateBlock.Exact`.
- RejectionSampling.CountEvent: the law of the uniform random numbers is the volume of boxes; measurability beyond boxes is not needed and not modelled.
- GenerateLoop.Generate: the target and draft networks are functions of the tokens they are given and of the features they have seen; attention masks, position embeddings and batch sizes above one are not modelled.
- CacheRollback.Target.Rollback: numerics of the gated delta update are an uninterpreted step.
- CacheRollback.Target.Call: caches with explicit lengths and the masks built from them are not modelled, because the stream runs one unpadded sequence.
- CacheRollback.Target.TrimRecent: trimming drops the newest entries of a plain cache; the ring arithmetic of rotating caches is not modelled.
- MlxGenerate.StreamGenerate: the executable stream is the one with temperature zero, the sampled law being that of `SampledStream`; detokenization and timing fields are omitted.
- SampledStream.SampledStreamHasTargetLaw: for `block_size` at least two and `max_tokens` at least one; outside, the stream is its first token, drawn from the target.
- NixlChain.NoDeadlock: message keys are post counters instead of random identifiers; transfer errors and lost messages are not modelled.
- NcclBroadcast.NoDeadlock: subscribers that connect after the first publication are not modelled.
- ProducerLedger.Transact: the point at which the channel breaks is an input, and errors raised by the aborts themselves are not modelled.
- ProducerProgress.StarvingConsumerIsServed: gives the steps of one worker and its captures when no fault strikes and the sizes of new references are unknown; that the scheduler takes these steps is not modelled.
- ProducerRuns.SuccessIsComplete: prompts are numbers; which capture call serves which prompt and the number of retries are arbitrary, and wall-clock timeouts are arbitrary failures of a worker.
- ProducerRuns.PromptsAreConserved: an abort that itself raises counts as requested; a capture that raises after writing references is the worker's own concern and not modelled.
- DataDispatch.FallbackIsUnbind: rows are lists along the ragged dimension, which is their first; for matrices ragged in the second dimension see `NestedTensors.FallbackRestores`.
- DataDispatch.ChunkwiseIsWhole: chunks are equal slices, the case without padding enabled, where their number must divide the batch; jagged fields are cut the same way where the library takes them.
- DataDispatch.Dispatch: non-empty batches, since dividing zero rows among workers is left to the tensor library; meta information, metrics and device placement are not modelled.
- QkvSplit.SplitQkv: rows are opaque; gate/up and layer-norm splits are plain cuts.
- Reservoir.LoadPromptMessages: decoding of rows into conversations is an input; batches of the file are concatenated.
- SummaryReward.ComputeScore: Unicode normalization and tokenization; word lists are inputs.
- Floating-point rounding everywhere: reals.
- The Mooncake, HCCL and Kimi engines, the consumer side of the online pipeline, dataset converters, and everything that is input and output only.
