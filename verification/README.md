# Streaming mixture-of-experts runtime: verified model

A Dafny model of a runtime that streams a mixture-of-experts transformer from disk, and of the tools that build its
files. `dafny verify dfyconfig.toml` checks everything.

**Attention and walks.** `Mla` states causal attention and the absorbed form over the reals and proves them equal;
`AttentionLaws` says what their pieces mean: softmax weights, rotary scores, normalised rows, head slices. `MlaLoops`,
`MlaDecode`, `MlaExpanded` and `MlaPrefill` are the four kernels with their buffers, each proved against the same
causal rows. `Forward` treats activations as opaque values, so that token-major and layer-major walks agree exactly
and not up to rounding; `ForwardLoops` are the walks over mutable states, `RealForward` joins them with the kernels
and says what one layer adds to its input, and `SelfSpec` is the speculation cycle: draft, verify in one block,
truncate, commit.

**Expert cache.** `ExpertStore` and `GgufIndex` say which bytes one load delivers. `ExpertCache` is the cache class
with its two-way map, slots in flight, reads that fail and finish in any order, and pins; `CacheModel` holds its
invariant and elementary changes, `BatchPlan` the reservation phase of a batch as a value. `LruStack` and `CacheRuns`
describe whole runs, `Transparency` what a cached expert shows. `PinChoice`, `LayerPins`, `PinBudget` and `PinPilot`
are the layer-pin policy: choice with hysteresis, the slot budget, and activation after prefill.

**Selection.** `TopK`, `Router` and `RouterLoops` are the grouped router and its masked copy, `RouterMeaning` reads
their routes off the scores; `ReapMask` the greedy mask under nested caps; `MixedBitPlan` the bit-width knapsack;
`DynamicSkip` the token classifier, the prefill cursor and the keep decision.

**Formats.** `Q5`, `MachineWords`, `Quantize`, `Q5Matvec` and `Q8` are packing, rounding and the quantised products;
`Compaction` and `SparseBinding` the store compaction and the loader's sidecar check; `ShardScheduler` the conversion
schedule. `Wrappers`, `Lists`, `Indexing` and `Vectors` are shared helpers.

Four properties a reader might expect do not hold of the code. The model follows the code, shows an input for each,
and proves exactly when the property does hold. The router can select an expert outside the kept groups, because
masked scores become zero (`Router.OutsidePickedIff`). The prompt classifier does not protect every structural token,
although its header says so (`DynamicSkip.StructuralContentIff`). A batched load without pins can evict a resident
member of its own batch (`BatchPlan.EvictsOwnMemberIff`). And a store compacted by a mask of every record does not
open again, because the loader refuses an empty index (`SparseBinding.CompactedOpensIff`).

Two checks of the code are proved unreachable and therefore have no branch in the model: a missing choice at the end
of the masked router, and the byte-budget assertion of the mixed-bit planner.

## Model

| member | source | states |
|---|---|---|
| Vectors.DotOfComb | src/mla_compressed_state.c:144-155 | a dot product with a mixture of rows is the mixture of the dot products |
| Vectors.MatVecLoop | src/ops.c:53-66 | the product loop computes one dot product per row |
| Mla.DenominatorPositive | src/ops.c:171-175 | the softmax denominator is positive for every positive `exp`, so no quotient divides by zero |
| Mla.FoldedScore | src/mla_compressed_state.c:123-137 | folding the query through the key rows and dotting with the latent is the dot product with the expanded key |
| Mla.MixThenExpand | src/mla_compressed_state.c:144-155 | mixing latents and expanding once gives the mixture of the expanded values |
| Mla.AbsorbedHeadIsExpanded | src/mla_compressed_state.c:119-156 | one absorbed head over latents and rotary keys is the expanded head over the keys and values they stand for |
| Mla.AbsorbedIsCausal | src/mla_compressed_state.c:86-161 | for every sequence, step and shape, absorbed decode over the history is the row of causal attention, exactly over the reals |
| AttentionLaws.SoftmaxTotal | src/ops.c:171-182 | with a positive exponential the weights are positive and add up to one |
| AttentionLaws.SoftmaxOrder | src/ops.c:171-182 | with an increasing one a larger score gets a larger weight, and only then |
| AttentionLaws.SoftmaxWeighs | src/ops.c:163-182 | shifting by the maximum changes nothing: two weights stand in the ratio of the exponentials of their scores |
| AttentionLaws.WeightsUnique | src/ops.c:171-182 | positive weights with sum one and these ratios are unique |
| AttentionLaws.AttendHeadAverages | src/ops.c:162-184 | a head output averages the value rows with the softmax weights of the scaled matches of query and keys |
| AttentionLaws.AbsorbedAttends | src/mla_compressed_state.c:119-156 | the absorbed head averages the values its latents stand for, by the match of the keys they stand for |
| AttentionLaws.CausalHeadAverages | src/ops.c:160-185 | head `h` of causal row `t` averages the value rows of tokens 0 to `t`, and no entry leaves their range |
| AttentionLaws.RotaryDot | src/ops.c:89-103 | the dot product of two rotated rows is that of the raw pairs turned by the distance of the positions |
| AttentionLaws.ScoreByDistance | src/ops.c:142-153 | a score depends on the two tokens and their distance, not on where they are |
| AttentionLaws.RopeKeepsNorm | src/ops.c:89-103 | rotation keeps the norm of a row |
| AttentionLaws.RmsNormMeaning | src/ops.c:76-83 | a normalised row is the weight times a row in the direction of the input whose mean square is one, up to `eps` |
| AttentionLaws.QueryBlocks | src/ops.c:138-148 | block `h` of the query projection is the query of head `h` before rotation |
| AttentionLaws.KvBlocks | src/ops.c:141-155 | block `h` of the expanded latent is the unrotated key of head `h` followed by its value |
| MlaLoops.RmsNormLoop | src/ops.c:76-83 | the loop computes the root-mean-square normalisation |
| MlaLoops.RopeLoop | src/ops.c:89-103 | the loop writes even and odd rotated halves |
| MlaLoops.SoftmaxLoop | src/ops.c:171-182 | shift by the maximum, exponentiate, accumulate, divide: the softmax; for an exponential that turns sums into products the weights are positive, add up to one and stand in the ratio of the exponentials of the scores |
| MlaLoops.HeadLoop | src/ops.c:162-184 | score, softmax and mixing loops of one head: the average of the values, weighted by how well their keys match the query |
| MlaLoops.StoreHead | src/ops.c:176-183 | a head writes its slice of the flat buffer and leaves the other slices |
| MlaDecode.FoldLoop | src/mla_compressed_state.c:123-130 | the loop folds the query of one head through the key rows |
| MlaDecode.AbsorbedHeadLoop | src/mla_compressed_state.c:119-156 | the loops of one absorbed head, which is the head over the expanded keys and values |
| MlaDecode.DecodeCompressed | src/mla_compressed_state.c:86-161 | accepts exactly at position `len` with room and matching shape; appends one latent and one rotary row; output is absorbed attention over all rows; a refusal changes nothing |
| MlaDecode.DecodeBlock | src/mla_compressed_state.c:163-184 | the block decode appends the rows of the block and yields the serial outputs, or refuses before changing anything |
| MlaDecode.PrefillState | src/mla_compressed_state.c:52-84 | fills an empty state with exactly the rows decoding would have appended |
| MlaDecode.StepIsCausal | src/mla_compressed_state.c:86-161 | appending one input to the rows of a sequence gives the rows of the longer one and its next causal row |
| MlaDecode.CausalPrefix | src/ops.c:159-187 | a causal row does not depend on later inputs |
| MlaDecode.PrefillThenDecode | src/mla_compressed_state.c:52-161 | prefilling any prefix and decoding the rest gives the causal rows of the whole sequence |
| MlaExpanded.DecodeExpanded | src/mla_state.c:66-149 | stores the new key and value of each head and attends over them; accepts exactly the matching position and shape |
| MlaExpanded.ExpandedIsCausal | src/mla_state.c:106-143 | expanded decode over stored keys and values is the next causal row |
| MlaExpanded.CompressedEqualsExpanded | src/mla_compressed_state.c:86-161 | compressed and expanded decode agree at every step of every sequence |
| MlaExpanded.DecodeAllExpanded | src/mla_state.c:66-149 | decoding a whole sequence from an empty expanded state gives the causal rows |
| MlaPrefill.Prefill | src/ops.c:105-192 | materialised prefill writes the causal rows, for every accepted shape |
| MlaPrefill.SplitScoresAgree | src/mla_prefill_streaming.c:169-177 | scores taken as two partial dot products are those of the joined query and key |
| MlaPrefill.StreamHead | src/mla_prefill_streaming.c:141-194 | one head over all tokens writes only its slice of each row |
| MlaPrefill.ProjectRows | src/mla_prefill_streaming.c:196-200 | projecting row by row through a copied row is safe when the heads are stored in `out` itself |
| MlaPrefill.StreamingPrefill | src/mla_prefill_streaming.c:78-206 | head-streaming prefill writes the causal rows for every shape, including the one where head outputs share the output buffer |
| CompressedState.State.Init | src/mla_compressed_state.c:24-38 | refuses an empty capacity or row and an odd rotary width; otherwise an empty state |
| CompressedState.State.Truncate | src/mla_compressed_state.c:41-45 | accepts exactly lengths up to `len`; the live rows become the prefix, the buffers keep the dropped rows |
| CompressedState.State.Clone | src/exact_block_verify.c:22-26 | a copy with the same live rows in fresh buffers, or a refusal exactly when they do not fit or the capacity is not positive |
| Forward.BlockSnoc | src/exact_block_verify.c:106-215 | one more token at the end of a layer-major block is one token-major step after the block |
| Forward.LoopInterchange | src/exact_block_verify.c:66-229 | for every layer count, block and start history, layer-major and token-major walks give equal histories and activations, bit for bit |
| Forward.PrefillIsSerial | src/generate.c:151-299 | layer-major prefill of a prompt equals serial decoding when the two attention kernels agree row by row |
| RealForward.RealModelAgrees | src/mla_compressed_state.c:86-161 | over the reals the prompt kernel and the decode kernel agree row by row |
| RealForward.RealPrefillIsSerial | src/generate.c:151-299 | over the reals the prompt walk is the serial decode |
| RealForward.TokenAdds | src/generate.c:51-141 | token walk: layer `l` adds to its input the causal row of the normalised inputs up to the token, then the MLP of the normalised sum, and keeps the rows of the longer sequence |
| RealForward.BlockAdds | src/exact_block_verify.c:106-215 | the same for every token of a block, after any history |
| RealForward.PromptAdds | src/generate.c:198-288 | the same for every token of a prompt |
| RealForward.OneLayer | src/generate.c:218-225 | with an MLP that returns nothing one layer adds exactly the causal row |
| ForwardLoops.Decode | src/mla_compressed_state.c:86-161 | one decode of a layer appends its rows and refuses without change |
| ForwardLoops.ForwardToken | src/generate.c:128-149 | succeeds exactly for a known token and states with room at that position; states and logits are those of the token walk |
| ForwardLoops.ForwardBlock | src/exact_block_verify.c:66-229 | checks everything before touching a state; states, next ids and last logits are those of the layer-major walk |
| ForwardLoops.PrefillPrompt | src/generate.c:151-299 | succeeds exactly for known tokens and empty states with room; states and logits are those of the prefill walk |
| ForwardLoops.ArgMaxLoop | src/exact_block_verify.c:5-10 | the smallest index of a largest logit |
| ForwardLoops.GreedyMeaning | src/exact_block_verify.c:5-10 | no vocabulary entry has a larger logit than the greedy token, and none before it has the same |
| SelfSpec.SerialPrefix | src/self_spec_sweep.c:544-548 | histories of a prefix are prefixes of the histories of the whole |
| SelfSpec.GreedyIsSerial | src/self_spec_sweep.c:455-463 | the greedy run is the serial walk over its own tokens |
| SelfSpec.Accepted | src/self_spec_sweep.c:537-541 | the accepted length: every draft token up to it matches the verifier, the next one does not |
| SelfSpec.MatchesGreedy | src/self_spec_sweep.c:537-542 | accepted tokens are a prefix of the greedy run, and the verifier next to them continues it |
| SelfSpec.Lossless | src/self_spec_sweep.c:532-543 | for any draft, accepted tokens plus correction are the first tokens of the serial greedy run, the accepted prefix is the longest match, and its histories are the greedy ones |
| SelfSpec.CutIsPrefix | src/self_spec_sweep.c:544-548 | truncating every layer to the accepted length leaves the histories of the accepted tokens |
| SelfSpec.CloneStates | src/exact_block_verify.c:12-29 | copies all layers, or refuses exactly when the capacity is zero or a layer does not fit |
| SelfSpec.TruncateStates | src/self_spec_sweep.c:545-547 | truncates every layer; never refuses a shorter length |
| SelfSpec.AcceptLoop | src/self_spec_sweep.c:537-541 | the loop finds the accepted length |
| SelfSpec.VerifyBlock | src/self_spec_sweep.c:532-534 | the block pass leaves the serial histories and the greedy choice after every drafted token |
| SelfSpec.RollBack | src/self_spec_sweep.c:544-548 | after the roll back the states hold the histories of the accepted tokens |
| SelfSpec.Cycle | src/self_spec_sweep.c:514-553 | one cycle cannot fail; tokens, states and logits are those of the greedy run of accepted length plus one |
| SelfSpec.Baseline | src/self_spec_sweep.c:455-463 | the serial baseline is the greedy run |
| SelfSpec.GreedyCut | src/self_spec_sweep.c:564-568 | cutting the baseline states back gives the greedy states of the shorter run |
| SelfSpec.SelfSpecMain | src/self_spec_sweep.c:440-569 | prefill, baseline, speculation and comparison cannot fail: the draft starts with the greedy token, the accepted prefix is the longest match, accepted tokens and correction are the greedy run of that length after the prompt, the token check passes, and speculated and serial states hold the histories of that run |
| ExpertStore.BuildMap | src/expert_store.c:301-333 | succeeds exactly for a non-empty index with ids in range and no repeated expert, and maps each key to its record and every other key to -1 |
| ExpertStore.FindCorrect | src/expert_store.c:363-368 | a found record has the requested ids, and nothing is found exactly when there is none |
| ExpertStore.ValidateGgufSource | src/expert_store.c:271-292 | accepts exactly records whose three windows are aligned, non-empty, inside file and slot, and hold their payload |
| ExpertStore.GgufAt | src/expert_store.c:384-401 | which file byte each slot byte shows after the three reads |
| ExpertStore.LoadIdempotent | src/expert_store.c:377-402 | loading a record again changes nothing |
| GgufIndex.PartCovers | tools/index_kimi_gguf_q8.py:44-48 | the aligned window holds the whole slice and wastes less than a page on each side |
| GgufIndex.WindowsTile | tools/index_kimi_gguf_q8.py:83-89 | the three windows tile the record without gap or overlap |
| GgufIndex.Accepted | src/expert_store.c:283-291 | an indexed record passes validation if and only if no window is empty and all end inside the file |
| GgufIndex.ScatterRoundTrip | src/expert_store.c:384-401 | after the three reads the gate, up and down offsets show the original slices, byte for byte, whatever the slot held |
| GgufIndex.ThreeWindows | src/expert_store.c:384-401 | windows laid end to end: what each read shows survives the later reads |
| CacheModel.LastFree | src/expert_cache.c:61-76 | the least recently used key outside a kept set, or none when all are kept |
| CacheModel.HitSound | src/expert_cache.c:199-205 | a hit keeps the maps inverse, the contents loaded and the stamps in recency order |
| CacheModel.ReserveSound | src/expert_cache.c:291-297 | a reservation keeps coherence with one more slot in flight |
| CacheModel.PublishSound | src/expert_cache.c:333-336 | publishing a complete read keeps coherence with one slot less in flight |
| CacheModel.DropSound | src/expert_cache.c:327-332 | a failed read leaves an empty slot and keeps coherence |
| CacheModel.RotateInFlight | src/expert_cache.c:307-320 | reservations may be settled in any order |
| CacheModel.Occupancy | src/expert_cache.c:61-76 | residents and reservations fill slots one for one; they fill all exactly when no slot is empty |
| CacheModel.VictimIsLastFree | src/expert_cache.c:61-76 | with no empty slot the victim holds the least recently used key outside the kept set |
| BatchPlan.KeptFacts | src/expert_cache.c:289-294 | one eviction keeps protected keys and the order of the others, and removes only an older key |
| BatchPlan.ReservingKeeps | src/expert_cache.c:274-304 | a whole reservation phase loses no protected key, evicts only keys older than the unprotected ones it keeps, and evicts only when all slots are used |
| BatchPlan.ReservingTakes | src/expert_cache.c:275-288 | reserved keys are batch keys with a usable record |
| BatchPlan.StopsShort | src/expert_cache.c:289-290 | no victim is found only if the protected keys outnumber the slots |
| BatchPlan.ReservingServes | src/expert_cache.c:274-304 | if the slots can hold the protected keys, every usable batch key ends up resident or reserved |
| BatchPlan.ReservingNewest | src/expert_cache.c:272-304 | without pins the residents left are the newest ones, as many as the reservations leave room for, and every missing key gets a slot unless the slots run out |
| BatchPlan.EvictsOwnMemberIff | src/expert_cache.c:256-304 | without pins a batch evicts a resident member of its own if and only if, for some resident member, the residents down to it and the missing keys together exceed the slots |
| BatchPlan.BatchEvictsOwnMember | src/expert_cache.c:256-270 | it does happen: a concrete batch |
| ExpertCache.Cache.Resident | src/expert_cache.c:184-191 | reports exactly the resident keys and their slot |
| ExpertCache.Cache.PickVictim | src/expert_cache.c:61-76 | first empty slot, else the oldest slot outside pins, avoided keys and slots in flight, else none |
| ExpertCache.Cache.ReadRecord | src/expert_store.c:377-402 | a read may fail and leave anything in its slot; a complete one leaves the record bytes; other slots are untouched |
| ExpertCache.Cache.Miss | src/expert_cache.c:206-229 | a miss is served or refused exactly by record and victim; a failed read costs the evicted key only; reads, bytes and failures are counted |
| ExpertCache.Cache.Get | src/expert_cache.c:193-230 | hits refresh recency; misses evict only when no slot is empty and then the least recently used unpinned key; failures and bad ids change nothing else; a successful call hands out the bytes of a direct load; every counter is exact |
| ExpertCache.Cache.AvoidList | src/expert_cache.c:260-270 | the protected set of a batch: nothing without pins, else pins and batch |
| ExpertCache.Cache.ReserveBatch | src/expert_cache.c:272-304 | the reservation loop follows the plan, with distinct slots for distinct keys |
| ExpertCache.Cache.ReadBatch | src/expert_cache.c:309-321 | reads finish in any order, each may fail; only slots in flight change |
| ExpertCache.Cache.PublishBatch | src/expert_cache.c:323-340 | exactly the records whose reads were complete become resident, in file order, the others leave empty slots; successes, failures, reads and bytes are counted exactly |
| ExpertCache.Cache.GetMany | src/expert_cache.c:248-344 | the three phases together: residents are the plan plus the loaded keys, which are the planned keys without the failed reads; all counters are exact, coherence holds for any ids, order and failures, and without pins a resident member loses its slot exactly when the batch is too large for its place |
| ExpertCache.Cache.PinLayer | src/expert_cache.c:155-182 | a bad list changes nothing; otherwise the pins of that layer, and only they, are replaced |
| ExpertCache.Cache.ResidentHolds | src/expert_cache.c:78-86 | a resident slot holds the bytes of its record and has room for all of it |
| ExpertCache.Cache.ResidentShows | src/expert_cache.c:78-86 | a resident slot of a plain store shows the record, byte for byte |
| ExpertCache.Cache.ResidentSlices | src/expert_cache.c:78-86 | a resident slot of an indexed GGUF store shows the gate, up and down slices of the expert at the handed-out offsets |
| ExpertCache.Init | src/expert_cache.c:103-142 | refuses exactly budgets below one slot; otherwise as many slots as fit, each wide enough for every record |
| CacheRuns.Run | src/expert_cache.c:155-344 | after any sequence of calls: coherent maps, nothing in flight, every resident equal to a direct load, requests equal hits plus misses |
| CacheRuns.RunGets | src/expert_cache.c:193-230 | a served run of single gets leaves the residents and the hit count of the recency stack |
| LruStack.ResidentsAreRecent | src/expert_cache.c:193-230 | residents are the most recently requested distinct keys, as many as there are slots |
| LruStack.RecentByRecency | src/expert_cache.c:202-202 | the stack lists keys by last request |
| LruStack.ResidentIff | src/expert_cache.c:193-230 | a key is resident exactly when fewer distinct keys than slots were requested since its last request |
| LruStack.Inclusion | src/expert_cache.c:193-230 | a larger cache holds a superset after the same gets |
| LruStack.HitsMonotone | src/expert_cache.c:193-230 | a larger cache never has fewer hits on the same trace |
| Transparency.LoadedShows | src/expert_cache.c:78-86 | the parts a loaded record shows do not depend on what its slot held before: they are those of a load into a clean buffer |
| Transparency.HandOut | src/expert_cache.c:78-86 | the gate, up and down blocks handed out for a resident key are those of a direct load |
| Transparency.PlainExpert | src/expert_cache.c:78-86 | plain store: the three blocks of an expert are the file bytes at the part offsets of the record with its layer and expert id |
| Transparency.SlicedExpert | tools/index_kimi_gguf_q8.py:35-89 | indexed GGUF store: the three blocks of an expert are its slices of the gate, up and down tensors |
| PinChoice.RetainedExactly | src/gguf_q8_moe.c:94-120 | with distinct routes and no more than two old pins, hysteresis retains exactly the old pins still routed |
| PinChoice.HeaviestMeaning | src/gguf_q8_moe.c:125-131 | the fill step takes a heaviest route not chosen yet, the first one on ties |
| PinChoice.PinsForFacts | src/gguf_q8_moe.c:90-133 | the chosen pins are two distinct routes (one for a single route), retained ones first, every further one the heaviest route whose expert is not chosen yet; distinct routes always suffice |
| PinChoice.FilledAreHeaviest | src/gguf_q8_moe.c:122-131 | no route outside the pins is heavier than a filled pin, and on equal weight it comes later |
| PinChoice.PinsAreTop | src/gguf_q8_moe.c:122-131 | without hysteresis the pins are the top selection of the routes by weight, best first |
| PinChoice.RetainedAreHeaviest | src/gguf_q8_moe.c:94-120 | when an old pin is routed and not retained, the slots are full of old pins that are heavier, or as heavy and routed earlier |
| LayerPins.IsPinned | src/gguf_q8_moe.c:52-61 | reads exactly the pin of that layer and expert |
| LayerPins.RetainLoop | src/gguf_q8_moe.c:94-120 | the hysteresis loops compute the retained experts |
| LayerPins.FillLoop | src/gguf_q8_moe.c:122-131 | the fill loop keeps the pins it starts with and adds the heaviest route whose expert is not chosen yet, one after the other, or fails for lack of routes |
| LayerPins.PinRoutes | src/gguf_q8_moe.c:69-133 | no routes: clears the pins of the layer; otherwise succeeds exactly with enough slots, enough distinct routes and valid ids, then replaces the pins of the layer by the retained and then the heaviest routes |
| PinBudget.BudgetTotal | src/gguf_q8_moe.c:81-87 | two pins per routed layer and none on layer 0 bound all pins together |
| PinBudget.ReplaceWithin | src/gguf_q8_moe.c:81-133 | replacing the pins of a routed layer keeps the budget |
| PinBudget.BudgetRetains | src/gguf_q8_moe.c:94-120 | within the budget hysteresis always retains exactly the old pins still routed |
| PinBudget.PlanServes | src/gguf_q8_moe.c:81-87 | with slots for all pins and one batch, every route gets a slot and no pinned resident is lost |
| PinBudget.LoadRoutes | src/gguf_q8_moe.c:189-189 | with no failed read all routes are resident after the batched load and no pinned resident was evicted |
| PinBudget.GetEach | src/gguf_q8_moe.c:201-207 | whatever the cache holds, each get of a call hands out the expert of a direct load; while the pins leave a slot only a failed read fails one; over residents all of them hit and nothing is evicted or read |
| PinBudget.RoomForOne | src/expert_cache.c:61-76 | while there are fewer pins than slots a miss finds a victim |
| PinBudget.Repin | src/gguf_q8_moe.c:166-187 | with distinct routes the pins are replaced exactly when the cache is large enough; other layers keep theirs |
| PinBudget.DecodeStep | src/gguf_q8_moe.c:166-207 | one pinned step: every get hits, no pinned resident is lost, the budget is kept, and every expert handed out is that of a direct load |
| PinPilot.Pilot.PhaseUpdate | src/gguf_q8_moe.c:28-47 | pins appear exactly at the call of layer 1 after layer 26 of the same cache |
| PinPilot.Pilot.PrefillPhase | src/gguf_q8_moe.c:28-47 | a layer-major prefill leaves the pilot one call before activation, and activates pins itself exactly when the same cache had just been through another prefill |
| PinPilot.MoeCall | src/gguf_q8_moe.c:135-207 | the cache calls of one MoE call, before and after activation: the experts handed out are those of direct loads, only a failed read can fail a call without pins, and only the pins of its layer change |
| PinPilot.DecodeRun | src/gguf_q8_moe.c:135-207 | a whole decode, from the activating call on: the experts handed out are those of direct loads; without failed reads every get of every step hits, each step replaces only the pins of its layer, and all pins are resident after every step |
| PinPilot.PinsStay | src/gguf_q8_moe.c:135-207 | over such a run a pinned key stays pinned and resident until its layer is called again |
| PinPilot.Prefill | src/gguf_q8_moe.c:135-207 | the cache calls of a layer-major prefill: no pins, experts of direct loads, no failure without a failed read, and the next call of layer 1 activates |
| PinPilot.Generation | src/gguf_q8_moe.c:28-207 | the prefill calls layer by layer and then the decode: if no read fails nothing fails, the prefill runs without pins, they appear with the first decode call, and from there on the run is served as stated; all experts handed out are those of direct loads |
| TopK.InsertTop | src/ops.c:217-230 | the in-place insertion keeps the array sorted with blanks behind |
| TopK.TopOfIsTop | src/ops.c:217-230 | streaming insertion selects the best `k`: sorted, taken from the items, everything else worse |
| TopK.TopUnique | src/ops.c:213-230 | there is only one such selection |
| TopK.TopOfFewer | src/q8_ops.c:150-155 | dropping items that were not selected changes nothing |
| TopK.SelectedIff | src/ops.c:213-230 | an item is selected exactly when fewer than `k` items are better |
| Router.TopTwoMeaning | src/ops.c:262-268 | the running pair holds the two largest scores of the group |
| Router.MaskedIdsEnabled | src/q8_ops.c:118-165 | the masked router returns `top_k` different enabled experts, so its check for a missing choice never fires |
| Router.NothingDisabled | src/q8_ops.c:84-187 | with nothing disabled the masked copy equals the production router |
| Router.OneGroupMask | src/q8_ops.c:84-187 | with one group, disabling experts that were not selected changes neither ids nor weights |
| Router.OutsidePickedIff | src/ops.c:278-284 | an expert outside the kept groups is selected if and only if fewer than `top_k` kept experts beat a masked zero at the first outside id |
| Router.OutsideExample | src/ops.c:281-282 | it does happen: a concrete router input |
| RouterMeaning.RouteWeights | src/ops.c:286-300 | weights stand in the ratio of the unbiased scores; normalised, weight times (sum + 1e-20) is scale times score, and they add up to scale times sum over that; otherwise each is scale times its score |
| RouterMeaning.MaskedWeights | src/q8_ops.c:163-184 | the same for the masked router |
| RouterMeaning.HeavierIff | src/ops.c:293-300 | with a positive scale a larger score gets a larger weight, and only then |
| RouterMeaning.ScoreIsWorth | src/q8_ops.c:132-147 | a group score is the largest sum of two corrected scores of enabled experts, or the only score, and minus infinity exactly for an empty group |
| RouterMeaning.GroupsAreBest | src/q8_ops.c:149-156 | kept groups are the most valuable ones; a group with an enabled expert is dropped only for lack of places |
| RouterMeaning.OpenRoute | src/ops.c:255-291 | the production router returns, best first, the experts of largest corrected score in the most valuable groups, with zero for experts outside |
| RouterMeaning.MaskedRoute | src/q8_ops.c:118-171 | the same for the masked router over the enabled experts |
| RouterLoops.TopTwoLoop | src/q8_ops.c:132-142 | the loop keeps the running pair over the enabled experts |
| RouterLoops.SelectGroups | src/ops.c:261-274 | group scores streamed into the selection |
| RouterLoops.MarkKept | src/ops.c:275-276 | flags exactly the selected groups |
| RouterLoops.SelectExperts | src/ops.c:278-284 | masked choice scores streamed into the selection |
| RouterLoops.WeighRoutes | src/ops.c:286-300 | the weights of the selected ids: in the ratio of their scores, normalised to the scale or scaled |
| RouterLoops.RouteTokens | src/ops.c:232-303 | the production router computes its specification and refuses exactly bad configurations; for non-negative scores the weights are as `RouteWeights` states |
| RouterLoops.RouteMaskedTokens | src/q8_ops.c:90-187 | the masked router computes its specification and refuses bad configurations, too many experts, and too few enabled ones; for non-negative scores the weights are as `MaskedWeights` states |
| ReapMask.ClassesDominate | tools/analyze_kimi_reap_vl.py:244-258 | if no class of a set is larger than that of another, neither is the set |
| ReapMask.SpanIff | tools/analyze_kimi_reap_vl.py:237-247 | the quotient of the loop names exactly the run of `per_group` experts the expert lies in |
| ReapMask.GreedyObeys | tools/analyze_kimi_reap_vl.py:248-254 | the greedy choice respects both caps |
| ReapMask.GroupDominates | tools/analyze_kimi_reap_vl.py:244-258 | while a layer has room, each group holds at least as many greedy rows as any obedient mask has there, in every prefix |
| ReapMask.LayerDominates | tools/analyze_kimi_reap_vl.py:244-258 | the same for each layer |
| ReapMask.GreedyDominates | tools/analyze_kimi_reap_vl.py:244-258 | in every prefix of the ranking greedy has chosen at least as many rows as any obedient mask |
| ReapMask.SnapshotOptimal | tools/analyze_kimi_reap_vl.py:255-256 | every snapshot has the least total score among all obedient masks of its size |
| ReapMask.SnapshotObeys | tools/analyze_kimi_reap_vl.py:248-256 | every snapshot respects the cap of each layer and of each run of `per_group` experts of a layer |
| ReapMask.SnapshotsNested | tools/analyze_kimi_reap_vl.py:226-256 | smaller targets give prefixes of larger ones |
| ReapMask.FeasibleIff | tools/analyze_kimi_reap_vl.py:259-262 | a mask of a size exists if and only if greedy reaches that size |
| ReapMask.BuildMasks | tools/analyze_kimi_reap_vl.py:237-262 | the loop: refuses bad configurations; raises the cap error exactly when no obedient mask of the largest size exists; else one snapshot per target, with at most `perLayer` rows of a layer and at most `perGroup` rows of a layer with `g * (nExperts / nGroups) <= expert < (g + 1) * (nExperts / nGroups)` |
| MixedBitPlan.BytesWithinUnits | tools/kimi_mixed_bit_plan.py:74-76 | rounded-up units never understate the bytes |
| MixedBitPlan.UnitsLeast | tools/kimi_mixed_bit_plan.py:82-82 | the units of a choice are the least number of quanta that holds its bytes |
| MixedBitPlan.Repick | tools/kimi_mixed_bit_plan.py:82-89 | another choice for one expert changes error, size and bytes of a plan by the difference of the two choices |
| MixedBitPlan.Extend | tools/kimi_mixed_bit_plan.py:80-89 | one table entry extended by every choice of an expert |
| MixedBitPlan.NextTable | tools/kimi_mixed_bit_plan.py:78-90 | the table after one more expert has an entry at least as good as every fitting assignment, in any iteration order |
| MixedBitPlan.AllCovered | tools/kimi_mixed_bit_plan.py:78-90 | the optimal-substructure step |
| MixedBitPlan.LeastEntry | tools/kimi_mixed_bit_plan.py:94-95 | the least entry by error, then by size |
| MixedBitPlan.TableNotEmpty | tools/kimi_mixed_bit_plan.py:91-92 | the table is empty only if no assignment fits |
| MixedBitPlan.Optimize | tools/kimi_mixed_bit_plan.py:65-113 | the plan is lexicographically least in error and units among all fitting assignments, stays within the bytes, and the error is raised exactly when none fits |
| Q5.ScalarLength | tools/pack_experts_q5.py:103-105 | the packed length is the bit count over eight, rounded up |
| Q5.ScalarValue | tools/pack_experts_q5.py:89-101 | bytes and fields are the same number |
| Q5.WordStep | tools/pack_experts_q5.py:72-87 | packing eight fields as one word gives the next five bytes of the accumulator |
| Q5.PackTail | tools/pack_experts_q5.py:89-101 | the accumulator loop |
| Q5.Pack | tools/pack_experts_q5.py:68-106 | both packing paths together produce the bytes of the plain accumulator |
| Q5.ReadBack | src/q5_ops.c:17-23 | reading any field gives it back and touches only bytes of the buffer |
| Q5.RoundTrip | src/q5_ops.c:17-23 | reading index `i` at bit `5 * i` gives the value back if and only if it fits five bits |
| Q5.WordReads | src/q5_ops.c:39-54 | at byte-aligned positions the 40-bit word reader agrees with the generic reader on all eight fields |
| MachineWords.OrApart | tools/pack_experts_q5.py:74-94 | on binary digits: or-ing a word shifted above `k` low bits is adding it |
| MachineWords.ShrIs | src/q5_ops.c:17-23 | shifting down is the quotient by a power of two |
| MachineWords.MaskIs | src/q5_ops.c:12-15 | masking with ones is the remainder |
| MachineWords.BitIs | src/q5_ops.c:12-15 | masking with one bit tests it |
| Q5.MaskedSign5Is | src/q5_ops.c:12-15 | the masks of the sign extension compute the signed value of the low five bits |
| Q5.OrWordIs | tools/pack_experts_q5.py:74-83 | the or-ed word of eight fields is their sum by place |
| Q5.OrBytesIs | src/q5_ops.c:41-46 | the or-ed word of five bytes is their sum by place |
| Q5.ShiftRead5Is | src/q5_ops.c:17-23 | shift, or and mask of the generic reader compute the quotient and sum the proofs use |
| Quantize.QuantError | tools/pack_experts_q5.py:120-123 | clipping never binds and one value is off by at most half a scale |
| Quantize.RoundTies | tools/pack_experts_q5.py:123-123 | ties go to the even neighbour in the packers and away from zero in the latent cache |
| Quantize.GroupError | tools/pack_experts_q5.py:116-123 | one group: half a scale times the summed input magnitude |
| Quantize.RowError | src/q5_ops.c:89-106 | a whole row, with any ragged last group: the sum of the group bounds |
| Quantize.Q8RowError | src/q8_ops.c:302-310 | one scale per row |
| Q5Matvec.QuantizeG128 | tools/pack_experts_q5.py:109-124 | scales per row and group, and the packed entries |
| Q5Matvec.StoredScales | tools/pack_experts_q5.py:116-123 | in each group of 128 columns no magnitude exceeds fifteen scales, and some entry reaches it and is stored as 15 or -15; a zero group has scale one and zeros |
| Q5Matvec.DotAligned | src/q5_ops.c:34-70 | the byte-aligned dot product equals the generic one |
| Q5Matvec.MatvecQ5 | src/q5_ops.c:80-108 | the product computes scaled group dot products, whichever path reads them |
| Q5Matvec.ReadsEntry | src/q5_ops.c:94-102 | the reader delivers the quantised entry of its row and column |
| Q5Matvec.EndToEnd | src/q5_ops.c:80-108 | quantise, pack, read and multiply: every output is within the group bound of the exact product, for every shape |
| Q8.QuantizeLatent | src/mla_compressed_q8_state.c:34-55 | the loop computes the rounded entries and the scale, with the zero row as its own case |
| Q8.LatentEntry | src/mla_compressed_q8_state.c:46-60 | a dequantised entry is within half a scale and was never clipped |
| Q8.EntriesSpread | src/mla_compressed_q8_state.c:34-55 | no magnitude exceeds 127 scales, and some entry reaches it and is stored as 127 or -127; a zero row has scale one and zeros |
| Q8.QuantizeRows | tools/pack_experts_q8.py:49-54 | scales and entries row by row |
| Q8.MatvecQ8 | src/q8_ops.c:294-311 | scaled integer dot products |
| Q8.Q8Error | src/q8_ops.c:294-311 | a row of the product is within half a scale times the summed input magnitude, for either rounding |
| Q8.DotDequantised | src/mla_compressed_q8_state.c:57-61 | the dot product with dequantised entries is the scaled dot product with the stored integers |
| Q8.LatentDot | src/mla_compressed_q8_state.c:218-220 | the loop over dequantised entries |
| Q8.CachedDot | src/mla_compressed_q8_state.c:34-61 | quantise a latent, cache it and dot it with a query: within half a scale times the summed query magnitude of the exact product |
| Compaction.CopyKept | tools/compact_expert_store.py:153-166 | copies the kept records with their bytes to aligned, disjoint, in-range offsets, or fails on a record past the end |
| Compaction.CompactStore | tools/compact_expert_store.py:124-170 | each of the six refusals exactly under its condition; otherwise the kept records in order with the same bytes |
| Compaction.KeptAre | tools/compact_expert_store.py:154-159 | exactly the records the mask does not name are kept |
| SparseBinding.ReadMaskFile | src/expert_store.c:112-158 | accepts exactly files with ids in range and no repetition, and flags exactly their experts |
| SparseBinding.CountRouted | src/expert_store.c:163-171 | counts routed slots and records |
| SparseBinding.MatchesStore | src/expert_store.c:210-235 | passes exactly when the flags are the routed experts without a record |
| SparseBinding.BindSparse | src/expert_store.c:160-269 | a full store opens exactly without a sidecar; a sparse one exactly with a sidecar naming its missing routed experts and no different requested mask |
| SparseBinding.OpenStore | src/expert_store.c:294-339 | index and binding together: a Q8 store opens exactly with a good, non-empty index and the right sidecar, and a bound mask names exactly the missing routed experts |
| SparseBinding.WriteSidecar | tools/compact_expert_store.py:65-69 | the sidecar lists the mask, once each |
| SparseBinding.CompactedOpensIff | tools/compact_expert_store.py:124-179 | a compacted store opens with its own sidecar if and only if the mask leaves a record, names only routed experts and covers what the source was missing |
| SparseBinding.CompleteSourceOpensIff | tools/compact_expert_store.py:131-139 | a source complete on the routed layers, with a mask of routed experts: the result opens if and only if a record is left |
| SparseBinding.MaskedEmpty | src/expert_store.c:301-301 | it does happen: the sidecar is right, the binding would accept it, the empty index is refused |
| SparseBinding.RoutedIdsHaveRecords | src/q8_ops.c:118-171 | under the bound mask every id the masked router returns has a record |
| DynamicSkip.Classify | src/moe_dynamic_skip.c:120-158 | one family per token, by the state machine |
| DynamicSkip.ClassifyTokens | tools/kimi_moe_token_profile.py:48-98 | the tool agrees with the runtime on every prompt, with unclassified tokens as control |
| DynamicSkip.TurnFrom | src/moe_dynamic_skip.c:131-147 | a user marker outside system turns and its first middle marker open a body that lasts until a marker or an end outside media; media are open from a start to the next end |
| DynamicSkip.BodyIff | src/moe_dynamic_skip.c:120-158 | the runtime is in a user body exactly where the tokens before say so |
| DynamicSkip.ContentIff | src/moe_dynamic_skip.c:138-147 | a token is content exactly in the body of a user turn outside media, unless it is one of five markers |
| DynamicSkip.StateIff | src/moe_dynamic_skip.c:120-158 | system turn, user header and user turn, read off the tokens |
| DynamicSkip.MediaIff | src/moe_dynamic_skip.c:135-155 | a token is media exactly when it is a media pad outside system turns, user headers and assistant turns |
| DynamicSkip.StructuralContentIff | src/moe_dynamic_skip.c:138-147 | a structural token is left unprotected exactly in the body of a user turn outside media, and only the assistant, middle and media-end markers |
| DynamicSkip.AssistantAsContent | src/moe_dynamic_skip.c:138-147 | it does happen: a concrete prompt |
| DynamicSkip.Cursor.NextFamily | src/moe_dynamic_skip.c:325-344 | call `e` is accepted exactly at layer `(e-1)/n+1` and gets the family of position `(e-1)%n`; after 26 layers every call is control |
| DynamicSkip.Cursor.Prefill | src/moe_dynamic_skip.c:325-344 | a layer-major prefill: every call is accepted with the family of its token, and the cursor is off afterwards |
| DynamicSkip.KeepAbove | src/moe_dynamic_skip.c:182-188 | keeps exactly the routes whose weight is at least threshold times the total, and these are heavier than the others |
| DynamicSkip.NextBest | src/moe_dynamic_skip.c:194-199 | the heaviest dropped route, the first one on ties |
| DynamicSkip.ApplyPolicy | src/moe_dynamic_skip.c:160-206 | protected calls keep everything; otherwise the kept routes are the heaviest ones, as many as are above the threshold or as the minimum asks; a route with at least threshold times the total is kept, and with a minimum of one the kept routes are exactly those, if there are any |
| ShardScheduler.Packer.PackLayers | tools/pack_full_text.py:64-71 | every layer whose shards are present gets packed, and the progress loop ends |
| ShardScheduler.Packer.StillNeeded | tools/pack_full_text.py:73-77 | exactly the shards some unpacked layer or global needs |
| ShardScheduler.Packer.DeleteConsumed | tools/pack_full_text.py:78-82 | only shards nobody needs are deleted, and none of them stays |
| ShardScheduler.PackedOnce | tools/pack_full_text.py:59-82 | a rule-abiding log packs each layer and global exactly once |
| ShardScheduler.NeededStays | tools/pack_full_text.py:72-82 | no shard is deleted that a later pack step needs |
| ShardScheduler.PackedFromShards | tools/pack_full_text.py:64-71 | when a layer is packed, each of its shards has been downloaded and not deleted since |
| ShardScheduler.Convert | tools/pack_full_text.py:52-85 | for every layer-to-shard map the log follows the rules and packs everything, so the incompleteness error is unreachable |

## Left out

- Float rounding, NaN and infinities, AVX lanes and thread schedules: arithmetic is over the reals or opaque; `exp`, the inverse square root and the rotary angles are uninterpreted parameters.
- bf16 weights appear already expanded, and flat weight and state buffers appear as rows, so the address arithmetic of most buffers is not modelled.
- 32- and 64-bit wrap-around of sizes and offsets; only the 32-bit bound on cache keys is kept.
- Files, handles, direct I/O, aligned allocation and allocation failure: a store is a function from offset to byte, a read may fail, and masks and sidecars are lists of ids.
- Parsing of headers, mask lines, policy files and traces, and the environment variables that name them.
- Expert and trunk reads inside a forward pass: a layer is a function of its weights and operands, so a pass that fails on I/O is not modelled; the cache calls of a MoE layer are modelled on their own.
- Temperature sampling and its random numbers, and the decode loop of the generator around one forward step.
- The draft model: drafted tokens are arbitrary, which covers every draft mask and the quantised draft state.
- Attention over the quantised latent state: only its quantiser and the error of one dot product are modelled; state length and truncation are those of `CompressedState.State`.
- Library sorting: the ranked rows of the mask planner are taken as sorted, batch reads are published in file order with ties in any order, and sidecar lines in any order.
- The averages behind the ranking scores, the reports, and every statistics table.
- Vision code, tokenizer, image preprocessing, chat frontends, downloads, RAM planning and the trunk cache.
- Router.Weights: states the normalised weights over the reals; the float rounding of the sum is not modelled.
- PinBudget.DecodeStep: promises hits only for steps without a failed read, because after one the gets retry and may evict.
