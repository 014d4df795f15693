# xFasterTransformer: index, blocking and protocol logic

A Dafny model of the parts of xFasterTransformer that are index, permutation, tiling and protocol
logic, with proofs of what they are for.  Numbers are exact (`real`, `int`); the exponential, the
activations and the cosine and sine are arbitrary functions with the laws a proof needs stated as
preconditions.  Code that works in place is modelled by methods on arrays, two-dimensional arrays and
classes, each proved against a function or predicate whose meaning is then proved by lemmas.

* `ReorderPlan`, `KVLayout`, `KVCacheTensors`, `KVCacheManagers`, `BeamSearch`: the key/value cache
  tensor, its in-place gather and broadcast, all layers together, and whole beam-search runs.
* `ShardedAttention`, `SpinProtocol`: attention of one head shared out to several threads, first as
  arithmetic, then as a leader/worker protocol under every schedule.
* `TaskDecode`, `SelfAttention`, `SelfAttentionThreads`: the flattened task loop of prompt attention, the
  packing memo of each thread, causal attention under every assignment of tasks to threads, and then
  under every interleaving of the threads' accesses.
* `CrossAttention`: attention by head with an unsynchronised shared cache, under every interleaving.
* `GemmVectors`, `GemmRowMajor`, `GemmTransB`: the small matrix kernels, lane by lane.
* `RotaryEmbedding`, `RotaryChatGlm2`: the rotation kernels and the relative-position theorem.
* `TaskSplit`, `WeightLayout`, `TensorParallelMlp`, `HeadSplit`, `OutputProjection`, `VocabularySplit`:
  tensor parallelism.
* `KVCachePool`, `Sequences`, `DecoderBlocks`: continuous batching and pipeline stages.
* `Sums`, `Arith`, `Matrices`, `HeadGroups`, `Wrappers`: sums of reals, division and cell arithmetic,
  matrices as values, the map from query heads to kv heads, optional values.

Lemmas called `...WrittenOut` state a result over the raw arguments of the code (flat indices, sums of products,
divisions by group sizes), without the functions the methods are specified with.

Where the code does not do what its surroundings expect, the model keeps the code and a lemma says
exactly when it is right:

* a skipped copy (equal first eight bytes) spoils a gather exactly where it joins different rows
  (`ReorderPlan.GatherIffSafe`);
* finished samples keep beam index 0, so grouping of beams by sample holds exactly while every sample
  but the first is running (`BeamSearch.SamplesApartIffRunning`);
* a per-head row of int8 scales is contiguous only for one head or one position
  (`KVLayout.ScaleRunIsTheRow`);
* a head that does not copy sees the cache's new rows only up to the storage conversion
  (`CrossAttention.SeesTheCache`);
* the local query-head to kv-head map is right exactly if the rank's heads are spread evenly
  (`HeadSplit.LocalMapOfRankIff`), the query bias offset exactly if the heads divide evenly or
  the rank is one with a spare head (`HeadSplit.BiasOffsetIff`);
* joined gate and up weights leave a rank with its share exactly if the file stores plain rows
  (`TensorParallelMlp.LlamaMlp.SetWeights`);
* heads may be rotated in any order exactly if the head size is even
  (`RotaryEmbedding.OrderIrrelevantIffEven`); the ChatGLM2 vector kernel turns exactly half a head
  exactly if the half is a multiple of 32 (`RotaryChatGlm2.VectorWidthIff`) and stays inside the head
  exactly from sixteen pairs on (`RotaryChatGlm2.GlmHeadsApartIff`);
* past plus input equals total exactly while the earlier steps brought one token each on average
  (`Sequences.PastPlusInputIff`); ids repeat exactly every 10240 creations (`Sequences.IdsCollideIff`);
* a ready list stays valid at every moment exactly if none of its own sequences is deleted
  (`KVCachePool.LinesUpAlwaysIff`).

## Model

| member | source | states |
|---|---|---|
| `ReorderPlan.PlanLocated` | src/common/kvcache_tensor.h:200-258 | before every step each pending request names a place, in the tensor or in the spill buffer, that still holds the row it asks for |
| `ReorderPlan.SpillBound` | src/common/kvcache_tensor.h:197-198 | for every index vector the spill buffer of batchSize - 1 rows is enough |
| `ReorderPlan.RunFollows` | src/common/kvcache_tensor.h:200-258 | the run on rows with skipped copies follows the plan on row numbers as long as no skipped copy joins different rows |
| `ReorderPlan.GatherIffSafe` | src/common/kvcache_tensor.h:191-264 | row i of the result is old row idx[i] for every index vector, repeats included, if and only if no copy that was skipped would have changed its row |
| `ReorderPlan.TellsApartIsSafe` | src/common/kvcache_tensor.h:302-307 | if equal first words imply equal rows, every gather is safe |
| `ReorderPlan.SkipSpoilsGather` | src/common/kvcache_tensor.h:302-307 | a two-row input on which the skipped copy gives a wrong gather |
| `KVLayout.VectorsDisjoint` | src/common/kvcache_tensor.h:103-118 | in both layouts the vectors of different (position, sample, head) do not overlap and lie inside the allocated size |
| `KVLayout.EveryElementIsOwned` | src/common/kvcache_tensor.h:103-118 | every element of the tensor belongs to the vector of some (position, sample, head) |
| `KVLayout.HeadWalk` | src/common/kvcache_tensor.h:121-134 | head address plus position times stride is the sequence address, in both layouts |
| `KVLayout.Neighbours` | src/common/kvcache_tensor.h:103-118 | the next token, head and sample are at the strides of each layout, written out, for vectors and for scale slots |
| `KVLayout.ScaleSlotsDistinct` | src/common/kvcache_tensor.h:104-105 | scale slots are in range and distinct |
| `KVLayout.ScaleRunIsTheRow` | src/common/kvcache_tensor.h:170-182 | headNum consecutive scales are the scales of one row exactly if there is one head or one position |
| `KVCacheTensors.SwapValues` | src/common/kvcache_tensor.h:268-300 | the vector loop with its masked tail exchanges two rows and nothing else |
| `KVCacheTensors.SkippableCopy` | src/common/kvcache_tensor.h:302-307 | the row is copied unless the first words agree |
| `KVCacheTensors.ValueExist` | src/common/kvcache_tensor.h:309-315 | whether a value occurs in a stretch of the table |
| `KVCacheTensors.ReorderWrittenOut` | src/common/kvcache_tensor.h:191-264 | where equal leading words mean equal rows, row k of a reordered position is the old row idx[k] |
| `KVCacheTensors.EqualWordsKeepTheOldRow` | src/common/kvcache_tensor.h:302-307 | the row on which the copy is skipped is the one whose first "word" elements agree with the source, and no other |
| `KVCacheTensors.ReorderPosition` | src/common/kvcache_tensor.h:200-258 | one position reordered in place equals the run of the plan on its rows, all other positions stay |
| `KVCacheTensors.Broadcast` | src/common/kvcache_tensor.h:170-178 | copying from the last beam down gives every beam its sample's row, in place |
| `KVCacheTensors.KVCacheTensor.Resize` | src/common/kvcache_tensor.h:77-96 | the buffer is replaced only when it is too small, the shape is the one asked for |
| `KVCacheTensors.KVCacheTensor.PositionElement` | src/common/kvcache_tensor.h:103-118 | element e of head h of beam b at token s is element ((s * batchSize + b) * headNum + h) * headSize + e of the buffer |
| `KVCacheTensors.KVCacheTensor.ExpandOneSequence` | src/common/kvcache_tensor.h:170-183 | beam b of one position gets the row of sample b / beamSize, the others are kept, nothing is done in the transposed layout |
| `KVCacheTensors.KVCacheTensor.Reorder` | src/common/kvcache_tensor.h:191-264 | positions from initSeqLen to accSeqLen come out gathered exactly where no skipped copy joined different rows, so with old row idx[k] in row k wherever leading words tell rows apart; all others are unchanged |
| `KVCacheManagers.KVCacheManager.constructor` | src/models/kvcache_manager.h:23-29 | a key and a value tensor per layer, all different, each with an empty buffer of its own |
| `KVCacheManagers.KVCacheManager.Resize` | src/models/kvcache_manager.cpp:25-39 | every tensor gets the shape, and no two of them share a buffer afterwards |
| `KVCacheManagers.KVCacheManager.ExpandCache` | src/models/kvcache_manager.cpp:42-53 | in keys and values of one layer beam b of every prompt position gets the row of sample b / beamSize, positions from seqLen on and every other tensor are unchanged |
| `KVCacheManagers.ExpandedWrittenOut` | src/models/kvcache_manager.cpp:42-53 | after the broadcast beam b of a prompt position has the row of sample b / beamSize, and positions from seqLen on are unchanged |
| `KVCacheTensors.BroadcastBeam` | src/common/kvcache_tensor.h:170-178 | the beamSize rows from k * beamSize on are copies of row k |
| `KVCacheManagers.KVCacheManager.ExpandPrefixCache` | src/models/kvcache_manager.cpp:56-86 | every sample gets the prefix rows at the prefix positions, every other position and tensor is unchanged |
| `KVCacheManagers.PrefixedWrittenOut` | src/models/kvcache_manager.cpp:56-86 | row b below userSideBS of a prefix position is the prefix row, every other row is unchanged |
| `KVCacheManagers.PrefixedThenExpanded` | src/models/kvcache_manager.cpp:42-86 | filling the prefix and then expanding to beams leaves the prefix row in every beam of every sample |
| `KVCacheTensors.FilledThenExpanded` | src/models/kvcache_manager.cpp:56-86 | after filling the samples and expanding them to beams every beam has the prefix row |
| `KVCacheManagers.KVCacheManager.ReorderCache` | src/models/kvcache_manager.cpp:91-109 | every key and value tensor of every layer is reordered by the same indices |
| `KVCacheManagers.ReorderedWrittenOut` | src/models/kvcache_manager.cpp:91-109 | row b of a position from initSeqLen to accSeqLen is the old row idx[b] where leading words tell rows apart, all other positions are unchanged |
| `KVCacheManagers.KVCacheManager.NextToken` | src/models/kvcache_manager.cpp:91-109 | one decoding step over all layers: gather, then store the new rows |
| `KVCacheManagers.NextTokenExtendsRun` | src/models/kvcache_manager.cpp:91-109 | a decoding step extends the beam-search run of each tensor by one step |
| `KVCacheManagers.ExpandStartsRun` | src/models/kvcache_manager.cpp:42-53 | broadcasting the prompt starts such a run |
| `KVCacheManagers.KVCacheManager.RunBeams` | src/models/kvcache_manager.cpp:41-109 | a whole run over all layers: in every key and value tensor beam b still has the prompt rows of sample b / beamSize and the generated rows its ancestors wrote, positions behind the run are unchanged, and with samples kept apart that is the fully gathered run |
| `KVCacheManagers.StepIsSafe` | src/common/kvcache_tensor.h:302-307 | at every step of a run no skipped copy does harm, provided the rows of one token that agree in their first word are equal |
| `BeamSearch.PromptGatherIsIdle` | src/common/kvcache_tensor.h:195 | over any run that keeps beams in their samples, gathering the prompt rows too would change nothing |
| `BeamSearch.PartialReorderSuffices` | src/common/kvcache_tensor.h:188-200 | reordering from initSeqLen on gives the same cache as gathering every row, over any run |
| `BeamSearch.IdleIffSamplesApart` | src/common/kvcache_tensor.h:195 | a gather leaves every expanded prompt alone exactly if no beam takes a row of another sample |
| `BeamSearch.RowsOfAncestors` | src/common/kvcache_tensor.h:191-264 | after any run row t of a beam is the row its ancestor under the composed indices wrote at t |
| `BeamSearch.AncestorIsOnPath` | src/common/kvcache_tensor.h:191-264 | a beam's ancestors are the beams met by following the index vectors back, one step at a time |
| `BeamSearch.AncestorsInSample` | src/common/kvcache_tensor.h:191-264 | the ancestors of a beam are beams of its own sample |
| `BeamSearch.RunningSampleStays` | src/searchers/beam_search.cpp:137-194 | a running sample's next indices stay in the sample |
| `BeamSearch.IndexOfBeam` | src/searchers/beam_search.cpp:137-194 | the index of every beam: its pick among its sample's own beams if the sample runs, 0 if it is finished |
| `BeamSearch.SamplesApartIffRunning` | src/searchers/beam_search.cpp:137-194 | all samples stay apart exactly if every sample but the first is still running |
| `ShardedAttention.BalanceTiles` | src/kernels/attention_kernels.h:472-491 | the workers' key ranges follow one another from 0 to N, none is larger than its score buffer, sizes differ by one at most |
| `ShardedAttention.ShardedIsAttention` | src/kernels/attention_kernels.h:611-648 | merging per-shard maximum, sum and normalised output with the revise factors is plain attention over all keys, for any N of at least one and any number of shards |
| `ShardedAttention.ShiftFree` | src/kernels/attention_kernels.h:581-585 | softmax does not depend on what is subtracted from the scores |
| `ShardedAttention.HeadWrittenOut` | src/kernels/attention_kernels.h:570-602 | scores are query times key times scale plus mask, and the output is the sum of exp(score) * value over the sum of exp(score), written out over the head's arrays |
| `ShardedAttention.HeadIsAverage` | src/kernels/attention_kernels.h:570-602 | the output is the average of the value rows under positive weights that add up to 1, do not depend on the values or the column, and stand in the ratio exp of the difference of the scores |
| `ShardedAttention.EqualValuesStay` | src/kernels/attention_kernels.h:589-602 | equal value rows come out unchanged |
| `ShardedAttention.ShardTask` | src/kernels/attention_kernels.h:556-607 | a worker publishes the statistics and the output of its own keys and touches no other slot |
| `ShardedAttention.ShardWrittenOut` | src/kernels/attention_kernels.h:556-607 | what a worker publishes, written out: the sum of exp(score - maximum) over its keys, and its weighted values over that sum, 0 without keys |
| `ShardedAttention.Reduce` | src/kernels/attention_kernels.h:611-655 | the leader's three passes over published shards give plain attention |
| `ShardedAttention.CrossAttnShardedHead` | src/kernels/attention_kernels.h:550-657 | all workers, then the leader: the output row of a head is plain attention over all its keys |
| `SpinProtocol.StepInv` | src/kernels/attention_kernels.h:584-655 | every access of every thread of a head keeps the protocol invariant |
| `SpinProtocol.SlotsOfHeads` | src/kernels/attention_kernels.h:555-556 | slots are numbered head by head: a slot lies in the run a leader scans exactly if it is one of its own head |
| `SpinProtocol.StepProjects` | src/kernels/attention_kernels.h:555-655 | in the shared slot array an access of one head looks like a step to that head and like nothing to every other |
| `SpinProtocol.ReadsOnlyPublished` | src/kernels/attention_kernels.h:613-640 | under every schedule of the whole kernel a leader never uses statistics or output of a shard whose thread has not finished storing them |
| `SpinProtocol.RefMaxIsMax` | src/kernels/attention_kernels.h:611-620 | what a leader subtracts is the largest of its shards' maxima |
| `SpinProtocol.WorkersKeepToTheirSlot` | src/kernels/attention_kernels.h:584-607 | a worker changes no slot of its head but its own |
| `SpinProtocol.EveryScheduleAgrees` | src/kernels/attention_kernels.h:611-655 | whatever the schedule of all threads of all heads, a finished leader has stored the row of the sequential merge |
| `SpinProtocol.StepsCount` | src/kernels/attention_kernels.h:613-648 | a failed poll changes nothing, every other access leaves exactly one access less to make, counted over all threads of all heads |
| `SpinProtocol.WorkConserved` | src/kernels/attention_kernels.h:550-658 | under every schedule accesses made and accesses left add up to heads * (7 * splits + 2) |
| `SpinProtocol.NeverStuck` | src/kernels/attention_kernels.h:614-616 | as long as a thread of a head is not done some thread of the head can make an access that is no failed poll |
| `SpinProtocol.OneThreadPerTask` | src/kernels/attention_kernels.h:520-533 | with the shards per head the kernel picks there are no more tasks than threads |
| `SpinProtocol.KernelProtocol` | src/kernels/attention_kernels.h:550-658 | under every schedule of the kernel: while accesses are left some thread can make one, and when none is left every head holds its merged row |
| `SpinProtocol.EveryScheduleGivesAttention` | src/kernels/attention_kernels.h:550-658 | under every schedule of all threads of all heads, a head whose leader is done holds plain attention over all its keys in every column |
| `TaskDecode.UpperBound` | src/kernels/attention_kernels.h:167 | binary search finds the first element above a value |
| `TaskDecode.Tables` | src/kernels/attention_kernels.h:110-120 | token offsets and block ends are the running totals |
| `TaskDecode.Decode` | src/kernels/attention_kernels.h:193-206 | a task number decodes to the (sample, head, block) with that number in loop order |
| `TaskDecode.NumberOrder` | src/kernels/attention_kernels.h:189-192 | task numbers grow exactly in the order of the nested loops, so each triple has one number and one only |
| `TaskDecode.NumberInRange` | src/kernels/attention_kernels.h:189-193 | every triple of the nested loops has a task number below the loop bound |
| `TaskDecode.DecodeCopy` | src/kernels/attention_kernels.h:165-170 | a copy task decodes to its (sample, kv head, token), samples without tokens included |
| `TaskDecode.CopyOnce` | src/kernels/attention_kernels.h:165-179 | every (sample, kv head, token) is copied by one task and one only |
| `SelfAttention.ScoreAndSoftmax` | src/kernels/attention_kernels.h:239-268 | scores for the first endSeq columns, softmax up to the row's own position, zeros behind, whatever the scratch row held |
| `SelfAttention.TimesValues` | src/kernels/attention_kernels.h:280-301 | the zero-filled row times all values is attention over the keys up to the row |
| `SelfAttention.PackKeys` | src/kernels/attention_kernels.h:231-237 | after the first packing the thread's keys are the task's, whatever the memo said |
| `SelfAttention.PackValues` | src/kernels/attention_kernels.h:288-298 | after the second packing the memo names the pair that is packed |
| `SelfAttention.TaskBody` | src/kernels/attention_kernels.h:193-302 | one task on any thread: its block is causal attention, no other cell changes, all memos stay true |
| `SelfAttention.CellOutsideBlock` | src/kernels/attention_kernels.h:284-286 | the blocks of different tasks have no output cell in common |
| `SelfAttention.WeightedIsAttention` | src/kernels/attention_kernels.h:266-268 | with zeros behind the softmax the product over all tokens is attention over the keys up to the row |
| `SelfAttention.RunTasks` | src/kernels/attention_kernels.h:181-302 | under any sequence of (thread, task) turns every block that was computed is right |
| `SelfAttention.EveryTokenRight` | src/kernels/attention_kernels.h:103-302 | if no task number is left out, every token of every sample attends in every head exactly to its own sample's tokens up to itself |
| `SelfAttention.EveryTokenWrittenOut` | src/kernels/attention_kernels.h:193-302 | the same written out: the output in row Total(tokenSizes, b) + r and column i * headSize + d is attention over r + 1 keys, whose keys and values are rows Total(tokenSizes, b) + j and columns of kv head i / (qHeadNum / kvHeadNum) of the stacked matrices |
| `SelfAttention.FirstTokenOfOutput` | src/kernels/attention_kernels.h:193-302 | the first token of a sample gets its own value, in the columns of the kv head that serves the query head |
| `SelfAttentionThreads.ScratchApart` | src/kernels/attention_kernels.h:226 | the scratch rows of different threads, and of different rows of a thread, are different rows of the score buffer |
| `SelfAttentionThreads.PackedApart` | src/kernels/attention_kernels.h:125-131 | the packed keys and values of different threads do not overlap in the packing buffer |
| `SelfAttentionThreads.StepInv` | src/kernels/attention_kernels.h:193-302 | every access of every thread, and every task taken, keeps memos, packed pairs, scratch rows and stored rows as they must be |
| `SelfAttentionThreads.EveryInterleavingRight` | src/kernels/attention_kernels.h:181-302 | under every interleaving, from any contents of the buffers, the output of a task that is done is causal attention |
| `SelfAttentionThreads.EveryInterleavingWrittenOut` | src/kernels/attention_kernels.h:193-302 | the same written out over the stacked matrices and the cells of the output |
| `SelfAttentionThreads.NeverStuck` | src/kernels/attention_kernels.h:181-302 | while a task is not done some thread can go on or take it |
| `CrossAttention.CopierIsUnique` | src/kernels/attention_kernels.h:717 | exactly one query head of a group stores the group's rows |
| `CrossAttention.StepInv` | src/kernels/attention_kernels.h:709-785 | every access keeps: caches hold old rows and the new ones stored so far, each task's buffers are right for the rows it has seen |
| `CrossAttention.MixedIsAttention` | src/kernels/attention_kernels.h:749-781 | scores, zero-filled softmax and the two products come to attention of each row over the keys up to its position |
| `CrossAttention.EveryScheduleAgrees` | src/kernels/attention_kernels.h:708-787 | under every interleaving the final caches are the old rows plus the stored new ones, and every head's output is attention over the rows it sees |
| `CrossAttention.NewRowsAreStored` | src/kernels/attention_kernels.h:723-764 | under every interleaving the caches hold, at position past[b] + n of kv head kv of sample b, the conversion of the n-th new key and value of that head and sample |
| `CrossAttention.OtherRowsAreKept` | src/kernels/attention_kernels.h:723-764 | and every other row of the caches is the old one |
| `CrossAttention.OutputWrittenOut` | src/kernels/attention_kernels.h:709-785 | every head's output is attention over the past rows of kv head i / (qHeadNum / kvHeadNum) and then the new ones, converted for the first head of the group and as they came for the others, written out |
| `CrossAttention.FinishedTaskRight` | src/kernels/attention_kernels.h:708-787 | a finished task's output is right before the other tasks finish |
| `CrossAttention.SeesTheCache` | src/kernels/attention_kernels.h:730-747 | a head's key or value at a position equals the finished cache row exactly if it is an old row, the head copies, or the conversion keeps the row |
| `CrossAttention.WritesOwnNewRows` | src/kernels/attention_kernels.h:54-67 | only the copying head of a group writes, and only rows from the past length on |
| `CrossAttention.BlindToNewRows` | src/kernels/attention_kernels.h:735-747 | a head that does not copy behaves the same whatever the new cache rows hold |
| `CrossAttention.DoneAfterOwnTurns` | src/kernels/attention_kernels.h:708-787 | a task is done exactly after its own fixed number of turns, so no task waits for another |
| `GemmVectors.MaskIsExact` | src/kernels/gemm_kernel_ext3.cpp:39-46 | the masks of all column vectors together cover exactly N columns |
| `GemmRowMajor.AccumulateByColumns` | src/kernels/gemm_kernel_ext3.cpp:66-86 | one step of K advances every lane of the register tile by one term |
| `GemmRowMajor.AccumulateByRows` | src/kernels/gemm_kernel_ext2.cpp:136-158 | the same for the row-by-row form with kept B vectors |
| `GemmRowMajor.FixMN` | src/kernels/gemm_kernel_ext3.cpp:50-99 | a tile gets exactly the naive sums, on top of C if accumulating, and nothing else changes |
| `GemmRowMajor.FixN` | src/kernels/gemm_kernel_ext3.cpp:102-130 | all rows of up to 128 columns by row tiles and a remainder |
| `GemmRowMajor.RegistersSuffice` | src/kernels/gemm_kernel_ext3.cpp:22-37 | the row tile sizes keep accumulators and operands within 32 registers |
| `GemmRowMajor.SmallSgemm` | src/kernels/gemm_kernel_ext3.cpp:156-177 | every cell of the M x N window gets A times B, plus the old C if accumulating, for all M, N, K; nothing outside changes |
| `GemmRowMajor.SmallMDynamic` | src/kernels/gemm_kernel_ext2.cpp:117-166 | a tile whose width is only known at run time |
| `GemmRowMajor.SmallGemmInt8` | src/kernels/gemm_kernel_ext2.cpp:171-237 | the same as for float with row k of B scaled by its scale |
| `GemmRowMajor.CellWrittenOut` | src/kernels/gemm_kernel_ext2.cpp:171-237 | a cell of the window is the sum of A[i][k] * (B[k][j] * scale[k]), without the scale if there are none |
| `GemmRowMajor.PiecesAddUp` | src/kernels/attention_kernels.h:770-775 | a product over the first rows of K plus one over the rest is the product over all |
| `GemmRowMajor.TwoProducts` | src/kernels/attention_kernels.h:768-775 | the product of the cached rows followed by the accumulating product of the raw rows fills C like one product |
| `GemmTransB.LanesTotal` | src/kernels/gemm_kernel_ext.cpp:66-91 | adding up sixteen lane sums gives the sum over all of K |
| `GemmTransB.TransBTile` | src/kernels/gemm_kernel_ext.cpp:29-92 | a tile gets the naive dot products, the last vector of K masked |
| `GemmTransB.OneRow` | src/kernels/gemm_kernel_ext.cpp:275-371 | the single-row kernels with kept A vectors, in blocks and one by one |
| `GemmTransB.TransBRows` | src/kernels/gemm_kernel_ext.cpp:386-410 | a few rows in blocks of four columns with every remainder |
| `GemmTransB.SmallGemmTransB` | src/kernels/gemm_kernel_ext.cpp:415-441 | every cell of the M x N window gets the dot product of its rows; nothing outside changes |
| `GemmTransB.CellWrittenOut` | src/kernels/gemm_kernel_ext.cpp:415-441 | a cell of the window is the sum of A[i][k] * B[j][k] |
| `GemmTransB.ApplyScale` | src/kernels/gemm_kernel_ext.cpp:470-481 | column j of the window is multiplied by scale j, with a masked tail |
| `GemmTransB.SmallGemmTransBInt8` | src/kernels/gemm_kernel_ext.cpp:483-487 | the int8 kernel, with and without scales |
| `GemmTransB.ScaledCellWrittenOut` | src/kernels/gemm_kernel_ext.cpp:470-487 | with scales it is that sum times scale[j] |
| `RotaryEmbedding.SetCosSinCache` | src/kernels/rotary_embedding_kernels.cpp:21-38 | the tables hold cosine and sine of position times frequency, scaled |
| `RotaryEmbedding.TablesWrittenOut` | src/kernels/rotary_embedding_kernels.cpp:21-38 | entry i * size + j of the tables is cosine, or sine, of i * invFreq[j], times the scale |
| `RotaryEmbedding.RotateHead` | src/kernels/rotary_embedding_kernels.cpp:149-178 | sixteen pairs at a time with a masked tail, the head is rotated in place and no other column changes |
| `RotaryEmbedding.LlamaApplyRotaryPosEmbed` | src/kernels/rotary_embedding_kernels.cpp:134-181 | every query and key head of every token is rotated once by its token's position, all other cells stay |
| `RotaryEmbedding.QueryWrittenOut` | src/kernels/rotary_embedding_kernels.cpp:149-178 | elements i and half + i of query head h, written out with the table entries of the token's position |
| `RotaryEmbedding.KeyWrittenOut` | src/kernels/rotary_embedding_kernels.cpp:149-178 | the same for key head h |
| `RotaryEmbedding.RestOfRowKept` | src/kernels/rotary_embedding_kernels.cpp:149-178 | columns outside the heads are unchanged |
| `RotaryEmbedding.PairOfAngles` | src/kernels/rotary_embedding_kernels.cpp:155-165 | the product of two rotated pairs depends on the difference of the angles |
| `RotaryEmbedding.HeadProductWrittenOut` | src/kernels/rotary_embedding_kernels.cpp:134-181 | the score of two rotated heads is the sum over all pairs of the products of their turned elements, written out with the tables |
| `RotaryEmbedding.ScoreDependsOnDistance` | src/kernels/rotary_embedding_kernels.cpp:134-181 | the score of a rotated query head against a rotated key head is a function of the heads and of m - n, times the squared table scale |
| `RotaryEmbedding.ScoreIsTranslationInvariant` | src/kernels/rotary_embedding_kernels.cpp:134-181 | moving query and key by the same distance keeps the score |
| `RotaryEmbedding.LengthKept` | src/kernels/rotary_embedding_kernels.cpp:134-181 | rotation keeps a head's squared length up to the squared table scale |
| `RotaryEmbedding.NextHeadUntouchedIffEven` | src/kernels/rotary_embedding_kernels.cpp:137 | the columns written for a head stay clear of the next head exactly if the head size is even |
| `RotaryEmbedding.OddHeadSpills` | src/kernels/rotary_embedding_kernels.cpp:137-178 | with an odd head size rotating a head replaces the first element of the next head by a mixture of two heads |
| `RotaryEmbedding.OrderIrrelevantIffEven` | src/kernels/rotary_embedding_kernels.cpp:137-178 | two neighbouring heads come out the same in either order, for all contents, exactly if the head size is even |
| `RotaryChatGlm2.Sorted` | src/kernels/rotary_embedding_kernels.cpp:201-217 | the first shuffles sort 32 elements into even and odd ones |
| `RotaryChatGlm2.Woven` | src/kernels/rotary_embedding_kernels.cpp:219-228 | the last shuffles undo that |
| `RotaryChatGlm2.RotatePairwise` | src/layers/rotary_embedding_chatglm2.cpp:99-119 | the scalar form rotates neighbouring pairs |
| `RotaryChatGlm2.RotateVectorised` | src/kernels/rotary_embedding_kernels.cpp:316-341 | the vector form rotates the same pairs, 32 elements at a time |
| `RotaryChatGlm2.VectorWidthIff` | src/kernels/rotary_embedding_kernels.cpp:316-341 | the vector form turns exactly the first half of a head exactly if the half is a multiple of 32, and the same columns as the scalar form also for one less |
| `RotaryChatGlm2.GlmHeadsApartIff` | src/kernels/rotary_embedding_kernels.cpp:316-341 | whole blocks of 32 stay inside the head exactly from sixteen pairs on |
| `RotaryChatGlm2.ChatGlm2ApplyRotaryPosEmbed` | src/kernels/rotary_embedding_kernels.cpp:300-343 | the first half, rounded up to 32, of every query and key head of every token is rotated once, all else stays |
| `RotaryChatGlm2.GlmRowWrittenOut` | src/kernels/rotary_embedding_kernels.cpp:300-343 | every neighbouring pair of every head written out: turned by the even table entry of its position, or unchanged behind the rounded-up first half |
| `RotaryChatGlm2.Glm2CalEmb` | src/layers/rotary_embedding_chatglm2.cpp:48-68 | the tables hold cosine and sine of position times frequency, in both halves of every row |
| `RotaryChatGlm2.GlmTablesWrittenOut` | src/layers/rotary_embedding_chatglm2.cpp:48-68 | both halves of row i hold cosine and sine of i * invFreq[j], at the flat index |
| `RotaryChatGlm2.GlmScoreDependsOnDistance` | src/kernels/rotary_embedding_kernels.cpp:300-343 | however many pairs are turned, their score depends on the two heads and m - n alone |
| `TaskSplit.RangesTile` | src/layers/attention.h:1168-1194 | the ranks' ranges follow one another from 0 to N, and the first N % splits are one longer than the others |
| `TaskSplit.WeightRangesTile` | src/utils/split_util.h:8-49 | so do the weight ranges, and they start on multiples of the granularity |
| `TaskSplit.WeightRangeSizes` | src/utils/split_util.h:8-49 | how many columns each rank gets: even shares if they are multiples of 64, else units of 64, 16, 2 or 1 with the spare units on the first ranks |
| `WeightLayout.ConvertWeight` | src/utils/matmul_helper.h:109-142 | the copied slice holds the rank's elements, with rows and columns exchanged for transposed weights |
| `WeightLayout.LoadWeight` | src/utils/matmul_helper.h:306-343 | a loaded and packed weight is the rank's columns, or rows, whether or not the file was transposed |
| `WeightLayout.WholeWrittenOut` | src/utils/matmul_helper.h:109-142 | the matrix a file stands for has element (k, n) at k * N + n, or at n * K + k if transposed |
| `WeightLayout.SliceMerged` | src/layers/mlp_chatglm2.h:41-60 | both ways of cutting gate and up columns out of a merged weight give the rank's columns of each half |
| `WeightLayout.SliceMergedCat` | src/layers/mlp_chatglm2.h:77-87 | the concatenated cut gives the rank's gate columns, then its up columns, in every row |
| `TensorParallelMlp.LlamaMlp.SetWeights` | src/layers/mlp_llama.h:44-121 | after loading the rank holds its share of gate, up and down exactly unless the concatenated form meets a transposed file |
| `TensorParallelMlp.LlamaMlp.SetMergedWeights` | src/layers/mlp_chatglm2.h:26-97 | the same from a merged file, refused exactly for transposed files in the concatenated form |
| `TensorParallelMlp.LlamaMlp.SeparateProjections` | src/layers/mlp_llama.h:219-269 | gate with activation, then up multiplied in place, leave the rank's intermediate columns |
| `TensorParallelMlp.LlamaMlp.CatGateUpProj` | src/layers/mlp_llama.h:299-328 | one product over the joined weights and the gated halves leave the same columns |
| `TensorParallelMlp.LlamaMlp.Forward` | src/layers/mlp_llama.h:128-216 | the rank's output is its part of the down projection, plus the residual on rank 0, in both forms |
| `TensorParallelMlp.CatGateUpWeights` | src/layers/mlp_llama.h:330-362 | the join puts the two converted matrices side by side in every row |
| `TensorParallelMlp.CatNeedsPlainRows` | src/layers/mlp_llama.h:330-351 | the join has the height of the hidden size after packing exactly if the weight is stored by rows |
| `TensorParallelMlp.RanksAddUp` | src/layers/mlp_llama.h:156-206 | the ranks' cells add up to the unsplit layer's cell, residual counted once, for every number of ranks |
| `TensorParallelMlp.RunAllRanks` | src/layers/mlp_llama.h:44-216 | loading, running and adding up all ranks gives the unsplit layer |
| `TensorParallelMlp.MlpWrittenOut` | src/layers/mlp_llama.h:219-297 | a cell of the unsplit layer written out over the weight files: act(gate projection) times up projection times down weight, summed over the intermediate columns, plus the residual |
| `TensorParallelMlp.UpWeightsAreLinear` | src/layers/mlp_llama.h:252-269 | up to the residual the layer is linear in the up weights, so zero up weights leave the residual |
| `TensorParallelMlp.ConstantActivationIgnoresGate` | src/layers/mlp_llama.h:221-250 | with a constant activation the layer does not depend on the gate weights |
| `TensorParallelMlp.TotalIsLinearInUp` | src/layers/mlp_llama.h:156-269 | the ranks' total is linear in the up weights too |
| `TensorParallelMlp.TotalIgnoresGate` | src/layers/mlp_llama.h:156-250 | and with a constant activation does not depend on the gate weights |
| `HeadSplit.QueryHeadsTile` | src/layers/attention.h:58-62 | the ranks' query heads follow one another, a rank has some exactly if there are enough |
| `HeadSplit.KVRangeIsLeastCover` | src/layers/attention.h:64-66 | the rank's kv range holds the kv heads of its query heads and no others |
| `HeadSplit.LocalMapIffEvenlyServed` | src/kernels/attention_kernels.h:695-713 | the kernels' local head map agrees with the global one for all heads of a rank exactly if each of its kv heads serves the same number of them |
| `HeadSplit.LocalMapOfRankIff` | src/layers/attention.h:57-67 | the same for the heads of every rank that has some, in every configuration |
| `HeadSplit.LocalMapWrittenOut` | src/layers/attention.h:57-67 | the same in numbers: i / (n / k) is (startQ + i) / (attHeadNum / kvHeadNum) - startKV for all the rank's heads exactly if n heads are spread evenly over its k kv heads |
| `HeadSplit.EvenConfigurations` | src/layers/attention.h:57-67 | the map is right on every rank when kv heads divide by ranks, or query heads divide by ranks and ranks by kv heads |
| `HeadSplit.BiasOffsetIff` | src/layers/attention.h:171-173 | the query bias is read at the rank's first head exactly if heads divide evenly or the rank has a spare head |
| `HeadSplit.BiasRightEverywhereIff` | src/layers/attention.h:171-173 | it is right on all ranks exactly if heads divide evenly |
| `HeadSplit.OutputProjectionAddsUp` | src/layers/attention.h:180-185 | a sum over the columns of all heads is the sum of the pieces over each rank's heads |
| `OutputProjection.LoadOutputWeight` | src/layers/attention.h:180-200 | a rank loads the rows of the projection weight that belong to its own query heads |
| `OutputProjection.ProjectRank` | src/layers/attention.h:601-635 | a rank leaves its piece of the product, rank 0 with bias and scaled input, the others with a zeroed bias |
| `OutputProjection.ProjectAllRanks` | src/layers/attention.h:180-219 | loading, projecting and adding up all ranks gives attention output times weight plus bias plus scaled input, each once |
| `OutputProjection.ProjectedWrittenOut` | src/layers/attention.h:601-635 | a cell of the whole projection written out over the weight file, with bias and scaled residual |
| `VocabularySplit.DistLinear.SetWeight` | src/layers/dist_linear.h:49-87 | size and offset are the rank's cut points, weight and bias are exactly that slice |
| `VocabularySplit.DistLinear.Forward` | src/layers/dist_linear.h:91-102 | the rank computes its own logits of every row |
| `VocabularySplit.ReassembleRow` | evaluation/eval.cpp:116-124 | the running offset puts every rank's element of a row in its place and keeps the other rows |
| `VocabularySplit.Reassemble` | evaluation/eval.cpp:114-126 | every logit is the element its rank sent for it |
| `VocabularySplit.GatherRebuilds` | evaluation/eval.cpp:103-126 | from the ranks' gathered buffers every logit of every row is rebuilt, none is left out |
| `VocabularySplit.EvalForward` | evaluation/eval.cpp:74-134 | slicing, computing, gathering and reassembling give the logits of the unsplit layer |
| `VocabularySplit.LogitWrittenOut` | src/layers/dist_linear.h:91-102 | a logit written out over the stored weight and bias |
| `KVCachePool.StepInv` | src/common/kvcache_mgr.h:62-98 | every operation keeps each buffer in exactly one place, live under one id or free once |
| `KVCachePool.HistoryKeepsPool` | src/common/kvcache_mgr.h:62-98 | over any history no buffer is lost or shared, and as many were allocated as sequences were ever live at once |
| `KVCachePool.PrepareLinesUp` | src/common/kvcache_mgr.h:129-143 | a successful prepare lines the ready list up with the ids |
| `KVCachePool.LinesUpUntilDeleted` | src/common/kvcache_mgr.h:62-98 | one operation keeps it so exactly unless it deletes one of its own sequences |
| `KVCachePool.LinesUpAlwaysIff` | src/common/kvcache_mgr.h:62-143 | over any history up to the next prepare it lines up at every moment exactly if none of its own sequences is deleted |
| `KVCachePool.DeletedAndAddedAgain` | src/common/kvcache_mgr.h:62-98 | a sequence deleted and added again at once gets its buffer back and the list lines up again |
| `KVCachePool.StaleReadyIsReused` | src/common/kvcache_mgr.h:62-98 | after such a deletion the next sequence gets the buffer the ready list still names |
| `KVCachePool.KVCacheMgrImpl.DelSequence` | src/common/kvcache_mgr.h:62-74 | fails exactly for an unknown id, otherwise moves the buffer to the free list |
| `KVCachePool.KVCacheMgrImpl.AddSequence` | src/common/kvcache_mgr.h:76-98 | fails exactly for a known id, reuses the last free buffer, gives all its tensors the capped length, leaves the other sequences' tensors alone |
| `KVCachePool.KVCacheMgrImpl.MaxLen` | src/common/kvcache_mgr.h:90 | the capacity is never above the configured one, is the one wanted if that is positive and fits, and the configured one otherwise |
| `KVCachePool.KVCacheMgrImpl.PrepareCache` | src/common/kvcache_mgr.h:129-143 | fails exactly if an id is unknown and then changes nothing |
| `KVCachePool.KVCacheMgrImpl.GetKey` | src/common/kvcache_mgr.h:146-153 | tensor 2l of every ready buffer, in order |
| `KVCachePool.KVCacheMgrImpl.GetValue` | src/common/kvcache_mgr.h:156-163 | tensor 2l + 1 of every ready buffer, in order |
| `Sequences.SequenceMeta.StepForward` | src/common/sequence.h:104-113 | one step with one token |
| `Sequences.SequenceMeta.StepForwardCandidates` | src/common/sequence.h:116-125 | one step with a list of candidates |
| `Sequences.SingleTokenRuns` | src/common/sequence.h:104-151 | over any run of single-token steps past plus input is the total length and the input is the matching suffix of all tokens |
| `Sequences.SingleTokenRunWrittenOut` | src/common/sequence.h:104-113 | field by field: the generated tokens are those of the steps in order, and past and input lengths are given by the prompt and the number of steps |
| `Sequences.PastPlusInputIff` | src/common/sequence.h:116-125 | with candidate lists the law holds exactly if the earlier steps brought as many tokens as there were steps |
| `Sequences.TwoCandidatesLoseARow` | src/common/sequence.h:116-125 | one step with two candidates breaks it |
| `Sequences.PositionsTile` | src/layers/attention.h:522-534 | positions and cache rows of a run are 0, 1, 2, ... without gap or overwrite, and row p belongs to token p |
| `Sequences.DefaultPositionIds` | src/layers/attention.h:526-531 | the stacked position ids of a mixed batch |
| `Sequences.StackedAt` | src/layers/attention.h:526-531 | every sequence finds its own positions at its own offset |
| `Sequences.PositionOfToken` | src/layers/attention.h:526-531 | the position of token k of sequence i is its past length plus k, at the sum of the input lengths before it plus k |
| `Sequences.SequenceIDManager.CreateSequenceID` | src/common/sequence.h:54-61 | the n-th creation gets n modulo 10240 |
| `Sequences.IdsCollideIff` | src/common/sequence.h:54-61 | two creations share an id exactly if they are a multiple of 10240 apart |
| `Sequences.SequencePool.Add` | src/common/sequence.h:346-363 | refused exactly for a taken id without force; the pool stays sound unless the group added is the one deleted |
| `Sequences.SequencePool.Remove` | src/common/sequence.h:377-388 | removes exactly the id, deleting its group if deep |
| `Sequences.SequencePool.Replace` | src/common/sequence.h:390-400 | replaces exactly a known id |
| `Sequences.SequencePool.NewGroup` | src/common/sequence.h:322-326 | a new group with a given id enters the pool exactly if its id is free |
| `Sequences.SequencePool.NewGroupWithIds` | src/common/sequence.h:297-301 | without a given id the group takes the id of its first beam, and every beam draws one |
| `DecoderBlocks.StagesTile` | src/layers/decoder_block.h:30-38 | the stages' layers follow one another from the first to the last |
| `DecoderBlocks.DecoderBlock.Forward` | src/layers/decoder_block.h:84-127 | for any layer count, also with one buffer for both, the output buffer holds all layers applied in order, each on its own cache, once |
| `DecoderBlocks.DecoderBlock.RunLayer` | src/layers/decoder_block.h:89-117 | one layer: its cache and the attention output come from its attention on its own cache, the output from its feed-forward step |
| `DecoderBlocks.LayersWrittenOut` | src/layers/decoder_block.h:89-120 | the values between the layers, one by one, and what each layer leaves in its cache |
| `DecoderBlocks.RunPipeline` | src/layers/decoder_block.h:29-127 | all stages in rank order apply every layer once, in order, to its own cache; a count that does not divide is refused |

## Left out

- Floating-point rounding, conversion between number formats, the bit patterns of masks and the packed layouts of the matrix libraries; masks are lane counts and packing keeps the matrix.
- KVCacheTensors.KVCacheTensor.Reorder: moves the rows but not the int8 scales, as the code does; the int8 key path of sharded attention, whose scales are not offset, is left out too.
- ShardedAttention.CrossAttnShardedHead: one query token per call; the alignment of the scratch rows to 16 is not modelled, and the head size may be any number.
- SelfAttention.RunTasks: tasks run one after the other here; their accesses are interleaved in SelfAttentionThreads, whose steps fill one scratch row, store one output row or pack one matrix each.
- CrossAttention.EveryScheduleAgrees: a step reads or writes one whole row, in the order of the row numbers; weak memory effects are not modelled.
- SpinProtocol.EveryScheduleAgrees: sequentially consistent memory, the output row stored in one access; an unfair schedule may poll forever.
- RotaryEmbedding.LlamaApplyRotaryPosEmbed: even head sizes only, because with odd ones the result depends on the order of the threads (OrderIrrelevantIffEven); query and key are columns of one buffer, as attention passes them.
- RotaryChatGlm2.ChatGlm2ApplyRotaryPosEmbed: at least sixteen pairs, below which blocks reach into the next head (GlmHeadsApartIff), and key heads right behind the query heads, which the kernel takes for granted.
- GemmTransB.SmallGemmTransB: K of at least one unless M is one, because the tile kernels read the last vector of K without asking whether there is one.
- GemmRowMajor.SmallSgemm: the leading dimensions are the widths of the matrices; pointers are offsets into them.
- TensorParallelMlp.LlamaMlp.Forward: the matrix helper is its contract, a product with an epilogue; quantised weights with their scales, zeros and sums are left out.
- TensorParallelMlp.RunAllRanks: plain files for the concatenated form, because a transposed one leaves the ranks without their share (SetWeights); the reduction over ranks is addition in rank order.
- OutputProjection.ProjectAllRanks: the attention output of all heads is given; the query, key and value weights are not loaded here.
- KVCachePool.KVCacheMgrImpl.AddSequence: prefix sharing, addPrefix and reorderCache of the pool are stubs in the source and left out.
- Sequences.SequencePool.NewGroup: two overloads stand for all; sampling data and the task queues are left out.
- DecoderBlocks.DecoderBlock.Forward: a layer is a pair of functions on the whole buffer and its own cache; reductions over ranks are in TensorParallelMlp and OutputProjection, loading of weights is not part of it.
- KVCacheManagers.KVCacheManager.ExpandCache: the parallel loops over positions run in order.
- KVCacheManagers.KVCacheManager.RunBeams: requires that rows of one token that agree in their first word are equal, without which a skipped copy may spoil a gather (ReorderPlan.GatherIffSafe).
- expandAllSequence assigns a pair to a pointer and repeats expandOneSequence.
- Fused-copy and flash attention, norms, masks, ALiBi slopes and YaRN, GPU branches, messaging, file loading, tokenizers, servers and demos.
