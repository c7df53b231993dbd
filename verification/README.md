# Verified models of vLLM and verl components

This project models the parts of vLLM and verl whose correctness rests on bookkeeping that is easy to get wrong:
a fast or distributed form that has to agree with a simple one, and resources that have to be conserved over whole
runs. Every module is self-contained Dafny 4.11; `dafny verify dfyconfig.toml` checks all of them together.

| component | modules |
|---|---|
| Selective scan kernel with prefix caching (vLLM) | `SelectiveScan`, `ScanKernel`, `ScanMetadata`, `PrefixCache`, `MambaBlocks`, `ScanGrid`, `ScanLaunch`, `BlockPool` |
| Per-token int8 quantizer (vLLM) | `Int8Quant` |
| Ninja build-time report (vLLM) | `BuildTimeSweep` |
| Chunked device-memory allocator, ROCm branch (vLLM) | `ChunkSizes`, `AllocatorState`, `CumemAllocator` |
| Checkpoint conversion and merging (verl) | `Tensors`, `CheckpointLayout`, `LayerMerge`, `PipelineShards`, `ExpertPartition` |
| DataProto batch algebra (verl) | `Columns`, `DataProto`, `BatchConcat`, `Dispatch`, `Expand`, `DeepEqual` |

`Arithmetic` holds the few facts about products and quotients that the block arithmetic rests on, `Collections` the
definitions that several components share.

## What is proved

**Selective scan.** A prefill request is a plain left fold over its tokens. The kernel sees it in visits, cut into
chunks at cache-block boundaries, with outputs overwriting `delta` and `z` in place and a state snapshot stored after
every chunk. `ComputeChunkMetadata` and `PlanShape` prove that the backend's metadata has the shape the kernel relies
on; `RunProgram` proves the in-place kernel against the plain scan and `RunStep` against the scan of the whole request;
`EveryRunIsThePlainScan` proves that however a request is cut into visits, every visit finds the right state, produces
the outputs of the uninterrupted scan and leaves the right snapshots, although between visits the table may change and
every slot may be rewritten except that of the last computed block. `ScheduleStep` proves that the block manager, which
frees all earlier blocks and pads a prefix hit with the null block, keeps exactly that much. `AnyOrderSameMemory` and
`GridComputesScan` prove the launch for every instruction-level interleaving, and `LaunchIsIndependent` that a launch
over packed sequences meets their precondition. `StateIsSum` and `OutputIsSum` solve the recurrence. `BlockPool` runs any number of requests over one pool with prefix hits,
eviction and caching ahead of the computation: in every run every execution is the plain scan of its request
(`EveryExecutionIsSound`), successive visits of a request follow each other as the request-level theorem asks
(`VisitsFollow`), the scheduled requests make a launch (`LaunchFromPool`), and a block that was filled serves every later
request with the same prefix until it is handed out again (`FilledBlockServes`).

**Build-time report.** The specification is an integral over any partition of the time line; the one-pass sweep with a
single running total is proved equal to it for every partition, for any order of the entries and any resolution of
ties.

**Allocator.** A state machine over allocate, sleep, wake and release together with the Python side's dictionary, proved
safe over every run, and a class with the allocator's own control flow over a driver that may refuse any call, proved
to take exactly those steps. `RegistryExact` says when the dictionary matches the allocations; `SleepAll` walks the
dictionary in any order and, by counting mapped chunks, can only go through when every entry is an awake allocation,
which `EntriesAwake` says of a run exactly when no entry is left over.

**Checkpoints.** Interleaving, sharding and merging are inverse to each other for all head counts and tensor-parallel
sizes that divide the groups; the layer renumbering is a bijection exactly when no empty stage precedes a non-empty
one; the pipeline split and the expert partition succeed under exactly stated conditions.

**DataProto.** `Rows` turns a batch into the sequence of its rows, tensor and object columns side by side; every
operation is proved to be the corresponding operation on whole rows, so that alignment is part of each statement.
`RunWorkers` is the round trip through a worker group. `DecidesIffAcyclic` settles the deep comparison.

### Where the code does not keep a promise

Each names the lemma or clause with the exact condition; where the failing input is a value rather than a driver
failure, a lemma evaluates it or shows the failure of every such input.

- Asymmetric int8: the half-step bound fails exactly when the rounded origin does not survive the int32 casts
  (`AsymmetricWithinHalfStep`); a constant row of 30000 is enough (`ConstantRowBreaksBound`).
- `create_and_map` entered with a pending error keeps the first handle it creates (`CreateAndMap`, `LeakedHandle`), and
  a failure to set access rights leaves everything mapped; `my_malloc` inherits both (`Malloc`).
- `my_malloc` returns null until a Python-side call clears an old error, and leaks its reservation when a host
  allocation or the callback fails (`Malloc`); `my_free` leaves a consistent state exactly when it is given the aligned
  size (`FreedWithSize`), and freeing a sleeping allocation leaves an error behind (`Free`).
- An allocation rolled back after its callback stays in the Python side's dictionary (`RegistryExact`), and the next
  sleep of everything then fails, whatever the freed handle cells hold (`SleepAll`); one rolled-back allocation is
  enough (`StaleEntry`).
- The chunk size wraps around to zero exactly when its sum reaches 2^64 (`ChunkUsable`): 2^44 - 1 megabytes with a
  2 MB granularity (`WrappingSetting`); the chunk count does when its own sum reaches 2^64 (`FillSizes`): 4 MB in
  chunks of 2^44 - 2 megabytes (`WrappingCount`).
- A request that is dropped after it was scheduled and before its step runs, as priority preemption can do, leaves the
  blocks that the step would have filled in the prefix cache; dropping it is safe when the step fills no block
  (`DropKeeps`), and one token with blocks of one token is not (`DroppedBeforeExecution`).
- A stage without layers before one with layers makes a hole in the merged layer numbers (`RenumberingIsBijective`):
  stages of 0 and 1 layers (`EmptyStageFirst`).
- `get_dynamic_pipeline_shards` finds no split and fails on an index exactly when
  `ceil(layers / pp) * (pp - 2) > layers - 2` (`DynamicShards`), for instance 5 layers on 4 stages
  (`FiveLayersFourStages`).
- Experts are lost exactly when the expert-parallel size does not divide their number (`EveryExpertPlaced`), for
  instance the last of five on two ranks (`LostExpert`); the element check of the grouped path notices exactly then
  (`CheckDetectsLostExperts`), and with fewer experts than ranks it reads a size that was never set (`ConvertExperts`).
- `DataProto.chunk` with auto padding fails when the tensors cannot be cut into that many non-empty pieces
  (`Chunk`, `ChunkDelivers`): five rows in four (`FiveRowsInFour`).
- A join whose first part has no tensor batch loses or misplaces rows exactly when a part with rows has a tensor column
  or other object columns than the first (`ObjectJoinKeepsRows`); a tensor row can vanish (`DroppedTensors`).
- The consistency check accepts ragged object columns when there is no tensor batch (`CheckMeansAligned`,
  `RaggedAccepted`).
- Chunking a future that is itself a piece chunks the whole again (`NestedChunk`, `NestedChunkLoses`).
- `fold_batch_dim` folds the object columns of its argument in place, which leaves the argument inconsistent unless it
  has no object column or nothing was folded (`FoldedInput`, `FoldedInputBreaks`).
- `unfold_column_chunks` without split keys works exactly on batches without object columns (`NoSplitKeys`), so
  not on one object column (`NoSplitKeysFails`).
- `sample_level_repeat` with a single count for several rows fails on tensors unless there is nothing to repeat
  (`BroadcastCount`): two rows of one tensor column and the counts [2] (`BroadcastFails`).
- `_deep_equal` on a cyclic left operand answers true for some structurally different right operand
  (`DecidesIffAcyclic`, `SelfReference`).

### Modelling decisions

- Tensor numerics are exact reals; `exp` and `log` are uninterpreted positive and real functions.
- A tensor is a sequence of rows; a batch cell is a scalar or a stack of cells. `torch.chunk` of an empty tensor gives
  the requested number of empty pieces, and `TensorDict.chunk` cuts like `torch.chunk`.
- Between visits of a request only the table entry and the slot of its last computed block are kept; the block pool
  hands out blocks that nobody holds, possibly just freed ones, and the null block is never handed out.
- A block hash is the token prefix it is the hash of; the pool of `BlockPool` is that of one channel of one layer, and
  a request's tokens are those it ends up with.
- A handle cell that was freed reads as any handle.
- Float-to-int32 casts of the quantizer wrap around (two's complement); `OriginInRange` gives the bound that holds for
  any cast that keeps what fits.
- The driver of the allocator hands out handles and addresses that are not in use, frees a range only as a whole and
  only when nothing is mapped in it, fails an illegal call without effect, and may refuse any call; `refused` counts
  refusals of legal unmap, release and free calls, which the code has no way to undo.
- Numbers, strings and other leaves of a compared object graph are opaque values with decidable equality.
- Keys of checkpoint parameters are abstract: a local layer and a name.

## Model

| member | source | states |
|---|---|---|
| SelectiveScan.FoldAppend | vllm/vllm/_xpu_ops.py:623-659 | scanning two token runs one after the other is scanning their concatenation |
| SelectiveScan.OutAfterRestart | vllm/vllm/_xpu_ops.py:623-667 | a scan restarted from the state after a prefix gives the outputs of the uninterrupted scan |
| SelectiveScan.StepSizeIs | vllm/vllm/_xpu_ops.py:412-413 | with exp and log inverse, the exponential of a softplus step size is one more than that of the biased delta up to 20, above it and without softplus the step is the biased delta |
| SelectiveScan.AdvanceIs | vllm/vllm/_xpu_ops.py:638-657 | one step multiplies a lane by exp(step * A) and adds step * u * B |
| SelectiveScan.StateIsSum | vllm/vllm/_xpu_ops.py:623-657 | the recurrence solved: the state is the initial state decayed by all tokens plus what every token brings in, decayed by those after it |
| SelectiveScan.OutputIsSum | vllm/vllm/_xpu_ops.py:659-662 | the output is that state weighted by C and summed over the lanes, plus D times the input |
| SelectiveScan.GateIs | vllm/vllm/_xpu_ops.py:667-670 | the gated output times one plus exp(-z) is the output times z |
| SelectiveScan.FoldPad | vllm/vllm/_xpu_ops.py:533-543 | widening the state to the power-of-two block with zero lanes changes no lane of the state |
| SelectiveScan.DotPad | vllm/vllm/_xpu_ops.py:651-662 | and adds nothing to the output sum |
| ScanKernel.ScanToken | vllm/vllm/_xpu_ops.py:623-675 | one token: state, in-place output over delta, gated output over z, nothing else written |
| ScanKernel.ScanTokens | vllm/vllm/_xpu_ops.py:623-677 | after any number of tokens the rows hold the plain scan of the tokens that were there before, although they were overwritten on the way |
| ScanKernel.RunChunks | vllm/vllm/_xpu_ops.py:589-703 | the chunk loop, over any number of chunks, leaves the plain scan's outputs and, in the slot of each chunk's block, the fold over exactly the tokens up to the end of that chunk |
| ScanKernel.RunProgram | vllm/vllm/_xpu_ops.py:507-714 | a whole program: with cache indices nothing changes on the null block and otherwise the rows are the scan from the slot, which gets the final state; without indices always so; with prefix caching the slot of the initial state decides and the chunk states are stored; other dims are never written |
| ScanMetadata.CountCovers | vllm/vllm/v1/attention/backends/mamba_attn.py:260-282 | the chunks of a request use up exactly its new tokens |
| ScanMetadata.InnerBoundary | vllm/vllm/v1/attention/backends/mamba_attn.py:260-280 | every chunk but the last ends on a block boundary of the whole sequence |
| ScanMetadata.AppendRequest | vllm/vllm/v1/attention/backends/mamba_attn.py:254-282 | one request appends its chunk starts in order, each tagged with the request |
| ScanMetadata.ComputeChunkMetadata | vllm/vllm/v1/attention/backends/mamba_attn.py:248-287 | for every request of a batch the recorded chunk range starts and ends where its tokens do; a chunk never mixes requests |
| ScanMetadata.PlanShape | vllm/vllm/v1/attention/backends/mamba_attn.py:337-366 | the metadata meets the kernel's assumptions: boundaries cover the sequence, last block is first block plus chunks minus one |
| ScanMetadata.BlockOfChunk | vllm/vllm/_xpu_ops.py:602-606 | the kernel's block arithmetic sends the state after chunk k to block first + k |
| ScanMetadata.StartIsComputed | vllm/vllm/_xpu_ops.py:603-606 | with more than one chunk the kernel's start position is the number of computed tokens |
| PrefixCache.AfterAt | vllm/vllm/_xpu_ops.py:680-703 | each block the step passes holds the fold up to the end of its own chunk, whatever is stored later in the step; earlier table entries play no part |
| PrefixCache.PrefillStep | vllm/vllm/_xpu_ops.py:507-714 | from the one slot of the last computed block: outputs of the plain scan, snapshots of every block passed, the next load slot ready, other slots untouched |
| PrefixCache.RunStep | vllm/vllm/_xpu_ops.py:507-714 | the kernel on memory: delta and z rows hold the outputs of the whole request's scan at these positions, the cache the snapshots of the step |
| PrefixCache.EveryRunIsThePlainScan | vllm/vllm/_xpu_ops.py:507-714 | however a request is cut into visits and whatever happens to the table and all slots but the last computed block's in between, every visit finds the right state, gives the right outputs and leaves the right snapshots |
| PrefixCache.SharedPrefix | vllm/vllm/v1/core/single_type_kv_cache_manager.py:1041-1063 | one snapshot of another request with the same prefix, in one slot, is enough to start from |
| MambaBlocks.FindLongestHit | vllm/vllm/v1/core/single_type_kv_cache_manager.py:1041-1065 | the last cached block whose end is aligned for the other groups, padded with null blocks; no later cached block is aligned, and empty iff there is none |
| MambaBlocks.HitIsManaged | vllm/vllm/v1/core/single_type_kv_cache_manager.py:1056-1063 | a hit is a managed table for the tokens it covers |
| MambaBlocks.HitIsReady | vllm/vllm/v1/core/single_type_kv_cache_manager.py:1041-1065 | and starts ready when the cached block holds the scan of that prefix |
| MambaBlocks.RemoveSkipped | vllm/vllm/v1/core/single_type_kv_cache_manager.py:512-550 | a block becomes the null block exactly if all its tokens come before the last one that is sure to stay; what was not freed before is freed, right to left, and nothing a later step loads |
| MambaBlocks.SkippedExactly | vllm/vllm/v1/core/single_type_kv_cache_manager.py:1067-1077 | block i is skipped iff its last token and the drafts come before the last computed token |
| MambaBlocks.AllocateNew | vllm/vllm/v1/core/single_type_kv_cache_manager.py:1174-1181 | extends the table, by the next blocks of the pool and no further, to one block per block of tokens and one per draft token; those are distinct from the ones held |
| MambaBlocks.RequiredBlocks | vllm/vllm/v1/core/single_type_kv_cache_manager.py:1174-1181 | the extra tokens asked for are one more block per draft token |
| MambaBlocks.ScheduleStep | vllm/vllm/v1/core/single_type_kv_cache_manager.py:1067-1077 | the table with the skipped blocks nulled and pool blocks appended, drafts included, meets the scan's precondition, the load slot is the old one and not the null block, and the table is managed for the next step |
| MambaBlocks.ManagedStep | vllm/vllm/_xpu_ops.py:508-514 | a step on a managed table is one the scan is proved for, and its program does not leave at the null block |
| MambaBlocks.HitRepeatsNull | vllm/vllm/v1/core/single_type_kv_cache_manager.py:1061-1061 | a table with the null block twice is managed |
| ScanGrid.ExecLocal | vllm/vllm/_xpu_ops.py:623-675 | an instruction depends only on its register state and the cells it touches |
| ScanGrid.ScheduleKeepsInv | vllm/vllm/_xpu_ops.py:494-502 | in every prefix of every interleaving each program sees what it would see alone |
| ScanGrid.AnyOrderSameMemory | vllm/vllm/_xpu_ops.py:494-502 | any two complete interleavings of independent programs leave the same memory |
| ScanGrid.SoloComputesKernel | vllm/vllm/_xpu_ops.py:507-714 | the instruction sequence of a program computes what the in-place kernel computes |
| ScanGrid.GridComputesScan | vllm/vllm/_xpu_ops.py:900-902 | after any complete interleaving the aliased rows and cache cells hold the plain scan's values |
| ScanLaunch.RowsApart | vllm/vllm/_xpu_ops.py:494-502 | rows of different (batch, dim) programs of a packed tensor never overlap |
| ScanLaunch.LaunchIsIndependent | vllm/vllm/_xpu_ops.py:559-587 | a launch whose sequences use separate slots is independent; programs that find the null block use none |
| BlockPool.AdmitHitKeeps | vllm/vllm/v1/core/single_type_kv_cache_manager.py:1113-1121 | a hit on a block that was not cached in the current step keeps the pool consistent: it holds its prefix's state and nobody will store into it |
| BlockPool.ScheduleKeeps | vllm/vllm/v1/core/kv_cache_manager.py:375-434 | freeing, allocating with eviction and caching the blocks about to be filled keeps the pool consistent |
| BlockPool.ScheduleTable | vllm/vllm/v1/core/kv_cache_manager.py:375-418 | the table after it, entry by entry: skipped blocks are the null block, the others stay, the new ones follow, enough for tokens and drafts |
| BlockPool.ScheduleCaches | vllm/vllm/v1/core/block_pool.py:263-281 | every block the scheduled tokens fill is cached for the tokens up to its end, and marked as cached in this step |
| BlockPool.ScheduleMarks | vllm/vllm/v1/core/single_type_kv_cache_manager.py:1268-1278 | the prefixes marked as cached in this step grow by exactly those of the blocks filled |
| BlockPool.ScheduleLeaves | vllm/vllm/v1/core/block_pool.py:347-390 | every other entry stays unless its block was handed out, and no other entry is made |
| BlockPool.CanGoOn | vllm/vllm/v1/core/kv_cache_manager.py:385-398 | a new request can always enter, and one is scheduled as soon as the blocks it lacks are free |
| BlockPool.FullBlocksUncached | vllm/vllm/v1/core/block_pool.py:267-281 | the blocks that enter the cache are not in it yet, as the pool asserts |
| BlockPool.ExecuteKeeps | vllm/vllm/_xpu_ops.py:507-714 | so does the scan of a scheduled request, which fills the blocks that were cached ahead |
| BlockPool.NewStepKeeps | vllm/vllm/v1/core/single_type_kv_cache_manager.py:1280-1281 | and the start of a new step, once everything scheduled was executed |
| BlockPool.DropKeeps | vllm/vllm/v1/core/single_type_kv_cache_manager.py:363-378 | and the end of a request that owes no block of the cache anything |
| BlockPool.DropFrees | vllm/vllm/v1/core/single_type_kv_cache_manager.py:363-378 | a block that only the ended request held can be handed out |
| BlockPool.DroppedBeforeExecution | vllm/vllm/v1/core/sched/scheduler.py:493-520 | dropped between scheduling and execution, a request leaves a cached block without its state, and a later request is admitted to it |
| BlockPool.RunKeeps | vllm/vllm/v1/core/kv_cache_manager.py:238-446 | in every run of any number of requests over one pool the pool is consistent |
| BlockPool.EveryExecutionIsSound | vllm/vllm/_xpu_ops.py:507-714 | in every run every execution finds its request's state, gives the plain scan's outputs and leaves its states |
| BlockPool.EntryRemains | vllm/vllm/v1/core/block_pool.py:347-390 | an entry stays in the cache until its block is handed out again |
| BlockPool.FilledBlockServes | vllm/vllm/v1/core/single_type_kv_cache_manager.py:1041-1065 | once the step that filled a block is over, every new request with the same tokens up to its end can start from it, and its state is there |
| BlockPool.VisitsFollow | vllm/vllm/v1/core/single_type_kv_cache_manager.py:1067-1077 | two successive executions of a request follow each other as the request-level theorem requires, whatever other requests did in between |
| BlockPool.ScheduledSlotsApart | vllm/vllm/v1/core/block_pool.py:333-363 | of two scheduled requests neither stores into a slot that the other loads or stores |
| BlockPool.LaunchFromPool | vllm/vllm/_xpu_ops.py:559-587 | so the programs of all scheduled requests make a launch |
| Int8Quant.ClampNear | vllm/vllm/_xpu_ops.py:745-749 | half a unit outside the range the clamp still costs at most half a unit |
| Int8Quant.WidthIs | vllm/vllm/_xpu_ops.py:729-730 | the bit widths are exactly those whose largest code is positive and fits the byte |
| Int8Quant.SymmetricWithinHalfStep | vllm/vllm/_xpu_ops.py:736-749 | every input of a row comes back within half a step, for every row and width, floor and ties included |
| Int8Quant.SymmetricExtreme | vllm/vllm/_xpu_ops.py:729-740 | in a row above the floor the entry of largest magnitude gets the largest code, 127 or -127 in eight bits |
| Int8Quant.AsymmetricWithinHalfStep | vllm/vllm/_xpu_ops.py:741-749 | the bound holds for a whole row if and only if the rounded origin survives the int32 casts |
| Int8Quant.AsymmetricExtremes | vllm/vllm/_xpu_ops.py:741-749 | in a row above the floor the minimum gets the code 0 and the maximum the largest, 255 in eight bits, one less exactly if the origin was rounded up from a half |
| Int8Quant.LostZeroPoint | vllm/vllm/_xpu_ops.py:743-749 | otherwise the row minimum comes back more than half a step away |
| Int8Quant.ConstantRowBreaksBound | vllm/vllm/_xpu_ops.py:742-743 | a constant row of 30000 is such a row |
| Int8Quant.OriginInRange | vllm/vllm/_xpu_ops.py:743-749 | strictly inside the int32 range the bound holds whatever an out-of-range cast does |
| BuildTimeSweep.TotalIsAnIntegral | vllm/tools/report_build_time_ninja.py:238-255 | share, busy and idle time do not depend on the partition they are summed over |
| BuildTimeSweep.RunningIsConcurrency | vllm/tools/report_build_time_ninja.py:230-255 | the tasks in the dictionary between two events are exactly those whose interval covers the cell |
| BuildTimeSweep.BooksAdvance | vllm/tools/report_build_time_ninja.py:240-244 | advancing the running total charges every running task its share of the cell |
| BuildTimeSweep.MissingMeansReversed | vllm/tools/report_build_time_ninja.py:248-254 | a stop that does not find its task belongs to a task with end before start |
| BuildTimeSweep.Sweep | vllm/tools/report_build_time_ninja.py:230-256 | succeeds iff every task has start <= end; every charge is the task's integral; no task is left running; ties in any order |
| BuildTimeSweep.SharesSumToBusy | vllm/tools/report_build_time_ninja.py:221-256 | the shares of all tasks sum to the measure of the union of their intervals |
| BuildTimeSweep.BusyPlusIdle | vllm/tools/report_build_time_ninja.py:220-256 | busy and idle time make up the length |
| BuildTimeSweep.ShareWithinDuration | vllm/tools/report_build_time_ninja.py:74-89 | a share lies between 0 and the task's duration |
| BuildTimeSweep.SortEvents | vllm/tools/report_build_time_ninja.py:223-228 | a permutation of the events ordered by time, starts before stops |
| BuildTimeSweep.CollectEvents | vllm/tools/report_build_time_ninja.py:209-220 | both events of every entry, earliest start and latest end, sum of durations |
| BuildTimeSweep.OrderOfEntries | vllm/tools/report_build_time_ninja.py:212-219 | every reported quantity depends only on the set of entries |
| BuildTimeSweep.SummarizeEntries | vllm/tools/report_build_time_ninja.py:198-256 | failure cases exactly; weights are the integrals for every partition; length minus weighted total is the idle time and never negative |
| ChunkSizes.BaseChunk | vllm/csrc/cumem_allocator.cpp:24-42 | a positive number of megabytes that fits 64 bits gives exactly that many bytes, every other setting 256 MB |
| ChunkSizes.ChunkIs | vllm/csrc/cumem_allocator.cpp:344-346 | the chunk size is the least multiple of the granularity that holds the setting, and zero iff rounding wraps |
| ChunkSizes.RoundUpExact | vllm/csrc/cumem_allocator.cpp:319-319 | rounding up gives the least multiple of the granularity that is large enough, if the sum does not wrap |
| ChunkSizes.ChunkUsable | vllm/csrc/cumem_allocator.cpp:344-346 | the aligned chunk size is nonzero iff its sum does not wrap |
| ChunkSizes.WrappingSetting | vllm/csrc/cumem_allocator.cpp:344-346 | 2^44 - 1 megabytes with 2 MB granularity give a chunk size of zero |
| ChunkSizes.CountWraps | vllm/csrc/cumem_allocator.cpp:347-348 | a chunk count whose sum wraps is zero |
| ChunkSizes.WrappingCount | vllm/csrc/cumem_allocator.cpp:344-348 | 4 MB in chunks of 2^44 - 2 megabytes give a count of zero |
| ChunkSizes.FillSizes | vllm/csrc/cumem_allocator.cpp:354-369 | sizes are multiples of the granularity and tile the aligned size, full chunks first, iff the count does not wrap; else there are none |
| AllocatorState.AddrTiles | vllm/csrc/cumem_allocator.cpp:160-179 | chunks mapped at running prefix sums tile the reserved range with no gap or overlap |
| AllocatorState.MappedDisjoint | vllm/csrc/cumem_allocator.cpp:161-179 | mapped chunks of all allocations are pairwise disjoint |
| AllocatorState.LiveIffMapped | vllm/csrc/cumem_allocator.cpp:150-179 | a handle is live exactly while some chunk is mapped to it |
| AllocatorState.AddedValid | vllm/csrc/cumem_allocator.cpp:299-369 | a fresh reservation keeps the invariant |
| AllocatorState.WokenValid | vllm/csrc/cumem_allocator.cpp:150-179 | mapping a sleeping allocation to fresh handles keeps the invariant |
| AllocatorState.SleptValid | vllm/csrc/cumem_allocator.cpp:216-237 | unmapping and releasing keeps the invariant |
| AllocatorState.DroppedValid | vllm/csrc/cumem_allocator.cpp:527-538 | giving up a sleeping allocation keeps the invariant |
| AllocatorState.WakeThenSleep | vllm/csrc/cumem_allocator.cpp:566-729 | waking and sleeping again changes nothing but stale handle cells |
| AllocatorState.SleepThenWake | vllm/csrc/cumem_allocator.cpp:566-729 | sleeping and waking restores every chunk at its address with its size and leaves other allocations' mappings alone |
| AllocatorState.AllocateThenRelease | vllm/csrc/cumem_allocator.cpp:299-538 | allocating and freeing gives back exactly the state before |
| AllocatorState.ApplyValid | vllm/csrc/cumem_allocator.cpp:299-729 | every operation, failed and rolled-back ones and the free of a sleeping allocation included, keeps the invariant of the driver state |
| AllocatorState.EveryRunSafe | vllm/csrc/cumem_allocator.cpp:299-729 | in every state of every run, with the Python dictionary alongside, mapped chunks are disjoint and handles are live exactly while mapped |
| AllocatorState.RegistryExact | vllm/vllm/device_allocator/cumem.py:130-165 | the dictionary has exactly the allocations handed out iff no entry of a rolled-back allocation is left over: never before a rollback, not right after one |
| AllocatorState.EnoughMapped | vllm/vllm/device_allocator/cumem.py:189-204 | if as many addresses are mapped as the dictionary's entries have chunks, every entry with chunks is an awake allocation |
| AllocatorState.EntriesAwake | vllm/vllm/device_allocator/cumem.py:189-204 | in a run, every entry with chunks is an awake allocation iff all allocations are awake and no entry is left over |
| AllocatorState.AllAsleep | vllm/vllm/device_allocator/cumem.py:189-204 | with every allocation asleep nothing is mapped and no handle is live |
| AllocatorState.StaleEntry | vllm/csrc/cumem_allocator.cpp:412-423 | one rolled-back allocation leaves an entry without an allocation, whose handle cell is gone |
| AllocatorState.FreedWithSize | vllm/csrc/cumem_allocator.cpp:527-538 | what a free leaves is consistent iff it was given the reserved size |
| CumemAllocator.Allocator.Check | vllm/csrc/cumem_allocator.cpp:60-74 | a failure is recorded, a success keeps an older error |
| CumemAllocator.Allocator.CreateHandles | vllm/csrc/cumem_allocator.cpp:150-159 | all handles fresh and stored, or no handle of this call left; with a pending error the first one leaks |
| CumemAllocator.Allocator.UnmapChunks | vllm/csrc/cumem_allocator.cpp:216-225 | one call per chunk, the first error of all is reported; every success takes one mapped address away; on chunks that are there it fails only on a refusal and removes exactly these, on chunks that are gone it changes nothing and fails |
| CumemAllocator.Allocator.ReleaseHandles | vllm/csrc/cumem_allocator.cpp:227-232 | one call per cell, the first error of all is reported; on live handles it fails only on a refusal and releases exactly these |
| CumemAllocator.Allocator.MapChunks | vllm/csrc/cumem_allocator.cpp:160-179 | every chunk mapped once, or nothing mapped and every handle of this call released |
| CumemAllocator.Allocator.CreateAndMap | vllm/csrc/cumem_allocator.cpp:95-193 | the outcome at every point of failure; with no pending error a failed create or map leaves nothing behind |
| CumemAllocator.Allocator.UnmapAndRelease | vllm/csrc/cumem_allocator.cpp:195-239 | on any addresses and cells, freed ones included: the first error of all unmap and then release calls is recorded; without an error exactly one mapped address per chunk is gone; on an allocation's own it removes exactly its mappings and handles; on chunks and handles that are gone it changes nothing and reports an error |
| CumemAllocator.Allocator.WakeUp | vllm/csrc/cumem_allocator.cpp:664-729 | takes the wake step or, rolled back, the failed wake step; clears the error |
| CumemAllocator.Allocator.Sleep | vllm/csrc/cumem_allocator.cpp:566-662 | on any entry of the dictionary: takes the sleep step on an awake allocation, and succeeds on no entry without unmapping one address per chunk; a sleeping allocation is left alone with an error |
| CumemAllocator.Allocator.SleepAll | vllm/vllm/device_allocator/cumem.py:189-204 | all entries in any order up to the first error: success means every entry with chunks was an awake allocation; if all are and nothing is refused it succeeds and leaves nothing mapped |
| CumemAllocator.Allocator.Prepare | vllm/csrc/cumem_allocator.cpp:299-369 | the least multiple of the granularity is reserved and tiled with chunks of the setting's size; what each early exit leaves behind |
| CumemAllocator.Allocator.MapOrGiveUp | vllm/csrc/cumem_allocator.cpp:401-427 | maps everything or undoes the reservation and the cells; at a pending error the first handle stays live, at a refused access everything stays mapped |
| CumemAllocator.Allocator.Finish | vllm/csrc/cumem_allocator.cpp:401-427 | the same from the state before the call: the allocate step, the unchanged state, or what the site leaks |
| CumemAllocator.Allocator.Malloc | vllm/csrc/cumem_allocator.cpp:299-427 | the record has the size rounded up to the granularity and, for every setting, chunks of exactly the setting's size; takes the allocate step, or the rolled-back step that leaves a dictionary entry, or leaks exactly what each exit leaks; a handle left by a pending error breaks the invariant |
| CumemAllocator.Allocator.Discard | vllm/csrc/cumem_allocator.cpp:508-538 | the driver calls of my_free on a mapped and on a sleeping allocation |
| CumemAllocator.Allocator.Free | vllm/csrc/cumem_allocator.cpp:430-538 | takes the release step when given the aligned size, mapped or sleeping, the latter with an error left; with another size the reservation stays |
| CumemAllocator.LeakedHandle | vllm/csrc/cumem_allocator.cpp:150-158 | a handle left behind by a pending error breaks the invariant |
| Tensors.PiecesOfConcat | verl/scripts/legacy_model_merger.py:546-561 | cutting a concatenation of equal parts gives the parts back |
| Tensors.ShardsAreBlocks | verl/scripts/legacy_model_merger.py:546-548 | contiguous shards of whole groups are runs of the group list |
| CheckpointLayout.CutChunks | verl/scripts/legacy_model_merger.py:548-557 | splits every chunk into query, key and value rows, or fails iff a chunk has another size |
| CheckpointLayout.MergeQkv | verl/scripts/legacy_model_merger.py:534-562 | succeeds iff its assertions and split sizes fit, with Q, K, V the rows cut from all chunks in order |
| CheckpointLayout.MergeInvertsInterleave | verl/scripts/legacy_model_merger.py:534-562 | interleave by group, shard over any size dividing the groups, merge: exactly Q, K and V |
| CheckpointLayout.ConvertAndMerge | verl/scripts/converter_hf_to_mcore.py:155-168 | the same end to end, for all head counts and head sizes |
| CheckpointLayout.InterleavePlaces | verl/scripts/converter_hf_to_mcore.py:155-168 | the place of every row: group by group, its queries, then its keys, then its values, for any number of query heads in a group |
| CheckpointLayout.InterleaveMovesRows | verl/scripts/converter_hf_to_mcore.py:163-168 | bias entries follow the same row permutation as weights |
| CheckpointLayout.VisionTranspose | verl/scripts/converter_hf_to_mcore.py:278-293 | the vision converter's view and transpose is the interleaved layout, row by row |
| CheckpointLayout.MergeGateUp | verl/scripts/legacy_model_merger.py:523-533 | halves every shard; fails iff chunking some shard in two does not give two pieces |
| CheckpointLayout.GateUpPlace | verl/scripts/converter_hf_to_mcore.py:426-429 | a rank holds its run of gate rows and then the same run of up rows |
| CheckpointLayout.GateUpRoundTrip | verl/scripts/legacy_model_merger.py:523-533 | gate and up split over ranks come back whole |
| LayerMerge.NoCollision | verl/scripts/legacy_model_merger.py:634-640 | two layer parameters never get the same global name |
| LayerMerge.MergeStage | verl/scripts/legacy_model_merger.py:622-661 | every name of a kept entry gets the value of the last entry of that name, all other names keep theirs; reports the largest layer |
| LayerMerge.MergeStateDicts | verl/scripts/legacy_model_merger.py:613-663 | in (virtual stage, stage) order, place by place, the result has exactly the global names of the entries that are not skipped, each with the value of its last writer; the names outside the layers are those of plain entries, and of output heads unless tied |
| LayerMerge.PlainNames | verl/scripts/legacy_model_merger.py:625-648 | a name outside the layers is there iff a plain entry, or an output head when not tied, has it, with the value of the last such entry; extra state gives none |
| LayerMerge.LayerNames | verl/scripts/legacy_model_merger.py:634-640 | a layer name in the result is that of a layer entry, its number the local one plus the count of the stages before |
| LayerMerge.InOrderAt | verl/scripts/legacy_model_merger.py:620-621 | stage p of virtual stage v comes at place v * stages + p |
| LayerMerge.StoredEntry | verl/scripts/legacy_model_merger.py:634-648 | a layer entry is the only one of its name, so its own value is there |
| LayerMerge.NumberedOnce | verl/scripts/legacy_model_merger.py:634-661 | global numbers are unique |
| LayerMerge.RenumberingIsBijective | verl/scripts/legacy_model_merger.py:616-661 | a bijection onto 0..L-1 iff no stage without layers precedes one with layers |
| LayerMerge.EmptyStageFirst | verl/scripts/legacy_model_merger.py:661-661 | stages of 0 and 1 layers leave number 0 unused |
| LayerMerge.StartIsCumsum | verl/scripts/converter_hf_to_mcore.py:575-578 | before any empty stage the merger's count is the converter's cumulative sum |
| LayerMerge.LayerRange | verl/scripts/converter_hf_to_mcore.py:575-578 | the layers of a rank are its share of the cumulative sum |
| LayerMerge.MergeInvertsConvert | verl/scripts/converter_hf_to_mcore.py:148-151 | converting over non-empty stages and merging puts every parameter of every layer back under its number, whatever parameters each layer and other entries the stages have |
| LayerMerge.OnlyConverted | verl/scripts/legacy_model_merger.py:613-663 | and a layer name in the result is that of a parameter of that very layer |
| LayerMerge.ConvertAndMergeLayers | verl/scripts/converter_hf_to_mcore.py:575-578 | the same end to end through the merger with one virtual stage |
| PipelineShards.StrategySplits | verl/verl/model_merger/megatron_model_merger.py:84-92 | a candidate uses all layers and leaves no stage empty |
| PipelineShards.SomeCandidate | verl/verl/model_merger/megatron_model_merger.py:83-88 | a candidate exists iff the smallest possible middle size is one |
| PipelineShards.DynamicShards | verl/verl/model_merger/megatron_model_merger.py:57-98 | error cases exactly; two stages differ by at most one layer, the first not larger; from three on the split is even, with no even split less uneven and none as uneven with a smaller middle |
| PipelineShards.EvenIsStrategy | verl/verl/model_merger/megatron_model_merger.py:83-92 | every even split is the strategy of its middle size |
| PipelineShards.StrategyIsEven | verl/verl/model_merger/megatron_model_merger.py:83-92 | and every candidate gives an even split |
| PipelineShards.FiveLayersFourStages | verl/verl/model_merger/megatron_model_merger.py:96-96 | five layers on four stages have none |
| ExpertPartition.RankUnique | verl/scripts/converter_hf_to_mcore.py:183-193 | no expert is on two ranks |
| ExpertPartition.EveryExpertPlaced | verl/scripts/converter_hf_to_mcore.py:183-193 | every expert is on some rank iff the ranks divide the experts |
| ExpertPartition.LostExpert | verl/scripts/converter_hf_to_mcore.py:183-193 | the last of five experts is on neither of two ranks |
| ExpertPartition.CopyExperts | verl/scripts/converter_hf_to_mcore.py:419-434 | every local slot holds the fused gate and up and the down weights of the rank's own expert, the count is their number of elements, and the size kept is that of the last one, if there is one |
| ExpertPartition.UniformElements | verl/scripts/converter_hf_to_mcore.py:419-434 | experts of one size have three times that many elements each |
| ExpertPartition.CheckDetectsLostExperts | verl/scripts/converter_hf_to_mcore.py:448-451 | the per-layer element check on experts of one size passes iff the ranks divide the experts |
| ExpertPartition.ConvertExperts | verl/scripts/converter_hf_to_mcore.py:418-451 | the loop and its check together: the size is unset iff no layer had an expert for the rank; otherwise it passes iff the elements copied are those of the layer less the source's expression, for experts of one size iff the ranks divide them |
| Columns.TorchChunkAt | verl/verl/protocol.py:880-883 | where torch cuts a column and into how many pieces |
| Columns.ChunkDelivers | verl/verl/protocol.py:880-893 | torch delivers the number of pieces asked for iff the last one is not empty |
| Columns.EqualCuts | verl/verl/protocol.py:873-893 | for equal pieces torch and numpy cut at the same rows |
| Columns.NumpyPieces | verl/verl/protocol.py:887-896 | numpy gives every piece n / k rows, and the rows left over one by one to the first pieces |
| Columns.ConstantCounts | verl/verl/protocol.py:1078-1093 | per-row counts that are all t are the interleaved repeat, on one column |
| Columns.EachCopies | verl/verl/protocol.py:1078-1093 | the repeat by counts is every row as many times in a row as its count |
| Columns.TileCopies | verl/verl/protocol.py:990-1003 | the repeat that is not interleaved is the column one time after the other |
| Columns.RepeatPlaces | verl/verl/protocol.py:984-1003 | the place of every copy in both repeats |
| Columns.UnfoldFold | verl/verl/protocol.py:202-238 | unfolding a folded column gives it back |
| Columns.FoldUnfold | verl/verl/protocol.py:202-238 | folding an unfolded column of equal parts gives it back |
| DataProto.RowsDetermine | verl/verl/protocol.py:318-341 | rows, column names and meta information determine a batch |
| DataProto.CheckMeansAligned | verl/verl/protocol.py:454-477 | the check means alignment iff there is a tensor batch |
| DataProto.RaggedAccepted | verl/verl/protocol.py:454-477 | two object columns of different length pass without a tensor batch |
| DataProto.SliceRows | verl/verl/protocol.py:675-719 | a slice of all columns is the slice of the rows |
| DataProto.SliceRowAt | verl/verl/protocol.py:675-719 | row i of a slice is row a + i as long as that is before its end and that of the batch, with the meta information kept |
| DataProto.ChunkIndices | verl/verl/protocol.py:880-883 | the cumulative piece sizes are the cuts of the tensors |
| DataProto.ChunkObjects | verl/verl/protocol.py:887-896 | the object columns of every piece fall on the tensors' cuts |
| DataProto.Chunk | verl/verl/protocol.py:864-903 | succeeds iff the pieces are equal or padding is on, globally or in the meta information, and tensors leave no empty last piece; the pieces are the slices between the cuts |
| DataProto.FiveRowsInFour | verl/verl/protocol.py:873-893 | five rows with tensors cannot be chunked in four |
| DataProto.PieceRows | verl/verl/protocol.py:864-903 | every piece holds a run of whole rows, as torch (or numpy without tensors) cuts the row sequence |
| DataProto.PiecesMakeWhole | verl/verl/protocol.py:864-903 | the pieces together are the batch |
| DataProto.SplitRows | verl/verl/protocol.py:905-914 | split pieces are consecutive runs of rows |
| DataProto.SplitsMakeWhole | verl/verl/protocol.py:905-914 | the splits together are the batch; only an empty one has none |
| BatchConcat.ConcatObjects | verl/verl/utils/py_functional.py:359-368 | each column of the first part joined over all parts that have it; fails iff a later part has an unknown one |
| BatchConcat.MergeMetas | verl/verl/protocol.py:937-954 | fails iff two parts disagree on a non-metric key; otherwise the union |
| BatchConcat.AgreeNext | verl/verl/protocol.py:949-954 | comparing with the merged dictionary is comparing with every earlier part |
| BatchConcat.ConcatData | verl/verl/protocol.py:916-961 | the joined batch, or failure exactly when the parts cannot be joined |
| BatchConcat.MergedRows | verl/verl/protocol.py:927-934 | the rows of a join are the rows of the parts one after the other |
| BatchConcat.JoinableTensors | verl/verl/protocol.py:916-961 | with tensors a join succeeds iff all parts fit the first and agree on meta information |
| BatchConcat.ObjectJoinKeepsRows | verl/verl/protocol.py:927-934 | a join without a tensor batch in the first part keeps every row, whole and in place, iff each part with rows has no tensor column and exactly the object columns of the first |
| BatchConcat.DroppedTensors | verl/verl/protocol.py:927-930 | a tensor row of a later part that such a join drops |
| Dispatch.Pad | verl/verl/protocol.py:74-99 | a multiple of the divisor, row i is row i mod n of the original, non-metric meta kept |
| Dispatch.Unpad | verl/verl/protocol.py:102-106 | cuts off the last rows |
| Dispatch.RunWorkers | verl/verl/protocol.py:74-106 | pad, chunk, work, join, unpad is the worker's row function on every original row, for any number of rows and workers |
| Dispatch.Get | verl/verl/protocol.py:1212-1228 | joins the parts and picks the piece, or fails where either does |
| Dispatch.LazyAndEager | verl/verl/protocol.py:1197-1228 | getting every piece of a chunked future gives the pieces of the chunked join, and a failure of either is a failure of all |
| Dispatch.NestedChunk | verl/verl/protocol.py:1197-1210 | chunking a piece again gives the chunks of that piece iff the piece was everything, for equal and unequal pieces |
| Dispatch.NestedChunkLoses | verl/verl/protocol.py:1197-1210 | half of four rows chunked in two gives the halves of all four |
| Expand.RepeatRows | verl/verl/protocol.py:971-1013 | repeat, interleaved or stacked, repeats whole rows |
| Expand.RepeatedRowAt | verl/verl/protocol.py:971-1013 | copy j of row i: at i * t + j when interleaved, at j * n + i otherwise |
| Expand.RepeatCommutesWithChunk | verl/verl/protocol.py:971-1013 | interleaved repeat commutes with equal chunking |
| Expand.SampleLevelRows | verl/verl/protocol.py:1054-1100 | each row is copied its own number of times, whole |
| Expand.CountsMustMatch | verl/verl/protocol.py:1078-1100 | another number of counts than one or the rows fails as soon as there is a column |
| Expand.BroadcastCount | verl/verl/protocol.py:1078-1100 | a single count repeats an object-only batch, and a tensor batch exactly when one row's copies are all rows or there is no column |
| Expand.BroadcastFails | verl/verl/protocol.py:1078-1100 | two rows of one tensor column and the counts [2] fail |
| Expand.ConstantTimes | verl/verl/protocol.py:1054-1100 | a constant vector of counts is the interleaved repeat |
| Expand.FoldBatchDim | verl/verl/protocol.py:202-219 | folds tensors and, in place, the object columns; fails iff the new size does not divide |
| Expand.UnfoldBatchDim | verl/verl/protocol.py:222-238 | flattens the two batch dimensions; the row count comes from the tensors, and an object column with another number of items fails |
| Expand.OneDimension | verl/verl/protocol.py:233-236 | an object column of one dimension flattens to itself |
| Expand.FoldedCell | verl/verl/protocol.py:202-219 | folded row i of every column holds the same run of original rows |
| Expand.UnfoldUndoesFold | verl/verl/protocol.py:202-238 | unfolding a folded batch gives the batch back |
| Expand.FoldUndoesUnfold | verl/verl/protocol.py:202-238 | folding an unfolded batch gives the batch back, when the object columns have the tensors' two dimensions |
| Expand.FoldedInput | verl/verl/protocol.py:213-219 | the folded argument stays consistent iff it has no object column or nothing was folded |
| Expand.FoldedInputBreaks | verl/verl/protocol.py:213-219 | four rows with an object column, folded to two, are inconsistent afterwards |
| Expand.ColumnBlock | verl/verl/protocol.py:1024-1029 | the row-major reshape puts column block j of row i at row i * n + j |
| Expand.UnfoldedRows | verl/verl/protocol.py:1015-1052 | row i * n + j is block j of the split keys beside row i of the others, tensors and objects alike |
| Expand.SplitKeysFit | verl/verl/protocol.py:1015-1052 | with split keys it works iff every column of such a key is of stacks of one width that the parts divide |
| Expand.NoSplitKeys | verl/verl/protocol.py:1024-1045 | without split keys it works exactly on batches without object columns |
| Expand.NoSplitKeysFails | verl/verl/protocol.py:1024-1045 | one object column and no split keys fail |
| DeepEqual.Compare | verl/verl/protocol.py:152-185 | terminates on every graph, hands the visited set back as it was, and answers as specified; on leaves: floats by value, NaN with NaN only, plain arrays by dtype, shape and every item with NaN equal to NaN, other values by kind and content |
| DeepEqual.LeafAnswers | verl/verl/protocol.py:173-181 | the specification on leaves, the same conditions written out |
| DeepEqual.ArrayAnswers | verl/verl/protocol.py:138-149 | and on object arrays: the same shape, and every pair of items compared with the array on the path |
| DeepEqual.SameLeaves | verl/verl/protocol.py:173-181 | structural equality of leaves, the same conditions |
| DeepEqual.SameArrays | verl/verl/protocol.py:138-149 | structural equality of object arrays: the same shape and items structurally equal one by one |
| DeepEqual.CompareArrays | verl/verl/protocol.py:125-149 | dtype, shape and all items, stopping at the first difference |
| DeepEqual.SameAnswersTrue | verl/verl/protocol.py:152-185 | structurally equal objects compare equal on every graph, so a reported difference is real |
| DeepEqual.AcyclicDecides | verl/verl/protocol.py:152-185 | an acyclic left operand decides structural equality with NaN equal to NaN |
| DeepEqual.DecidesIffAcyclic | verl/verl/protocol.py:163-170 | right for every right operand iff no cycle is reachable from the left one |
| DeepEqual.SelfReference | verl/verl/protocol.py:165-170 | an array that holds itself passes for a different one |

## Left out

- Floating-point rounding, dtype casts of outputs and states, and the cast of the quantizer scale to the input dtype.
- Strides other than one along the token axis, and the non-packed batch layout of the scan, which only change addresses.
- The numeric range of block and slot indices in the kernel: they are unbounded integers here.
- The decode kernels and the state selection of speculative decoding in the scan backend.
- `ReadTargets` and the printed part of the build-time report.
- The CUDA branch of the allocator, the Python C API, reference counts and the interpreter lock.
- The allocator's Python callback order: the registry is updated by the callback as one step.
- Parameter renaming by string tables, loading and saving of checkpoints, and value-model heads.
- Converter loops other than the query, key, value, expert and layer layout (layer norms, embeddings, shared experts).
- Metrics merging in `DataProto.concat`: the merged meta information here leaves the metrics key out.
- `union`, `select`, `pop`, `rename`, `reorder`, `padding`, iterators, serialization and distributed calls of DataProto.
- Object types whose own equality may raise or return arrays in `_deep_equal`.
- BuildTimeSweep.SummarizeEntries: requires distinct entries and non-negative start times, because the loop uses -1 as its sentinel.
- ScanGrid.GridComputesScan: threads are the model's own instruction lists; that they are the kernel's is SoloComputesKernel.
- CumemAllocator.Allocator.Malloc: says nothing of the mapping when the chunk count wrapped to zero beyond the registry entry, because the driver's answer to an empty mapping is not specified.
- CumemAllocator.Allocator.Free: says nothing of the driver state when a sleeping allocation's stale handles were handed out again, because the release then hits another allocation's handle.
- DataProto.Chunk: requires aligned columns; an object-only batch with ragged columns, which passes the source's check, is cut column by column there.
- Dispatch.Get: requires aligned parts, and an aligned join when the first part has no tensor batch, because it chunks the join.
- Expand.UnfoldBatchDim: requires tensors with a common second dimension; how TensorDict picks batch dimensions otherwise is not modelled.
- MambaBlocks.FindLongestHit: takes the cached block of every prefix hash as given; `BlockPool` has the eviction, and hashing and the other cache modes are not modelled.
- Rejected draft tokens and blocks computed by another process in `BlockPool`: computed tokens only grow.
- The data copies of the Python side's sleep and wake loops, and the wake loop itself.
- CumemAllocator.Allocator.SleepAll: says nothing of entries without chunks, which only a chunk count that wrapped to zero makes.
- BlockPool.DropKeeps: one way only, because a dropped block may hold the right state by chance.
- LayerMerge.ConvertAndMergeLayers: requires every layer to have a parameter; the merger cannot number a last layer that has none.
