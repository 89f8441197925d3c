# A verified model of the MLX aggregation core

The `mlx` extension of DuckDB answers aggregate queries on Apple GPUs. Its results have to agree with
what a plain SQL engine computes by folding over the rows. This project models the part that decides
whether they do, and proves that they do, over exact numbers, for all inputs, all runs of the
concurrent kernels and all interleavings; where they do not, it states exactly when.

`dafny verify dfyconfig.toml` checks all of it. Every `lemma` carries `{:induction false}`:
inductions are written out in its body.

## The four pieces

**Concurrent hash aggregation.** `HashBuild` and `SlotLock` are state machines over shared arrays and
per-thread program counters; a schedule says which thread moves next and whether its weak
compare-and-swap fails spuriously. Invariants hold after every schedule: one owner per lock, no key in
two slots, exact sums, and a pigeonhole argument that probing never runs out. `HashGroupBy`,
`SlotLockGroupBy` and `SlotLockKernels` put the kernels, with their host code, on real arrays; every
method that moves a buffer is proved to make exactly one step of the state machine. `AtomicScatter` is
the counting, scanning and scattering that slot-lock and radix share, `ScatterKernel` the same on its
buffers, `ScatterSchedules` what its schedules can do. `SlotLockKept`, `SlotLockRealised` and
`SlotLockSound` say which rows a slot-lock run can drop, and with it what its checksum is worth.
`NextPow2` proves the bit trick on 32-bit words that sizes the hash table.

**The expression compiler.** `Translator` says what a tree of typed expressions means, in exact
decimals, and what code the planner emits for it; `Postfix` is the stack machine the bridge runs the
code on; `TranslatorCorrectness` proves that the two agree; `Acceptance` says which trees are compiled,
and which columns they mention; `TranslatorMachine` is the planner's object that appends to its member
lists. `AbsBound` is the magnitude analysis over the same code,
with its consequences for int64 sums and int32 evaluation, and `ChunkedScatter` the chunk-and-flush
accumulation that relies on it. `NullLogic` and `FilterAssembly` compare filters and validity masks
with SQL's three-valued logic. `ColumnRemap` rewrites programs from storage columns to chunk columns.
`RowMeaning` puts these together: what a row contributes to an aggregate is what SQL says it does.

**Data-parallel aggregation.** `Strides`, `TreeReduce`, `TileKernel`, `Q1Kernels` and `Q1Dedicated` are
the tile and grid-stride kernels with their two-level merges; `RadixScan`, `RadixPass`, `RadixOrder`,
`RadixBytes`, `SegmentReduce` and `RadixGroupBy` the radix path, from the scan of the histograms to the
passes run one after another and reduced; `DensePaths` and `DenseAccumulator` the dense
window, sort-and-scatter and incremental tables; `HostAccumulator` the threaded host path;
`SegmentBatches` and `DenseReduce` the batched dense driver; `GroupKeys` the coding of several group
keys into one number and back. All refine one-line folds (`GroupBy`, `Folds`), and `Folds` says what
its folds are: sums, least and greatest values, numbers of rows.

**The segmented column cache.** `ColumnCache` is the cache as a mutable object (begin, store, fuse,
drop); `CacheRuns` runs whole populations and sequences of queries on it; `CacheLookup` says what a
cache hit promises; `ZoneMaps` builds zone maps and prunes; `EvalSegments` evaluates what is left;
`CacheSums` puts them together: a query served from the cache returns the aggregates of the table's
rows; `SqlSums` starts from the query itself and ends with SQL's answer.

`Sums`, `Arith` and `Sequences` hold what is used throughout.

## How the code is read

- Atomics and the plain accesses they guard are sequentially consistent; atomic float adds and the
  values added are exact integers (doubles are exact up to 2^53).
- Some slot-lock and radix launches discard the kernel's returned arrays
  (src/bridge/mlx_groupby_slotlock.cpp:214, src/bridge/mlx_groupby_radix.cpp:386), and radix launches
  pass block counts where thread counts are meant. The kernels are modelled as their indexing intends,
  each named output being the buffer that is read next.
- The radix extremes are the smallest and the largest flipped key in the signed order of int64, as
  src/bridge/mlx_groupby_radix.cpp computes them; the results about them hold for the unsigned order too
  (`signed` in `RadixBytes`).
- The slot-lock hash is an arbitrary function: nothing proved depends on its constants.
- A column reference is looked up in the projections below the level at hand, where
  src/planner/mlx_transparent.cpp:115-119 searches all of them at every level. A projection refers only to
  what lies below it, so in a plan DuckDB builds both find the same one.
- Expression trees are typed as DuckDB's binder leaves them. sin, cos, sqrt and division are
  uninterpreted functions on exact reals.

## What turned out not to hold

Each of these has a concrete counterexample or an exact condition among the members below.

- Zone maps: src/include/mlx_bridge.hpp:222-224 promises pruning for conjunctions of comparisons. The
  parser expects AND between its operands, the translators emit it after them, so among programs that
  run only a single comparison ever prunes (`ZoneMaps.OnlySingleComparisonsPrune`). Nothing is answered
  wrong because of it.
- NULLs: a filter `a = 1 OR b = 1` loses rows that are SQL TRUE when b is NULL
  (`NullLogic.DisjunctionLosesRow`); the mask is SQL TRUE together with presence of every referenced
  column (`NullLogic.FilterMaskExact`). A pushed-down filter with IS NOT NULL in it does its work exactly
  when it emits no code at all; among other conditions it leaves an operation without an operand
  (`FilterAssembly.PartYieldsIff`).
- Fused validity: validity arrays appear with the first NULL of a batch
  (src/planner/mlx_transparent.cpp:456), and fusing concatenates those there are. A fused column shows the
  rows its segments show exactly when all segments have one or none has
  (`ColumnCache.FusedShowsSameIff`). Reading the segments themselves is right in any case
  (`CacheSums.SumExprsCached`).
- Slot-lock: rows can be dropped in any partition, and the checksum sees only totals. It accepts exactly
  zero dropped totals (`SlotLockGroupBy.ChecksumAcceptsExactlyZeroDrops`): exactly the GROUP BY where all
  values are positive (`SlotLockSound.PositiveChecksumIff`). In general it is enough exactly if no rows of
  total zero can be lost with a trace in the groups (`SlotLockSound.ChecksumEnoughIff`), and any rows can
  be lost whose loss leaves no partition with more than 1024 keys (`SlotLockSound.EveryChoiceRuns`).
- Grouped MIN and MAX: the dense driver's merge never adds their counts, and a slot with count 0 is
  emitted as NULL (src/planner/mlx_transparent.cpp:1078-1082), so they come out NULL for every group
  that has a contributing row (`DenseReduce.EmittedRightIff`).
- Grouped COUNT(col): the tile path leaves its slot as it was, so from a fresh state it is right exactly
  for groups in which no passing row has the column (`TileKernel.CountRightIff`).
- The dedicated Q1 kernel reads the first 256 * 131072 rows; its state is the fold of all rows exactly
  when no later row passes the filter (`Q1Dedicated.DedicatedExactIff`).
- Radix, order: a thread takes every 256th row of its block, in order. Under all interleavings of the
  threads a pass keeps equal bytes in order exactly when in no block a byte occurs on two threads
  (`RadixOrder.StableIff`), which a byte that occurs more than four times in a block always does
  (`RadixOrder.BusyByteUnstable`).
- Radix, bytes: even if every pass keeps order, the bytes chosen from the extremes sort all keys between
  them exactly when the extremes differ in every byte below the topmost in which they differ
  (`RadixGroupBy.ActiveBytesSortIff`). Across every gap there are rows whose result lists a key twice and
  which the checksum accepts (`RadixGroupBy.GapSplitsAKey`). The path returns the GROUP BY exactly when
  the passes leave the rows sorted, or, from 16384 rows on, equal keys together; without a gap, and with
  passes that keep order, they do (`RadixGroupBy.GroupbySumRadix`).
- The parallel segment reduce reports 0 for every count (`SegmentReduce.ZeroCountsAreWrong`).
- Group keys: only the combined code is range-checked, so a key outside its statistics can be counted in
  another tuple's group (`GroupKeys.OutOfRangeAliases`, exact condition in `GroupKeys.OwnGroupIff`).
- Dense paths: the host window ignores the validity mask (`DensePaths.MaskIgnored`). A batch with one
  NULL key is left out whole (`DenseAccumulator.OneNullDropsBatch`), and two batches that each fit can
  together need 2^31 slots or more, which are truncated (`DenseAccumulator.TwoRowsTruncate`); the exact
  condition over any run is in `DenseAccumulator.AccumulateAll`.
- The 2^61 gate holds for up to four times the estimated rows (`AbsBound.GateIsSafe`); how far it holds
  beyond that is `AbsBound.GateSafeIff`.
- src/include/mlx_bridge.hpp:186-188 says that cache hits come from one population; the code compares
  row counts and numbers of segments. Beside a resident column, every load of another column makes the
  answer right exactly when, behind the resident's first segment, a segment shorter than a million rows
  stands only among segments of one row (`CacheLookup.HasIsRightIff`). A query that loads is right on any
  cache, and one that hits is where the columns are aligned (`CacheSums.SumQuery`); queries whose scans
  deliver the same batches leave them so (`CacheRuns.ServeQueries`).
- Column remapping: of a column listed twice only the first listing is looked at, so a column is found
  exactly when that listing is projected (`ColumnRemap.FoundIff`).

## Model

| member | source | states |
|---|---|---|
| `GroupBy.GroupByUnique` | src/bridge/mlx_groupby.cpp:176-214 | The specification pins one answer: two ascending lists with a key's exact sum and count for every key that occurs are the same list. |
| `GroupBy.KeySumsUnique` | src/bridge/mlx_groupby_radix.cpp:258-325 | The same for results that promise keys and sums only: length, keys and sums agree entry by entry. |
| `GroupBy.PermutationInvariant` | src/bridge/mlx_groupby.cpp:112-132 | Per-key sums and counts and the grand total do not depend on the order of the rows, so any order of atomic adds gives the same tables. |
| `GroupBy.SortByKeyAscending` | src/bridge/mlx_groupby.cpp:212-213 | Sorting collected groups with distinct keys gives a strictly ascending list of the same groups. |
| `GroupBy.SortedGroupsMeetSpec` | src/bridge/mlx_groupby.cpp:206-213 | Groups collected in any order with distinct keys, right totals and no key missing sort into exactly the specified GROUP BY. |
| `NextPow2.NextPow2Refines` | src/bridge/mlx_groupby.cpp:65-76 | On every 32-bit argument up to 2^31 the shift-and-or computation yields the number-theoretic least power of two at or above it. |
| `NextPow2.NextPow2Wraps` | src/bridge/mlx_groupby.cpp:65-76 | The result is 0 exactly for arguments above 2^31. |
| `NextPow2.LeastPow2IsLeast` | src/bridge/mlx_groupby.cpp:65-76 | No power of two lies between the argument and the result. |
| `HashGroupBy.Capacity` | src/bridge/mlx_groupby.cpp:191 | The table has at least twice as many slots as rows and at least 1024. |
| `HashGroupBy.CapacityAtMost` | src/bridge/mlx_groupby.cpp:191 | It is the smallest such power of two: no larger than any power of two that has the room. |
| `HashGroupBy.CapacityIsWord` | src/bridge/mlx_groupby.cpp:191 | It is the number the bit trick computes on the 32-bit word, for up to 2^30 rows. |
| `HashBuild.NeverExhausted` | src/bridge/mlx_groupby.cpp:42-57 | Pigeonhole: while there are at least as many slots as rows, no probing thread has used up its probe sequence, in any reachable state. |
| `HashBuild.RunInvariant` | src/bridge/mlx_groupby.cpp:31-63 | Every interleaving, with spurious weak-CAS failures anywhere, keeps the probing invariant and the per-slot totals invariant. |
| `HashBuild.ReachableStatesAreExact` | src/bridge/mlx_groupby.cpp:31-63 | In every reachable state no thread has given up, no key is in two slots, and each slot's sum and count are exactly what the threads of its key have added so far. |
| `HashBuild.KeysNeverChange` | src/bridge/mlx_groupby.cpp:42-51 | A key once in a slot is still there after any continuation of the run. |
| `HashBuild.EveryThreadFinishes` | src/bridge/mlx_groupby.cpp:42-57 | capacity + 3 picks without a spurious failure finish a thread, whatever the others do in between. |
| `HashBuild.FinishedTableIsGroupBy` | src/bridge/mlx_groupby.cpp:31-63 | When all threads are done, every occurring key is in exactly one slot with the exact sum and count of its rows, and no slot holds anything else. |
| `HashGroupBy.HashTable.StepThread` | src/bridge/mlx_groupby.cpp:34-57 | One atomic action on the shared arrays moves their contents by exactly one step of the state machine. |
| `HashGroupBy.HashTable.Launch` | src/bridge/mlx_groupby.cpp:195-201 | Running the kernel under a schedule leaves the arrays in the state that schedule leads to. |
| `HashGroupBy.HashTable.Collect` | src/bridge/mlx_groupby.cpp:206-211 | The host's walk returns the occupied slots in slot order with the key bias undone. |
| `HashGroupBy.CollectedMeetsSpec` | src/bridge/mlx_groupby.cpp:206-213 | Collecting and sorting an exact biased table is the GROUP BY of the unbiased rows. |
| `HashGroupBy.GroupbySumHash` | src/bridge/mlx_groupby.cpp:176-214 | For every finished interleaving the whole path returns the specified GROUP BY, sums and counts, keys ascending. |
| `AtomicScatter.CountClasses` | src/bridge/mlx_groupby_slotlock.cpp:47-63 | Whatever order the atomic increments take, each counter ends with the number of rows of its partition. |
| `AtomicScatter.ExclusiveScan` | src/bridge/mlx_groupby_slotlock.cpp:164-171 | Entry p is the total of all counts before p; the last entry is the grand total. |
| `AtomicScatter.CountsTotal` | src/bridge/mlx_groupby_slotlock.cpp:218-223 | Partition counts add up to the row count, so the host's offset check never rejects correct counts. |
| `AtomicScatter.RunInvariant` | src/bridge/mlx_groupby_slotlock.cpp:65-87 | Under every order of fetch-and-adds and stores, drawn destinations are distinct, in their class's range, and hold their row's key and value once stored. |
| `AtomicScatter.EveryDestinationOnce` | src/bridge/mlx_groupby_slotlock.cpp:71-80 | After a finished scatter each place of a class's range was written by exactly one row, of that class, and holds that row's key together with its value. |
| `AtomicScatter.RangeHoldsItsClass` | src/bridge/mlx_groupby_slotlock.cpp:65-87 | A partition's slice is a permutation of exactly that partition's rows. |
| `AtomicScatter.OutputIsPermutation` | src/bridge/mlx_groupby_slotlock.cpp:65-87 | The whole output is a permutation of the input rows. |
| `SlotLock.LockedSlotsHaveOneOwner` | src/bridge/mlx_groupby_slotlock.cpp:117-143 | In every reachable state a LOCKED slot is held by some thread, a holding thread's slot is LOCKED, and no two threads hold one slot. |
| `SlotLock.CommittedKeysDistinct` | src/bridge/mlx_groupby_slotlock.cpp:114-143 | In every reachable state no key is committed in two slots. |
| `SlotLock.CommittedSumsExact` | src/bridge/mlx_groupby_slotlock.cpp:118-138 | In every reachable state a committed sum is the sum of exactly the rows folded into that slot, and those rows carry the slot's key. |
| `SlotLock.CommittedKeysNeverChange` | src/bridge/mlx_groupby_slotlock.cpp:118-138 | After a slot has been committed its key is the same in every continuation of the run, and the slot is never EMPTY again. |
| `SlotLock.RunInvariant` | src/bridge/mlx_groupby_slotlock.cpp:89-162 | Ownership, key placement and sum invariants hold after every schedule of any number of threads, with spurious CAS failures anywhere. |
| `SlotLock.EveryThreadFinishes` | src/bridge/mlx_groupby_slotlock.cpp:111-145 | Wait-freedom: 4 * 4096 + 8 of its own steps for every row of the partition finish any thread, whatever the others do. |
| `SlotLock.DropTakesAttempts` | src/bridge/mlx_groupby_slotlock.cpp:111-145 | A row is dropped only after its thread has taken 4096 steps, one for each attempt. |
| `SlotLock.FinishedIsQuiet` | src/bridge/mlx_groupby_slotlock.cpp:111-147 | At the barrier no slot is LOCKED and every row has been folded or has used up its attempts. |
| `SlotLock.NothingLostButDrops` | src/bridge/mlx_groupby_slotlock.cpp:89-162 | Conservation: the partition's total is the emitted total plus the values of the rows that used up their attempts. |
| `SlotLock.FinishedPartition` | src/bridge/mlx_groupby_slotlock.cpp:89-162 | If no row was dropped, the emitted groups are distinct, exact, and cover every key of the partition. |
| `SlotLock.EmittedKeysAreRowKeys` | src/bridge/mlx_groupby_slotlock.cpp:149-156 | Dropped rows or not, emitted keys are keys of the partition's rows and none is emitted twice. |
| `SlotLockGroupBy.ScatterConfigValid` | src/bridge/mlx_groupby_slotlock.cpp:213-225 | Counting and scanning set the scatter up: every partition's write positions start where its range starts. |
| `SlotLockGroupBy.SliceOfKey` | src/bridge/mlx_groupby_slotlock.cpp:71-109 | A key's rows all reach the slice of its own partition and no other, so its totals there are its totals overall. |
| `SlotLockGroupBy.InputMinusOutputIsDropped` | src/bridge/mlx_groupby_slotlock.cpp:177-248 | Over all four kernels, input total minus output total is the total of the dropped rows. |
| `SlotLockGroupBy.SlotLockIsGroupBy` | src/bridge/mlx_groupby_slotlock.cpp:192-248 | If no row is dropped, the sorted output, emitted in any order, is the specified list of keys and sums. |
| `SlotLockGroupBy.ChecksumAcceptsExactlyZeroDrops` | src/bridge/mlx_groupby_slotlock.cpp:177-190 | The checksum accepts a result exactly when it is nonempty and the dropped values sum to zero. |
| `SlotLockKept.PartitionIsKept` | src/bridge/mlx_groupby_slotlock.cpp:105-157 | Whatever a threadgroup drops, it emits exactly one group for every key of the rows it kept, with the sum of those rows, and at most 1024 groups. |
| `SlotLockRealised.AnyRowsKept` | src/bridge/mlx_groupby_slotlock.cpp:105-148 | Any rows of a partition can be the ones kept, as long as their keys fit the slots: some schedule keeps them and drops the rest. |
| `SlotLockSound.EveryRunKeeps` | src/bridge/mlx_groupby_slotlock.cpp:192-256 | Every finished run divides the rows into kept and lost ones, the kept ones have at most 1024 keys in each of the 32768 partitions, and what is emitted are their groups. |
| `SlotLockSound.EveryChoiceRuns` | src/bridge/mlx_groupby_slotlock.cpp:192-256 | For every division of the rows whose kept part has at most 1024 keys in each of the 32768 partitions there is a finished run that keeps exactly that part. |
| `SlotLockSound.ChecksumEnoughIff` | src/bridge/mlx_groupby_slotlock.cpp:177-190 | Every result the checksum accepts, on whatever schedules, is the GROUP BY if and only if no rows of total zero can be lost such that what is left fits, is not nothing and has other groups. |
| `SlotLockSound.PositiveChecksumIff` | src/bridge/mlx_groupby_slotlock.cpp:177-190 | If all values are positive, the checksum accepts exactly the GROUP BY of a nonempty input. |
| `SlotLockSound.ZeroSumPartitionLost` | src/bridge/mlx_groupby_slotlock.cpp:177-190 | Where the keys fit, a partition of total zero beside another one with rows is such a loss. |
| `ScatterKernel.ScatterBuffers.StepRow` | src/bridge/mlx_groupby_slotlock.cpp:71-80 | One action on the scatter buffers is one step of the scatter state machine. |
| `ScatterKernel.ScatterBuffers.Launch` | src/bridge/mlx_groupby_slotlock.cpp:227-229 | The scatter kernel under a schedule leaves the buffers where the schedule leads. |
| `SlotLockKernels.SlotTable.StepThread` | src/bridge/mlx_groupby_slotlock.cpp:111-145 | One instruction on the threadgroup arrays is one step of the slot-lock state machine. |
| `SlotLockKernels.SlotTable.Run` | src/bridge/mlx_groupby_slotlock.cpp:96-147 | A threadgroup under a schedule leaves its arrays where the schedule leads. |
| `SlotLockKernels.SlotTable.Emit` | src/bridge/mlx_groupby_slotlock.cpp:149-156 | The last loop emits the committed slots. |
| `SlotLockKernels.PartitionOffsets` | src/bridge/mlx_groupby_slotlock.cpp:213-225 | Count kernel and host scan together produce the configuration the scatter needs. |
| `SlotLockKernels.AggregatePartition` | src/bridge/mlx_groupby_slotlock.cpp:89-162 | One threadgroup emits what its schedule's final state says for its slice. |
| `SlotLockKernels.GroupbySumSlotlock` | src/bridge/mlx_groupby_slotlock.cpp:192-248 | The whole path: without drops the result is the specified GROUP BY of keys and sums, and the checksum accepts exactly when it is nonempty and drops sum to zero. |
| `Strides.LanesCoverRange` | src/bridge/mlx_grouped_kernel.cpp:66-107 | A strided deal of a range to any number of threads visits every element exactly once. |
| `RadixScan.TotalsLane` | src/bridge/mlx_groupby_radix.cpp:118-147 | One thread of the totals kernel sums exactly the histogram entries dealt to its lane. |
| `TreeReduce.HalvesFold` | src/bridge/mlx_grouped_kernel.cpp:31-43 | Folding the upper half of a range onto the lower keeps its sum. |
| `TreeReduce.TreeAdd` | src/bridge/mlx_grouped_kernel.cpp:31-43 | The halving reduction of a power-of-two range leaves the sum of the range in its first cell and touches nothing outside. |
| `TreeReduce.BlockReduce` | src/bridge/mlx_grouped_kernel.cpp:109-167 | The batched reductions of all slots, four at a time, give every slot's sum over all 256 lanes. |
| `TileKernel.PartsAreFold` | src/bridge/mlx_grouped_kernel.cpp:66-107 | Slot by slot, what the kernel adds up is the row-by-row grouped fold: SUM and COUNT of unmasked rows, row counts of passing rows. |
| `TileKernel.AddRow` | src/bridge/mlx_grouped_kernel.cpp:67-106 | The row body adds exactly that row's contributions to the lane's accumulators, and nothing for a code outside the groups. |
| `TileKernel.AccumulateLane` | src/bridge/mlx_grouped_kernel.cpp:55-107 | A lane ends with exactly its share of every slot over the tile. |
| `TileKernel.RunTile` | src/bridge/mlx_grouped_kernel.cpp:45-186 | A tile's block is the difference of prefix sums at its ends, for every slot. |
| `TileKernel.RunTiles` | src/bridge/mlx_grouped_kernel.cpp:45-186 | Every tile's partials are its share of every slot, the ragged last tile included. |
| `TileKernel.MergeLane` | src/bridge/mlx_grouped_kernel.cpp:309-356 | A merge lane sums exactly the tiles dealt to it. |
| `TileKernel.MergeColumn` | src/bridge/mlx_grouped_kernel.cpp:309-356 | A merge threadgroup yields the sum of its column over all tiles. |
| `TileKernel.SharesTelescope` | src/bridge/mlx_grouped_kernel.cpp:309-356 | Consecutive tiles' shares add up to the prefix sum at the last tile's end. |
| `TileKernel.ColumnsAreTotals` | src/bridge/mlx_grouped_kernel.cpp:415-431 | The two-level merge loses nothing: a merged column is the total over all rows the tiles cover. |
| `TileKernel.GroupedState.constructor` | src/bridge/mlx_bridge.cpp:2617-2650 | A fresh state holds zero rows, sums and counts. |
| `TileKernel.GainOfLane` | src/bridge/mlx_grouped_kernel.cpp:391-413 | A SUM or AVG program's slot gains its own lane's total, once. |
| `TileKernel.NoLaneNoGain` | src/bridge/mlx_grouped_kernel.cpp:391-413 | A slot no lane feeds, or whose program is of another kind, gains nothing. |
| `TileKernel.MergeTilePartials` | src/bridge/mlx_grouped_kernel.cpp:391-413 | Every slot of the state moves by what its lanes gained and by nothing else; group row counts are added. |
| `TileKernel.TotalsFold` | src/bridge/mlx_grouped_kernel.cpp:391-431 | Merged totals added slot by slot are the grouped fold. |
| `TileKernel.ProgramsUseTileKernel` | src/bridge/mlx_grouped_kernel.cpp:363-389 | The loop accepts 1 to 64 groups, no MIN or MAX, sums and averages in the int lane only, at least one of them, and at most 512 (program, group) pairs; nothing else. |
| `TileKernel.GroupedTileKernelAccumulate` | src/bridge/mlx_grouped_kernel.cpp:439-496 | Accepts exactly the eligible shapes, with their limits in numbers (64 groups, 8 lanes, 512 slots); then the state gains the sequential grouped fold of the whole batch for any number of rows, groups and lanes, otherwise it is unchanged. |
| `TileKernel.CountRightIff` | src/bridge/mlx_grouped_kernel.cpp:391-413 | From a fresh state a COUNT(col) that took the tile path is right exactly when the group has no passing row with the column present. |
| `Q1Kernels.PickQ1Grid` | src/bridge/mlx_grouped_kernel.cpp:939-948 | The number of 131072-row tiles while that is between 1 and 256, one for no rows, and 256 beyond 33554432 rows. |
| `Q1Kernels.FusedLane` | src/bridge/mlx_grouped_kernel.cpp:656-717 | A grid thread's accumulators hold exactly the rows at its stride. |
| `Q1Kernels.LanesMakeGridBlock` | src/bridge/mlx_grouped_kernel.cpp:656-717 | A threadgroup's reduction is the total of its threads' grid-stride shares. |
| `Q1Kernels.MergeGrid` | src/bridge/mlx_grouped_kernel.cpp:950-963 | Every row belongs to one thread of the grid, so the merged totals are those of all rows, despite the cap on groups. |
| `Q1Kernels.GroupedQ1FusedAccumulate` | src/bridge/mlx_grouped_kernel.cpp:1005-1044 | Accepts exactly the eligible shapes; then the state gains the grouped fold of all rows for every row count. |
| `Q1Dedicated.BundleLane` | src/bridge/mlx_grouped_kernel.cpp:724-819 | A lane of the dedicated kernel ends with its share of every column and group. |
| `Q1Dedicated.ArrangedTotals` | src/bridge/mlx_grouped_kernel.cpp:1085-1111 | Column totals rearranged by the plan are the lane totals the tile kernel would produce. |
| `Q1Dedicated.GroupedQ1DedicatedAccumulate` | src/bridge/mlx_grouped_kernel.cpp:1046-1111 | Accepts exactly the eligible shapes; then the state gains the grouped fold of the first 33554432 rows and no others, so of all rows up to that number. |
| `Q1Dedicated.DedicatedExactIff` | src/bridge/mlx_grouped_kernel.cpp:1046-1111 | What the kernel leaves is the fold of all rows (row counts, sums and lane counts) exactly when no row from number 33554432 on carries a group code. |
| `Q1Dedicated.DedicatedCountsIff` | src/bridge/mlx_grouped_kernel.cpp:939-948 | Row counts alone: every group is counted right exactly when no row from number 33554432 on carries a group code. |
| `Q1Dedicated.DedicatedDropsTail` | src/bridge/mlx_grouped_kernel.cpp:939-948 | Any batch of more than 33554432 equal codes is undercounted. |
| `RadixScan.BuildRadixScanHost` | src/bridge/mlx_groupby_radix.cpp:221-241 | Entry (block, byte) is the count of all smaller bytes plus that byte's count in earlier blocks. |
| `RadixScan.RadixBucketTotals` | src/bridge/mlx_groupby_radix.cpp:118-147 | The strided, tree-reduced totals kernel yields every bucket's total for any number of blocks. |
| `RadixScan.InclusiveScan` | src/bridge/mlx_groupby_radix.cpp:149-168 | The doubling scan turns any array into its inclusive prefix sums. |
| `RadixScan.RadixBucketOffsets` | src/bridge/mlx_groupby_radix.cpp:149-168 | Offsets are the exclusive prefix sums of the totals. |
| `RadixScan.RadixPerBucketScan` | src/bridge/mlx_groupby_radix.cpp:170-201 | Scanning 256 blocks at a time with a carry writes the bucket's running offset for every block and touches no other bucket. |
| `RadixScan.GpuBuildRadixScan` | src/bridge/mlx_groupby_radix.cpp:203-219 | The three kernels leave exactly the table the host scan leaves. |
| `RadixPass.RadixHistogram` | src/bridge/mlx_groupby_radix.cpp:44-83 | Entry (block, byte) counts the block's rows with that byte, ragged end included. |
| `RadixPass.ClassStart` | src/bridge/mlx_groupby_radix.cpp:221-241 | The scan entry of (byte, block) is the number of rows in all earlier bytes and blocks. |
| `RadixPass.PassConfigValid` | src/bridge/mlx_groupby_radix.cpp:384-395 | Histogram and scan make a valid scatter configuration: counters start at their class's first place. |
| `RadixPass.PassGroupsByByte` | src/bridge/mlx_groupby_radix.cpp:85-116 | Under every order of increments a pass permutes the rows, keeps each value with its key, and orders them by byte and then by block. |
| `RadixOrder.LaneDrawsInOrder` | src/bridge/mlx_groupby_radix.cpp:103-108 | Of two rows of one thread with one byte the earlier one draws the lower place, however the threads interleave. |
| `RadixOrder.OtherLaneFirst` | src/bridge/mlx_groupby_radix.cpp:103-108 | Of two rows of different threads with one byte in one block either can get the lower place: some run in which every thread keeps its own order does so. |
| `RadixOrder.StableIff` | src/bridge/mlx_groupby_radix.cpp:85-116 | A pass keeps equal bytes in order under every interleaving of its threads, each taking its rows 256 apart in order, if and only if in no block of 1024 rows the same byte occurs on two threads. |
| `RadixOrder.BusyByteUnstable` | src/bridge/mlx_groupby_radix.cpp:85-116 | A byte that occurs more than four times in a block is on two threads, so some interleaving breaks the order. |
| `RadixOrder.InOrderKeepsOrder` | src/bridge/mlx_groupby_radix.cpp:85-116 | Rows that act one after the other keep their order, and the threads take them in turn: every pass has an orderly run. |
| `RadixOrder.FlipKeepsOrder` | src/bridge/mlx_groupby_radix.cpp:29-42 | Flipping the sign bit maps signed order to unsigned order. |
| `RadixOrder.StageSorts` | src/bridge/mlx_groupby_radix.cpp:378-399 | A stable pass over byte p turns order by the lower bytes into order by the lower p + 1 bytes. |
| `RadixGroupBy.PassIsStable` | src/bridge/mlx_groupby_radix.cpp:85-116 | A finished scatter pass that kept order is such a stable pass. |
| `RadixGroupBy.RunSorts` | src/bridge/mlx_groupby_radix.cpp:378-399 | If every finished pass kept order and every skipped byte is constant over the input, the eight passes leave the rows sorted by key. |
| `RadixBytes.GaplessSkipsConstants` | src/bridge/mlx_groupby_radix.cpp:243-256 | Where the extremes differ in every byte below their topmost differing one, each byte that is skipped is constant over all keys between them. |
| `RadixGroupBy.ActiveBytesSortIff` | src/bridge/mlx_groupby_radix.cpp:243-256 | For every pair of extremes, found over signed or unsigned words: orderly runs over the chosen bytes sort all rows with these extremes, in any input order, if and only if the chosen bytes have no gap below the topmost one. |
| `RadixGroupBy.GapSplitsAKey` | src/bridge/mlx_groupby_radix.cpp:243-256 | Across any gap there are rows with these extremes, and orderly passes the threads can make, that reach the segment reduce unsorted: a key comes out twice, the result is not the GROUP BY, and the checksum accepts it. |
| `RadixBytes.SmallestGap` | src/bridge/mlx_groupby_radix.cpp:243-256 | 0 and 65536 are such extremes. |
| `RadixOrder.SingleByteSorts` | src/bridge/mlx_groupby_radix.cpp:243-256 | Where one byte alone varies, order by that byte is order by key. |
| `RadixGroupBy.SinglePassSorts` | src/bridge/mlx_groupby_radix.cpp:378-399 | Keys that vary in one byte alone are sorted by one pass under every schedule, with no stability assumed. |
| `RadixGroupBy.ChecksumSeesNothing` | src/bridge/mlx_groupby_radix.cpp:327-338 | For every run, orderly or not, the checksum accepts whenever there are rows: it cannot notice an unsorted run. |
| `RadixGroupBy.RunPass` | src/bridge/mlx_groupby_radix.cpp:384-398 | Histogram, device scan and scatter kernel on their buffers carry out exactly the pass its schedule describes. |
| `RadixGroupBy.GroupbySumRadix` | src/bridge/mlx_groupby_radix.cpp:342-409 | End to end: the result always passes the checksum; below 16384 rows it is the GROUP BY of the input if and only if the passes leave the rows sorted, from there on if and only if they leave equal keys together; and they sort when every pass keeps order and the extremes have no gap. |
| `RadixGroupBy.EveryInputRuns` | src/bridge/mlx_groupby_radix.cpp:373-399 | Every input has a run of eight passes that keeps order and that the threads can make, whichever bytes are chosen. |
| `RadixGroupBy.OneLaneRunIsStable` | src/bridge/mlx_groupby_radix.cpp:373-399 | A run in which no pass finds one byte on two threads of a block keeps order throughout, however the threads interleave. |
| `SegmentReduce.RunsConcat` | src/bridge/mlx_groupby_radix.cpp:317-324 | Where the key changes, the runs of the two sides are the runs of the whole, whatever the order. |
| `SegmentReduce.ReduceRange` | src/bridge/mlx_groupby_radix.cpp:263-277 | On any rows, sorted or not, the run loop yields one group per run of equal neighbouring keys. |
| `SegmentReduce.RunsAreGroupByIff` | src/bridge/mlx_groupby_radix.cpp:263-277 | Those groups are the GROUP BY of the rows if and only if the rows are sorted by key. |
| `SegmentReduce.RunsTotal` | src/bridge/mlx_groupby_radix.cpp:263-277 | Their sums add up to the total of the rows whatever the order. |
| `SegmentReduce.SkipRunMonotone` | src/bridge/mlx_groupby_radix.cpp:281-290 | Moving split points past their runs keeps them in order. |
| `SegmentReduce.SkipRunCutsNoRun` | src/bridge/mlx_groupby_radix.cpp:281-290 | On any rows a moved split point never cuts a run of equal keys. |
| `SegmentReduce.SplitPoints` | src/bridge/mlx_groupby_radix.cpp:281-290 | Nine monotone split points from 0 to the end, none of which cuts a run, for every input. |
| `SegmentReduce.ReduceSegments` | src/bridge/mlx_groupby_radix.cpp:292-322 | The eight workers' lists in order are exactly the runs of all rows, with count 0. |
| `SegmentReduce.SortedRunsAreGroupByIff` | src/bridge/mlx_groupby_radix.cpp:317-324 | Sorted, the runs are the GROUP BY of the rows if and only if equal keys stand together. |
| `SegmentReduce.HostSegmentReduce` | src/bridge/mlx_groupby_radix.cpp:258-325 | Below 16384 rows the result is the GROUP BY if and only if the rows are sorted, with exact counts; from there on if and only if equal keys stand together, with every count 0; on any input the total is kept. |
| `SegmentReduce.BranchesAgree` | src/bridge/mlx_groupby_radix.cpp:258-325 | Sequential and parallel branch return the same keys and sums. |
| `SegmentReduce.ZeroCountsAreWrong` | src/bridge/mlx_groupby_radix.cpp:317-322 | The parallel branch's counts are the groups' counts only for an empty input. |
| `DensePaths.DenseSpanExact` | src/bridge/mlx_groupby.cpp:85-94 | The 64-bit span test, wrap-around included, is the exact window condition on all pairs of int64 extremes. |
| `DensePaths.DenseRowsFromTables` | src/bridge/mlx_groupby.cpp:96-109 | Reading the occupied slots of an exact table in order is the GROUP BY. |
| `DensePaths.GroupbySumDenseHost` | src/bridge/mlx_groupby.cpp:135-172 | Returns the GROUP BY of the rows with a non-sentinel key when their window is small enough, and nothing otherwise. |
| `DensePaths.MaskIgnored` | src/bridge/mlx_groupby.cpp:526-550 | That answer is also right for the rows a validity mask keeps exactly when the mask drops only sentinel rows. |
| `DensePaths.WindowOfExtremes` | src/bridge/mlx_groupby.cpp:118-122 | The guard on the extremes accepts exactly the row sets without a sentinel key that lie in one window. |
| `DensePaths.GroupbySumDenseGpu` | src/bridge/mlx_groupby.cpp:112-132 | For any order of scatter-adds the device tables give the GROUP BY of every accepted input, and the rest is declined. |
| `DensePaths.GroupbySumSortScatter` | src/bridge/mlx_groupby.cpp:258-304 | For any order argsort may return, run numbering, scatter and gather give the GROUP BY with counts. |
| `DensePaths.RunTotals` | src/bridge/mlx_groupby.cpp:270-283 | Scattering by run number totals exactly the rows of the run's key. |
| `DensePaths.GroupbySumHashOrSort` | src/bridge/mlx_groupby.cpp:176-214 | With its guard the hash path gives the GROUP BY for every input: keys it cannot take are sorted instead. |
| `DensePaths.PathsAgree` | src/bridge/mlx_groupby.cpp:112-304 | Host window, device window, sort-and-scatter and hash return the same list, counts included, on every input inside a window. |
| `DenseAccumulator.ToInt32Exact` | src/bridge/mlx_groupby.cpp:383 | The cast of a slot count to int is exact up to 2^31 - 1 and only there. |
| `DenseAccumulator.PlacedHolds` | src/bridge/mlx_groupby.cpp:387-394 | Moving a table into a larger window keeps every key's sum and count. |
| `DenseAccumulator.DenseGroupbyAcc.Resize` | src/bridge/mlx_groupby.cpp:369-395 | Growing and shifting ends with the merged window and a table that still holds everything accepted. |
| `DenseAccumulator.DenseGroupbyAcc.ScatterBatch` | src/bridge/mlx_groupby.cpp:486-489 | Scatter-adding a batch, in any order, adds exactly its rows. |
| `DenseAccumulator.DenseGroupbyAcc.StartPopulation` | src/bridge/mlx_groupby.cpp:474-478 | A new population starts from an empty table, the same one goes on. |
| `DenseAccumulator.DenseGroupbyAcc.OverstretchedIff` | src/bridge/mlx_groupby.cpp:369-395 | A batch overflows the slot count exactly when its keys and the accepted ones together span 2^31 or more slots. |
| `DenseAccumulator.DenseGroupbyAcc.Accumulate` | src/bridge/mlx_groupby.cpp:466-490 | Which batches are empty, rejected, truncated or accepted, as conditions on the rows, and what each outcome leaves accepted. |
| `DenseAccumulator.DenseGroupbyAcc.TryRead` | src/bridge/mlx_groupby.cpp:498-507 | Reads exactly when this population is ready, and then the one-shot GROUP BY of everything accepted. |
| `DenseAccumulator.AccumulateAll` | src/bridge/mlx_groupby.cpp:466-507 | Any run of batches of one population holds out exactly as long as the keys let in span less than 2^31 slots; then a table is found exactly when rows were let in, it is their GROUP BY, and it is the GROUP BY of all rows if and only if every nonempty batch was let in. |
| `DenseAccumulator.TwoRowsTruncate` | src/bridge/mlx_groupby.cpp:378-389 | Any two rows, one per batch, whose keys lie 2^31 - 1 or more apart: both batches are let in and the run does not survive the second. |
| `DenseAccumulator.OneNullDropsBatch` | src/bridge/mlx_groupby.cpp:480-484 | A run in which one batch carries one sentinel (NULL) key ends as the run without that batch. |
| `Postfix.EvalOp` | src/bridge/mlx_bridge.cpp:231-336 | One operation on the explicit stack is one step of the stack machine. |
| `Postfix.EvalOps` | src/bridge/mlx_bridge.cpp:228-339 | The loop returns the top of the stack the machine ends with. |
| `Postfix.RunConcat` | src/bridge/mlx_bridge.cpp:228-339 | Running concatenated code is running the parts one after the other. |
| `TranslatorCorrectness.BinaryScaled` | src/planner/mlx_transparent.cpp:289-319 | On raw scaled integers, sums and differences at one scale and products at the sum of the scales are the exact decimal results. |
| `TranslatorCorrectness.Pow10Adds` | src/planner/mlx_transparent.cpp:102-108 | The loop's function is the power of ten: 10 at 1, and sums of exponents give products. |
| `TranslatorCorrectness.CompareScaled` | src/planner/mlx_transparent.cpp:222-258 | Comparing raw integers of one scale is comparing the decimals, for all six comparisons, each said in terms of "at most". |
| `TranslatorCorrectness.Widen` | src/planner/mlx_transparent.cpp:173-195 | Multiplying by the missing power of ten moves a raw integer to the wider scale exactly. |
| `TranslatorCorrectness.CastCorrect` | src/planner/mlx_transparent.cpp:166-221 | Every accepted cast keeps the value: same scale, widening, decimal to float, float to float. |
| `TranslatorCorrectness.JoinCorrect` | src/planner/mlx_transparent.cpp:259-275 | A conjunction or disjunction of any number of children leaves its truth value as one extra stack entry. |
| `TranslatorCorrectness.CallCorrect` | src/planner/mlx_transparent.cpp:289-351 | Accepted arithmetic calls compute the exact result in their lane. |
| `TranslatorCorrectness.CompileCorrect` | src/planner/mlx_transparent.cpp:110-355 | Compiler correctness: for every accepted typed tree, its code run on any stack never underflows or mixes lanes, adds exactly one value of the predicted lane, and that value is the tree's exact value, times 10^scale in the int lane. |
| `Acceptance.CompilesIff` | src/planner/mlx_transparent.cpp:78-355 | What is compiled, said about the tree alone: column and literal types, casts by pair of types and scale, operand lanes, function names and arities, shape of conjunctions, and the first projection that produces a table. A tree is compiled in a lane if and only if this holds. |
| `Acceptance.CollectsMentioned` | src/planner/mlx_transparent.cpp:129-131 | The referenced columns are exactly the columns the tree mentions, looking through projections. |
| `Acceptance.LoadsCollected` | src/planner/mlx_transparent.cpp:129-131 | They are exactly the columns the code loads. |
| `TranslatorMachine.MlxExprTranslator.Translate` | src/planner/mlx_transparent.cpp:110-355 | The recursive member function takes exactly the trees `Acceptance.Accepts` describes and reports their lane; it appends the code and columns of the compiling function. |
| `TranslatorMachine.MlxExprTranslator.TranslateColumn` | src/planner/mlx_transparent.cpp:112-135 | The column case, resolving through projections: taken exactly for the column types listed, in their lanes. |
| `TranslatorMachine.MlxExprTranslator.TranslateCast` | src/planner/mlx_transparent.cpp:166-221 | The cast case. |
| `TranslatorMachine.MlxExprTranslator.TranslateCall` | src/planner/mlx_transparent.cpp:289-351 | The function case. |
| `TranslatorMachine.MlxExprTranslator.TranslateJoin` | src/planner/mlx_transparent.cpp:259-275 | The conjunction loop: one operation after every child but the first. |
| `TranslatorMachine.TranslateAndEval` | src/planner/mlx_transparent.cpp:110-355 | Compiling and then running the stack machine gives the tree's exact scaled value for exactly the trees `Acceptance.Accepts` describes. |
| `ColumnRemap.RemapStorageToChunk` | src/planner/mlx_transparent.cpp:1318-1358 | In place: accepts exactly when every loaded and every mask column is in the chunk, and then rewrites each to its chunk position and nothing else. |
| `ColumnRemap.RemapKeepsMeaning` | src/planner/mlx_transparent.cpp:1341-1349 | Remapped code does on the chunk's row exactly what the original does on the storage row, on every stack. |
| `ColumnRemap.RemapKeepsMask` | src/planner/mlx_transparent.cpp:1350-1356 | The remapped mask columns are all present exactly when the original ones are. |
| `ColumnRemap.RemappedProgramCorrect` | src/planner/mlx_transparent.cpp:2013-2020 | Compiled, remapped and run on the chunk, a tree still yields its exact scaled value. |
| `ColumnRemap.FoundIffShown` | src/planner/mlx_transparent.cpp:1320-1340 | With no storage column listed twice, a column is found exactly when some chunk position shows it. |
| `ColumnRemap.FoundIff` | src/planner/mlx_transparent.cpp:1320-1340 | For any listing, with duplicates or without: a column is found exactly when some chunk position shows its first listing. |
| `GroupKeys.CombineKeys` | src/bridge/mlx_bridge.cpp:1818-1828 | The int32 fold of the keys is the exact mixed-radix code reduced to 32 bits, whatever wraps on the way. |
| `GroupKeys.GuardedCode` | src/bridge/mlx_bridge.cpp:1829-1837 | A row is counted in the group of its code, or nowhere if the code is out of range or the filter rejects it. |
| `GroupKeys.DigitsOfCombined` | src/planner/mlx_transparent.cpp:1023-1029 | Round trip: decoding a combined code gives back every key index. |
| `GroupKeys.CombinedOfDigits` | src/planner/mlx_transparent.cpp:1023-1029 | Round trip the other way: every group number below the product of cardinalities decodes to in-range indices that combine to it. |
| `GroupKeys.DecodeKeys` | src/planner/mlx_transparent.cpp:1023-1029 | The remainder-and-quotient loop, last key first, computes those indices. |
| `GroupKeys.OwnGroupIff` | src/bridge/mlx_bridge.cpp:1818-1837 | A passing row is counted in the group that decodes to its own keys exactly when every key is in its range. |
| `GroupKeys.OutOfRangeAliases` | src/bridge/mlx_bridge.cpp:1834-1837 | The guard sees only the combined code: a second key one past its range is counted in another tuple's group. |
| `GroupKeys.CodesGroupTuples` | src/bridge/mlx_bridge.cpp:1811-1837 | Grouping by code is grouping by key tuple: sums and counts agree for every group. |
| `GroupKeys.EmitGroups` | src/planner/mlx_transparent.cpp:1018-1044 | The emit loop returns, for every group that has rows and in group order, the tuple that, counted from the keys' emit bases, has the group's code. |
| `GroupKeys.EmitsOccurringTuples` | src/planner/mlx_transparent.cpp:1018-1044 | For every emit base: a tuple is emitted if and only if some input row has it once each key is moved by emit base minus offset; each once, in ascending order of first key, second key and so on. |
| `GroupKeys.EmittedDistinct` | src/planner/mlx_transparent.cpp:1018-1044 | Two groups are emitted as one tuple only if they are the same group, whatever the emit bases. |
| `GroupKeys.CodesAreOrdered` | src/bridge/mlx_bridge.cpp:1818-1828 | Codes order key tuples by the first key, then the second, and so on. |
| `AbsBound.ProgramAbsBound` | src/planner/mlx_transparent.cpp:1477-1540 | The analysis accepts exactly when every step of the bound machine does, and returns the top of its stack. |
| `AbsBound.BoundIsSound` | src/planner/mlx_transparent.cpp:1477-1540 | For every row within the column statistics, an accepted program runs to an integer of at most the bound in magnitude. |
| `AbsBound.WordsAreExact` | src/planner/mlx_transparent.cpp:1659-1665 | If the bound fits the word, evaluating in wrapping words of that width gives the exact value, even if columns or intermediate results wrap; ABS included. |
| `AbsBound.SignedRow` | src/planner/mlx_transparent.cpp:1477-1540 | Over ranges symmetric to zero a program that loads no column twice reaches its bound on some row wherever signs can be chosen that let all magnitudes add up. |
| `AbsBound.BoundIsAttained` | src/planner/mlx_transparent.cpp:1477-1540 | In particular every such program without constants and ABS reaches its bound. |
| `AbsBound.ConstantsCancel` | src/planner/mlx_transparent.cpp:1477-1540 | With constants it may not: 3 + -5 is bounded by 8 and is -2. |
| `AbsBound.SumsAreExact` | src/planner/mlx_transparent.cpp:1648-1656 | No partial sum wraps, for any tree of additions over rows whose number times the bound fits the word. |
| `AbsBound.AnyOrderAnyGrouping` | src/planner/mlx_transparent.cpp:1648-1656 | Any order and grouping of the same rows gives the same, exact sum in wrapping words. |
| `AbsBound.GateIsSafe` | src/planner/mlx_transparent.cpp:1648-1656 | Once the 2^61 gate accepts, int64 sums are exact for up to four times the estimated rows. |
| `AbsBound.FitsIff` | src/planner/mlx_transparent.cpp:1648-1656 | For n rows all sums of values within the bound fit the word exactly when n times the bound does. |
| `AbsBound.GateSafeIff` | src/planner/mlx_transparent.cpp:1648-1656 | Everything the gate accepts is safe for n actual rows if and only if n times (2^61 - 1) / max(estimate, 1) is below 2^63, in numbers. |
| `AbsBound.LowEstimateOverflows` | src/planner/mlx_transparent.cpp:1648-1656 | With one estimated row it is not safe for eight. |
| `ChunkedScatter.GpuScatterChunkRows` | src/bridge/mlx_bridge.cpp:1659-1673 | The chunk is the largest number up to 2048 whose rows times bound fit int32 for every int32 program and 2^24 for every fp32 program, or one row; for int32 programs it fits always. |
| `ChunkedScatter.ScatterProgram` | src/bridge/mlx_bridge.cpp:2138-2205 | Wrapping int32 scatter-adds of one chunk leave exact partials. |
| `ChunkedScatter.GroupedGpuScatter` | src/bridge/mlx_bridge.cpp:2138-2205 | After a chunk every int32 program's slots hold its exact partial sums and all others are untouched. |
| `ChunkedScatter.GroupedGpuFlushPartials` | src/bridge/mlx_bridge.cpp:2108-2136 | A flush moves every partial into the exact totals, once, and starts over from zero. |
| `ChunkedScatter.GroupedAccumulateArrays` | src/bridge/mlx_bridge.cpp:2233-2255 | Chunk, scatter, flush over a segment of any length adds exactly every slot's gain over all rows. |
| `ChunkedScatter.ChunkedIsGroupBy` | src/bridge/mlx_bridge.cpp:2233-2255 | In GROUP BY terms: a program's slot of a group gains that group's exact sum. |
| `NullLogic.NoNullsAgree` | src/bridge/mlx_bridge.cpp:341-358 | Where every referenced column is present, SQL's three-valued answer is the compiled two-valued one. |
| `NullLogic.ProgramMaskIsNotNull` | src/bridge/mlx_bridge.cpp:341-358 | A value program's mask holds for a row exactly when the SQL value is not NULL, and then the values agree. |
| `NullLogic.FilterMaskExact` | src/bridge/mlx_bridge.cpp:341-402 | The filter mask is exactly SQL TRUE together with presence of every referenced column, for every accepted filter. |
| `NullLogic.ConjunctiveMaskIsSqlTrue` | src/planner/mlx_transparent.cpp:1914-1956 | For AND-combinations of comparisons and negated comparisons the mask is exactly SQL TRUE. |
| `NullLogic.DisjunctionLosesRow` | src/bridge/mlx_bridge.cpp:341-361 | a = 1 OR b = 1 with b NULL is SQL TRUE and the mask drops the row. |
| `FilterAssembly.FilterTakenIff` | src/planner/mlx_transparent.cpp:1365-1459 | A pushed-down filter is accepted exactly if it is a comparison with a constant, IS NOT NULL, or a nonempty AND or OR of such filters. |
| `FilterAssembly.FilterYields` | src/planner/mlx_transparent.cpp:1365-1466 | A pushed-down filter without IS NOT NULL compiles to code whose one result is the filter's truth on the column value. |
| `FilterAssembly.FilterEffect` | src/planner/mlx_transparent.cpp:1428-1459 | A filter's code gains one stack entry less one for every IS NOT NULL inside it. |
| `FilterAssembly.WellFormedIff` | src/planner/mlx_transparent.cpp:1428-1459 | An accepted filter's code runs to exactly one value if and only if it contains no IS NOT NULL. |
| `FilterAssembly.PartYieldsIff` | src/planner/mlx_transparent.cpp:1939-1956 | As a part of the scan's predicate an accepted filter yields its truth if and only if it contains no IS NOT NULL or emits no code at all. |
| `FilterAssembly.TableFilterMaskIsSqlTrue` | src/planner/mlx_transparent.cpp:1365-1466 | Present and true is exactly SQL TRUE, for every accepted filter on one column, OR included. |
| `FilterAssembly.AssembleFilter` | src/planner/mlx_transparent.cpp:1914-1956 | The assembly loop joins the nonempty parts with AND and collects their columns. |
| `FilterAssembly.AssembledIsConjunction` | src/planner/mlx_transparent.cpp:1914-1956 | The assembled code yields the conjunction of its parts' truths. |
| `FilterAssembly.AssembledMask` | src/planner/mlx_transparent.cpp:1914-1956 | The assembled mask columns are present exactly when every part's are. |
| `ZoneMaps.ComputeZoneMap` | src/bridge/mlx_bridge.cpp:708-737 | The zone map is the least and the greatest present value, or zeros where all are NULL, and has_null says whether some value is missing. |
| `ZoneMaps.DescribedIsCovered` | src/bridge/mlx_bridge.cpp:786-791 | Such a map covers its column in every segment that holds it. |
| `ZoneMaps.BuildSegmentPrunePreds` | src/bridge/mlx_bridge.cpp:452-489 | Accepts exactly comparison (AND comparison)* in infix order and returns all of the comparisons, or none. |
| `ZoneMaps.OnlySingleComparisonsPrune` | src/bridge/mlx_bridge.cpp:452-489 | Of all programs that run, the parser recognises exactly the single comparisons. |
| `ZoneMaps.ComparisonParses` | src/bridge/mlx_bridge.cpp:452-489 | A single comparison with a constant, as the translator emits it, is recognised as itself. |
| `ZoneMaps.ConjunctionDoesNotPrune` | src/include/mlx_bridge.hpp:222-226 | A conjunction of any two comparisons as compiled yields no predicate, against the documented pruning of conjunctions. |
| `ZoneMaps.SegmentShouldPrune` | src/bridge/mlx_bridge.cpp:491-549 | Prunes exactly when some predicate rules the segment out and every earlier one had a zone map in its lane. |
| `ZoneMaps.RulesOutIff` | src/bridge/mlx_bridge.cpp:513-546 | A comparison rules a segment out exactly when no number between its ends satisfies it; for <> only a segment without NULL. |
| `ZoneMaps.RuledOutIsEmpty` | src/bridge/mlx_bridge.cpp:513-546 | No present value of a segment that a comparison rules out satisfies the comparison, for all six comparisons. |
| `Folds.FoldConcat` | src/bridge/mlx_bridge.cpp:404-440 | Splitting rows anywhere and merging the results is folding all of them, for SUM, AVG, COUNT, MIN and MAX. |
| `Folds.FoldAggregates` | src/bridge/mlx_bridge.cpp:404-440 | What folding computes: the number of contributing rows; for SUM and AVG the sum of the values, for MIN (MAX) one of the values, or the start value, that none is below (above). |
| `Folds.AggregatesUnique` | src/bridge/mlx_bridge.cpp:404-440 | Nothing else meets that description. |
| `Folds.MinimumAttained` | src/bridge/mlx_bridge.cpp:404-440 | With at least one contributing int64 value, MIN and MAX are contributed values and none is smaller or greater. |
| `Folds.MergeAdds` | src/bridge/mlx_bridge.cpp:404-440 | Merging a fold into an earlier result adds its rows: sums and counts add up, MIN and MAX are the least and the greatest of the old value and the new ones. |
| `EvalSegments.BuildSumGraphs` | src/bridge/mlx_bridge.cpp:366-402 | Every program's outputs stand at its cursor: the segment's fold, and its count where it is masked. |
| `EvalSegments.MergeSegmentOutputs` | src/bridge/mlx_bridge.cpp:404-440 | Reading them back with a running cursor merges exactly the segment's fold into each result: its rows are added in the sense of `Folds.MergeAdds`. |
| `EvalSegments.PrunedSegmentIsEmpty` | src/bridge/mlx_bridge.cpp:572-598 | With null_cols covering the filter's columns, a pruned segment has no passing row. |
| `EvalSegments.SelectSegments` | src/bridge/mlx_bridge.cpp:572-598 | Exactly the segments that are neither empty nor ruled out by the filter's one comparison are kept, and they account for every contributing row. |
| `EvalSegments.EvalSegments` | src/bridge/mlx_bridge.cpp:553-659 | For every well-formed filter and any segmentation, with or without zone maps, the results are the aggregates (`Folds.FoldAggregates`) of what all rows contribute. |
| `EvalSegments.AnyCutContributes` | src/bridge/mlx_bridge.cpp:553-659 | Wherever a table is cut, and however its validity is stored, its segments contribute what its rows contribute, in order: segmentation is unobservable. |
| `EvalSegments.PartEvaluable` | src/bridge/mlx_bridge.cpp:553-659 | Code that runs on every row of a table runs on every row of its segments. |
| `RowMeaning.ContributionMeans` | src/bridge/mlx_bridge.cpp:366-402 | What a row contributes, in SQL: for programs and filters compiled and renumbered from a query, row i brings a value if and only if SQL keeps it and its argument is not NULL, and the value is the argument's SQL value times 10^scale. |
| `RowMeaning.ConditionKeeps` | src/bridge/mlx_bridge.cpp:366-374 | One condition of the predicate is true with its columns present exactly when SQL calls it TRUE and, for a WHERE expression, no column it mentions is NULL. |
| `RowMeaning.SqlTrueKeeps` | src/bridge/mlx_bridge.cpp:366-374 | For ANDs of comparisons and their negations TRUE alone decides. |
| `RowMeaning.BuiltRuns` | src/bridge/mlx_bridge.cpp:366-402 | Over rows the binder typed, the built filter and programs run on every row. |
| `RowMeaning.BuiltCovers` | src/planner/mlx_transparent.cpp:1956 | The null columns of a built filter cover every column its code loads. |
| `ColumnCache.AppendColumnSlice` | src/bridge/mlx_bridge.cpp:776-799 | Appends exactly the slice as one segment: its values, which of them are NULL, and a zone map that describes them; segments stay nonempty, rows their total, and the stale fused column is dropped. |
| `ColumnCache.ConcatBalanced` | src/bridge/mlx_bridge.cpp:801-815 | Halving the list first does not change what is concatenated. |
| `ColumnCache.Fuse` | src/bridge/mlx_bridge.cpp:817-835 | The fused column is the concatenation of the segments, its validity that of the arrays there are; the segments stay as they are. |
| `ColumnCache.FusedShowsSameIff` | src/bridge/mlx_bridge.cpp:826-834 | The fused column shows the rows its segments show if and only if all segments carry a validity array or none does. |
| `ColumnCache.Cache.FuseTable` | src/bridge/mlx_bridge.cpp:950-968 | Every column of the table is fused, every other one left as it was. |
| `ColumnCache.NextTake` | src/bridge/mlx_bridge.cpp:1437-1443 | A split step takes up to the canonical boundary, or a million rows past the last one, or all that is left if that is less; never none, because no canonical segment is empty. |
| `CacheLookup.PiecesWithin` | src/bridge/mlx_bridge.cpp:1437-1443 | A batch cut by itself has pieces of a million rows and a last one of no more. |
| `ColumnCache.Cache.DropTable` | src/bridge/mlx_bridge.cpp:761-774 | Removes exactly the table's columns and layout. |
| `ColumnCache.Cache.RefreshLayout` | src/bridge/mlx_bridge.cpp:1348-1366 | The table is dropped exactly when a row count disagrees; its layout's remembered sizes survive otherwise, and other tables are untouched. |
| `ColumnCache.Cache.MarkMissing` | src/bridge/mlx_bridge.cpp:1368-1379 | Exactly the columns not resident with the expected rows are erased and marked to be stored. |
| `ColumnCache.Cache.BeginPopulation` | src/bridge/mlx_bridge.cpp:1339-1388 | A plan is all-or-nothing; nothing is stored exactly when every column was resident and all row counts agreed; what stays in the cache is unchanged, the layout keeps or forgets its sizes with the table, and other tables are untouched. |
| `ColumnCache.Cache.CanonicalSizes` | src/bridge/mlx_bridge.cpp:837-849 | The sizes of some resident column of the table, or else the layout's. |
| `ColumnCache.Cache.StoreSegment` | src/bridge/mlx_bridge.cpp:1394-1453 | Every stored column gains exactly the batch, values and NULLs, all cut at the same places: at the canonical boundaries, or every million rows for a table's first columns. |
| `ColumnCache.Cache.StoreAligned` | src/bridge/mlx_bridge.cpp:1428-1452 | The split loop ends and cuts at the canonical boundaries. |
| `ColumnCache.Cache.StorePieces` | src/bridge/mlx_bridge.cpp:1412-1426 | The first columns are cut every million rows. |
| `ColumnCache.Cache.StoreFresh` | src/bridge/mlx_bridge.cpp:1412-1426 | The table's layout remembers exactly those sizes. |
| `CacheRuns.TakesCut` | src/bridge/mlx_bridge.cpp:1437-1452 | Cutting a batch by the canonical sizes ends where the batch ends. |
| `CacheRuns.CutIsPieces` | src/bridge/mlx_bridge.cpp:1428-1452 | A batch replayed against sizes cut from the same batches is cut as it was the first time. |
| `CacheRuns.StaysInStep` | src/bridge/mlx_bridge.cpp:1394-1453 | A column replaying the batches is, after each batch, at a boundary of the canonical sizes. |
| `CacheRuns.PopulateColumns` | src/bridge/mlx_bridge.cpp:1394-1453 | A population into any cache: every stored column gains the rows of all batches in order, the same of them NULL, in segments of the same sizes; every other column is as it was. If the table was in step with the batches, all of its columns end with the same boundaries. |
| `CacheRuns.NextData` | src/bridge/mlx_bridge.cpp:1394-1453 | One batch more: the stored columns grow by the batch's values and NULLs, nothing else changes. |
| `CacheRuns.BeginsInStep` | src/bridge/mlx_bridge.cpp:1339-1388 | After a begin on an empty cache, or on one that holds the table, the columns to be stored start in step with the batches, whatever the layout remembers. |
| `CacheRuns.ServeQuery` | src/planner/mlx_transparent.cpp:560-570 | One query's begin, store and fuse on any cache. A load leaves the requested columns with the table's rows, values and NULLs, cut in the same places, whatever was resident before; a hit leaves them as they were. Resident columns that held the table's rows still do, with the same batches also the same boundaries, and every column is fused. |
| `CacheRuns.ServeQueries` | src/bridge/mlx_bridge.cpp:1339-1453 | Over any run of queries asking for any columns of one table, every resident column holds the table's rows, values and NULLs, and all have the same boundaries. |
| `CacheRuns.RunQueries` | src/bridge/mlx_bridge.cpp:1339-1453 | The same from an empty cache on, without any hypothesis on its state. |
| `CacheRuns.ServeAnyQueries` | src/bridge/mlx_bridge.cpp:1339-1453 | Over any run of queries, each scanning the table in batches of its own, every resident column holds the table's rows. |
| `CacheRuns.RunAnyQueries` | src/bridge/mlx_bridge.cpp:1339-1453 | The same from an empty cache on. |
| `CacheLookup.CacheHas` | src/bridge/mlx_bridge.cpp:1321-1337 | True exactly when all columns are resident with the rows and the same number of segments. |
| `CacheLookup.HasIsRightIff` | src/include/mlx_bridge.hpp:186-188 | Beside a resident column cut at c, a hit means row alignment after every load of another column, whatever its batches and whichever column supplies the boundaries, if and only if behind the first segment of c a segment shorter than a million stands only among segments of one row. |
| `CacheLookup.LoosePieceMisaligns` | src/bridge/mlx_bridge.cpp:1428-1452 | Otherwise there is a run of store calls, one batch per segment, that ends with a hit on misaligned columns; if no segment exceeds a million rows, the loading column supplies its own sizes to every batch but the first. |
| `CacheLookup.FullSupplierIsRight` | src/bridge/mlx_bridge.cpp:1428-1452 | If the resident column supplies the boundaries every time, the test is right for all batch sizes. |
| `CacheLookup.LoadHasIff` | src/bridge/mlx_bridge.cpp:1321-1337 | For one load: the test means alignment unless the numbers of segments agree and some piece is longer than the resident column's segment in its place. |
| `CacheLookup.PopulatedColumnsAlign` | src/bridge/mlx_bridge.cpp:1394-1453 | Columns loaded together are cut in the same places, whatever else is resident and whichever column supplied the canonical sizes. |
| `CacheLookup.SameBatchesAlign` | src/bridge/mlx_bridge.cpp:1394-1453 | Columns loaded at different times from the same batch sizes get identical boundaries. |
| `CacheSums.GatherSegments` | src/bridge/mlx_bridge.cpp:1463-1489 | The lookup fails exactly when a column is missing or segment numbers differ; otherwise every segment has every column's part and the zone maps are the columns'. |
| `CacheSums.SegmentsAreCuts` | src/bridge/mlx_bridge.cpp:1480-1488 | The segments read back are the flat columns, cut where the columns are cut. |
| `CacheSums.MapsCover` | src/bridge/mlx_bridge.cpp:1483 | The cached zone maps cover the cached segments. |
| `CacheSums.SumExprsCached` | src/bridge/mlx_bridge.cpp:1455-1494 | Over row-aligned columns, whatever the boundaries and whatever is pruned, the results are the aggregates of what the columns' rows contribute; the call fails exactly when a column is missing or segment numbers differ. |
| `CacheSums.SumQuery` | src/planner/mlx_transparent.cpp:560-574 | A query served through any cache: if it loads, the results over a table with rows are the aggregates of what the table's own rows contribute, NULLs included, whatever was resident before; if it hits, they are so where the resident columns hold the table's rows and are row-aligned. |
| `SqlSums.SqlQuery` | src/planner/mlx_transparent.cpp:2150-2256 | From the query to its results: it is planned if and only if the translator takes its conditions and arguments and the projections list their columns; then every result is the SQL aggregate of the table's rows (SUM, AVG as a sum, COUNT, COUNT(*), MIN, MAX), NULLs and WHERE clause included. |
| `SqlSums.AnswerUnique` | src/planner/mlx_transparent.cpp:2150-2256 | There is one such answer. |
| `SqlSums.BuildFilter` | src/planner/mlx_transparent.cpp:2150-2190 | The predicate is built, column numbers and all, exactly from conditions that are taken over listed columns. |
| `SqlSums.BuildPrograms` | src/planner/mlx_transparent.cpp:1587-1597 | The same for the programs of the aggregates. |
| `HostAccumulator.SumPass` | src/bridge/mlx_bridge.cpp:2329-2371 | The branch-free pass with its dump slot leaves every group's fold of the chunk. |
| `HostAccumulator.MaskedPass` | src/bridge/mlx_bridge.cpp:2319-2396 | The guarded pass leaves every group's fold of the chunk, which `Folds.FoldAggregates` says in plain words. |
| `HostAccumulator.ProgramPass` | src/bridge/mlx_bridge.cpp:2313-2397 | Whichever pass a program takes, its slots are the chunk's folds. |
| `HostAccumulator.RowsPass` | src/bridge/mlx_bridge.cpp:2303-2310 | Group row counts of the chunk. |
| `HostAccumulator.RunWorker` | src/bridge/mlx_bridge.cpp:2294-2399 | A worker's locals are the folds of its own rows. |
| `HostAccumulator.SplitsCover` | src/bridge/mlx_bridge.cpp:2293-2299 | The chunks cover all rows for every thread count, also when threads outnumber rows. |
| `HostAccumulator.HostState.MergeLocal` | src/bridge/mlx_bridge.cpp:2403-2425 | Merging the next worker extends the accumulated prefix of rows. |
| `HostAccumulator.AccumulateOnHost` | src/bridge/mlx_bridge.cpp:2257-2425 | For every thread count the state gains the aggregates of all rows: group row counts, and for every program and group the sum, number, least or greatest of the contributed values. |
| `SegmentBatches.BatchSegments` | src/bridge/mlx_bridge.cpp:2821-2854 | For every prune pattern the batches in order list exactly the kept segments; a batch of several has at most 8388608 rows, and none could have taken the segment after it. |
| `SegmentBatches.KeptRowsAreAll` | src/bridge/mlx_bridge.cpp:2837-2851 | If skipped segments contribute nothing, the kept ones' rows are all rows, in order. |
| `SegmentBatches.KeptOnce` | src/bridge/mlx_bridge.cpp:2837-2851 | A segment is listed exactly when it is nonempty and not pruned, and never twice. |
| `DenseReduce.GroupedDenseGpuReduce` | src/bridge/mlx_bridge.cpp:2032-2106 | The flat output list holds the group row counts and then every program's per-group folds in order. |
| `DenseReduce.ProgramStandsAt` | src/bridge/mlx_bridge.cpp:1979-2030 | Where a program's outputs stand in that list, whatever programs come before and after. |
| `DenseReduce.GroupedDenseGpuReduceMerge` | src/bridge/mlx_bridge.cpp:1979-2030 | Reading the list back with a cursor folds the batch into the state; the counts of MIN and MAX stay as they were. |
| `DenseReduce.AccumulateCached` | src/bridge/mlx_bridge.cpp:2822-2854 | The whole driver: for every prune pattern whose pruned segments hold only rejected rows, and every placement of batches, the state gains the aggregates of all rows (MIN and MAX: values only). |
| `DenseReduce.ZoneMapsPruneDumped` | src/bridge/mlx_bridge.cpp:2837-2851 | What the zone maps prune holds only rejected rows, so every prune pattern they give satisfies the driver. |
| `DenseReduce.PruneSegments` | src/bridge/mlx_bridge.cpp:2837-2851 | The prune decisions are those the zone maps justify; for a single comparison exactly those. |
| `DenseReduce.AgreesWithHost` | src/bridge/mlx_bridge.cpp:1979-2030 | Without MIN and MAX, dense driver and threaded host path leave the same state. |
| `DenseReduce.EmittedRightIff` | src/planner/mlx_transparent.cpp:1070-1082 | From a fresh state, a grouped MIN or MAX is emitted right exactly when the group has no contributing row, otherwise as NULL; COUNT(col), SUM and AVG are emitted right always. |

## Left out

- MLX and Metal themselves: `mx::compile`, lazy evaluation, launch shapes, the layout rules and out-of-range behaviour of `scatter_add` (the dump slot of the device scatter). Array operations keep only their array meaning.
- Memory orders weaker than sequential consistency: the kernels' relaxed atomics and the plain stores they publish are taken to be seen in order.
- Floating-point rounding, the fp32 row lane (`gpu_fp32_rows`, its partials in `ChunkedScatter` and its fallback), float DIV, and SQL's NULL for division by zero.
- The other instance of the zone-map template, for float columns; pruning itself is proved for both lanes.
- `ZoneMaps.ComputeZoneMap`: on integer columns whose values fit int64.
- `CacheSums.SumExprsCached`: at least one column and no derived ones, as the planner lists them for ungrouped sums; the counters of pruned segments are left out.
- `SqlSums.SqlQuery`: columns held as integers (DECIMAL of at most 18 digits), as the cache is modelled, and arguments of the int lane; result types, the overflow gate and cost gates, which decide whether a query is taken over at all, are not part of it (the gate's arithmetic is in `AbsBound`). Rows are typed as the binder leaves them, and no pushed-down filter hides IS NOT NULL among other conditions, which `FilterAssembly.PartYieldsIff` shows not to work. Keys are read once per cached column, so the filter's projection names no column twice.
- `TileKernel.GroupedTileKernelAccumulate`: COUNT(col) programs are shown to be left alone, which is what the code does; the packed variant of the kernel has the same body and is not repeated.
- `Q1Dedicated.GroupedQ1DedicatedAccumulate`: codes carry the folded filter and lanes are NULL-free, as the pin-time guard arranges; the pin-time plan matching itself is not modelled.
- `RadixGroupBy.RunSorts`: that every pass kept order and every skipped byte is constant are hypotheses, because neither is true of the code in general; when they are is `RadixOrder.StableIff`, with `RadixGroupBy.OneLaneRunIsStable`, and `RadixGroupBy.ActiveBytesSortIff`.
- `EvalSegments.EvalSegments`: outputs are read back segment by segment with a running cursor; the one flat array over all segments and AVG's final division are not modelled.
- `DenseAccumulator.DenseGroupbyAcc.Accumulate`: one entry of the keyed store of accumulators; the model stops where the code would go on with a truncated slot count.
- `ColumnCache.Cache.RefreshLayout`: where src/bridge/mlx_bridge.cpp:1356-1364 drops a table whose layout has another row count, it goes on writing through a reference to the map entry that dropping has just erased; the model has the entry re-created, which is what is meant.
- `HostAccumulator.AccumulateOnHost`: slots are addressed as (program, group) instead of group * programs + program; threads' writes are to their own locals, so their interleaving is not modelled.
- `GroupKeys.CombineKeys`: integer key columns; keys held as floats (dictionary codes) are the same integers as long as fp32 is exact on them.
- `DenseReduce.AccumulateCached`: batches are given by the rows they span; that evaluating concatenated segments is evaluating each of them is `EvalSegments.AnyCutContributes`.
- `ColumnCache.FusedShowsSameIff`: what a reader of the fused column does with validity that has moved or is too short is up to MLX and not modelled; the grouped path over fused columns (src/bridge/mlx_bridge.cpp:2711-2733) is modelled from its evaluated columns on.
- `ColumnRemap.FoundIff`: whether DuckDB's scan can list a column twice is not part of this model, so listings are arbitrary.
- Derived columns and their fingerprints, Q1 plan matching, TPC-H materialisation: they rest on hash non-collision and fixed layouts.
- Path selection, cost gates, environment settings and statistics counters: each is settled by reading one function.
- The streaming roofline kernels, vector search, dictionaries' storage, logging, SQL function registration and DuckDB's operator, catalog and pin plumbing.
