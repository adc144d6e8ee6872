# A verified model of TPIE's core

TPIE is a library of algorithms for data that does not fit in memory. This project models its most
involved parts in Dafny and proves what they promise. It needs nothing but Dafny 4.11:
`dafny verify dfyconfig.toml`.

## What is modelled

**The external merge sort** (`SortManager.dfy`, `MergeLevels.dfy`, `RunFormation.dfy`, `MergeSortedRuns.dfy`,
`KWayMerge.dfy`, `MergeHeap.dfy`, `InternalPriorityQueue.dfy`, `InternalSort.dfy`, `SortParameters.dfy`,
`FileStream.dfy`, `Arithmetic.dfy`, `Order.dfy`). The input is cut into sorted runs that are packed into files without
any record of where one run ends. The proofs follow the arithmetic on which this rests: extra runs go into the last
files, the one short run is the very last one, and the cut-off takes exactly one run from each merged stream. For every
input, run length and arity what is written is a sorted permutation.

**The serialization sorter** (`SerializationSorter.dfy`, `PhaseParameters.dfy`, `FileHandler.dfy`, `RunFiles.dfy`,
`RunMerger.dfy`, `RunBuffer.dfy`, `SerializedSort.dfy`). Its run files hold bytes. The methods are specified by the
multiset of items that remain. After `end`, whatever the reporting mode, pulling delivers a least remaining item, and
none of the internal consistency exceptions can be raised. So values of any type that takes bytes, compared by any
strict weak order, come back intact and sorted.

**The job manager and the parallel quicksort** (`JobSystem.dfy`, `JobTraces.dfy`, `ParallelSort.dfy`,
`ParallelQuicksort.dfy`). The job protocol is a state machine over the atomic steps of any number of threads. Its
invariant gives the meaning of the dependency counts, of join, and progress; what a run did is read off its steps. The
quicksort runs on top of it beside other users of the pool, and the array is sorted when the master job is done, for
every interleaving.

**Serialization streams and formats** (`SerializationStream.dfy`, `Serialization.dfy`, `SerializedItems.dfy`,
`Bytes.dfy`). Blocks of any size, forward and reverse, and values of nested types. The
layout of the bytes is stated, and the round trips hold through both.

**The block cache of a shared file** (`BlockCache.dfy`). Streams share reference-counted buffers and agree with one
plain array.

**Smaller structures**: union-find with path halving (`DisjointSets.dfy`), the spin lock (`SpinLock.dfy`), the external
queue and stack (`ExternalQueue.dfy`, `ExternalStack.dfy`) and the packed array (`PackedArray.dfy`).

Items have an integer key by which they are compared and a tag by which they can differ; `Order.RanksRepresentOrder`
shows that this covers every strict weak order.

## Where the code does something unexpected

The code is modelled as it is. In these places it does not do what its documentation suggests, and the model says
exactly when.

- `sort` with two different streams writes at the position at which the output stands and never truncates it
  (`OutputIsSorted`, `OldTailRemains`). Only inputs of fewer than two items are written from the beginning. After an
  external sort the assertion on the number of items in the output then fails (`ExternalSort`, `CountMismatch`).
- `compute_sort_params` asserts that there are at least two runs. That fails exactly when less memory than two streams
  need is available, items are single bytes, and at least three streams can be opened: the subtraction wraps around, and
  one run holds all input. Wider items then seem to fit in memory (`LessThanTwoRunsIff`, `WrappedMemory`,
  `OneRunOfBytes`).
- `calculate_parameters` of the serialization sorter tests the memory of the second phase where it means the third, and
  with less than a block there a subtraction wraps around: the sort begins, but cannot merge (`BeginsIff`,
  `BegunCanMergeIff`, `NoThirdPhase`). Conversely `minimum_memory_phase_3` is never enough to begin, and
  `minimum_memory_phase_2` only for items of no bytes (`MinimaIff`, `MinimaDoNotSuffice`).
- `serialization_reader::offset` counts one block too many after every read that failed at the end of a file that is
  not empty (`Reader.Offset`, `SerializationStreams.ReadingPastTheEnd`). The reverse reader does not.
- `evacuate` writes the whole buffer, so items that were already pulled come back (`Evacuate`, `PulledTwice`).
- When `push` of the serialization sorter fails because a single item does not fit, all items accepted before are in
  run files and are still delivered, but every later `push` fails too, and the failed items stay counted (`Push`). If
  none was accepted and `end` reports internally without shrinking, `can_pull` is true with nothing left, and `pull`
  reads what is not an item (`End`, `CanPullIffItemsRemain`, `NothingFits`).
- `can_pull` before `end` sees only the run files, not the buffer (`CanPullIffItemsRemain`, `PulledTooEarly`).
- Items that take no bytes are lost in run files, since `can_read` looks for bytes (`BytesLeft`, `LostWithoutBytes`).
- A failed read at the end of a file whose last block is not full leaves the stream on the empty block, with an offset
  beyond the end (`PartialEndIff`, `BlockCache.ReadingPastTheEnd`). It can be used again after a seek, or after a read
  that succeeds because another stream has made the file long enough.
- `truncate` of the block cache does not look at streams that hold no block and stand beyond the new end (`Truncate`,
  `TruncatedBelow`).
- `file_handler::can_read` and `read` let an index equal to the number of open readers pass their bounds check
  (`StaleReader`).
- `queue::pop` on an empty queue raises, but has decremented the size by then, which wraps around (`Queue.Pop`,
  `PoppingNothing`). The internal queue notices neither a push when full nor a pop when empty
  (`PushedTooMany`, `PoppedTooMany`).
- `make_set` on an element that is in a set is not noticed, and spoils the count or the partition (`MakeSet`,
  `MadeTwice`).

## Model

| member | source | states |
|---|---|---|
| SortManagers.SortManager.Sort | tpie/sort_manager.h:175-206 | The whole sort, for any two streams, the same one included: exactly which error is raised, the assertions on the number of runs and on the number of items in the output included. Unless a shortage is raised, a sorted permutation of the input is written; sorting in place leaves just that; and where both streams then stand. |
| SortManagers.OutputIsSorted | tpie/sort_manager.h:175-206 | With a separate output the stream holds just the sorted items if and only if it stood at 0 and was no longer than the input, because nothing seeks or truncates it. |
| SortManagers.OldTailRemains | tpie/sort_manager.h:213-253 | Sorting two items in memory onto a stream of three leaves the third one there. |
| SortManagers.CountMismatch | tpie/sort_manager.h:798-803 | An external sort of five items onto a stream of six fails the assertion on the item count, with six items in the output. |
| SortManagers.SortManager.SortTiny | tpie/sort_manager.h:192-202 | Fewer than two items are copied to the beginning of the output; where the input then stands. |
| SortManagers.SortManager.StartSort | tpie/sort_manager.h:213-300 | Input that fits is sorted in memory and other input externally; both write a sorted permutation, and a shortage leaves the items alone. An external sort onto another stream fails the final assertion unless that stream stood at 0 and was no longer than the input. |
| SortManagers.SortManager.ComputeSortParams | tpie/sort_manager.h:303-518 | Which check fails. Otherwise, in bytes: the longest run that fits beside three streams, as few runs as hold the input, and the largest arity that the memory, the streams and the number of runs allow. |
| SortManagers.RaisedInBytes | tpie/sort_manager.h:222-518 | When a sort succeeds and when it raises, by the bytes available, the number of streams and the output. |
| SortParameters.ErrorsInBytes | tpie/sort_manager.h:345-518 | Every shortage, each with the range of available bytes in which it is raised. |
| SortParameters.FitsIff | tpie/sort_manager.h:222-236 | Input is sorted in memory exactly if one item more would fit beside two streams, or the subtraction wraps around and items are wider than a byte. |
| SortParameters.RunsInBytes | tpie/sort_manager.h:345-422 | The run length and the number of runs, by bytes and items. |
| SortParameters.ArityInBytes | tpie/sort_manager.h:361-386 | How many runs can be merged is how many fit in memory beside the fixed costs. |
| SortParameters.LessThanTwoRunsIff | tpie/sort_manager.h:222-518 | The assertion of at least two runs fails if and only if less memory than for two streams is available, items are single bytes and three streams can be opened. |
| SortParameters.OneRunOfBytes | tpie/sort_manager.h:222-518 | A concrete case in which that assertion fails. |
| SortParameters.EnoughMemory | tpie/sort_manager.h:345-518 | With memory for two streams, input that does not fit is cut into at least two runs. |
| SortParameters.WrappedMemory | tpie/sort_manager.h:222-351 | Without it, the subtraction wraps around and any input seems to fit, unless its items are single bytes. |
| SortParameters.ChecksPass | tpie/sort_manager.h:303-518 | An external sort that passes the checks has at least two runs of at least one item. |
| SortManagers.SortManager.FormRun | tpie/sort_manager.h:576-592 | One run of the right length is sorted and appended to its file. |
| SortManagers.SortManager.PartitionStream | tpie/sort_manager.h:566-597 | One file gets its share of the runs, the short run being the very last one. |
| SortManagers.SortManager.PartitionAndSortRuns | tpie/sort_manager.h:520-611 | Partitioning packs the sorted runs into the files of level 0, and together they hold exactly the input. |
| RunFormation.FormedEnd | tpie/sort_manager.h:541-547 | After the last run all of the input has been consumed, and the runs are the input. |
| MergeLevels.AllRunsPlaced | tpie/sort_manager.h:532-539 | Minimum runs per stream plus one in each of the last streams place every run in exactly one file. |
| MergeLevels.RunsInLast | tpie/sort_manager.h:573-574 | The last file holds as many runs as there are rounds. |
| MergeLevels.LastRunIsLast | tpie/sort_manager.h:582-585 | A run is the very last one if and only if it is the last run of the last file. |
| MergeLevels.RunCount | tpie/sort_manager.h:667-700 | At every level the number of runs is the number of items over the run length, rounded up. |
| MergeLevels.TakesPart | tpie/sort_manager.h:702-747 | In a round the files that still have a run are exactly the last ones that are merged. |
| MergeLevels.RoundIsAligned | tpie/sort_manager.h:738-748 | No run boundaries are recorded, yet in every round the merged streams stand at the start of a run and the cut-off takes exactly that run. |
| MergeLevels.RoundAdvances | tpie/sort_manager.h:738-748 | A round moves every merged stream by exactly one run and leaves the others where they are. |
| MergeLevels.MergedRunIsGood | tpie/sort_manager.h:743-767 | The run merged from a round is sorted and of full length for the next level, unless it is the last one. |
| MergeLevels.LevelRound | tpie/sort_manager.h:738-748 | One more round keeps everything the level has achieved so far. |
| MergeLevels.LevelEnd | tpie/sort_manager.h:757-767 | After the last round all streams are exhausted and the merged runs are the runs of the next level, with the same items. |
| MergeLevels.FinalFiles | tpie/sort_manager.h:774-793 | When no more runs than files remain, the last files hold one run each. |
| MergeLevels.FinalIsAligned | tpie/sort_manager.h:780-800 | The final merge, without cut-off, takes each remaining run in full. |
| SortManagers.SortManager.SingleMerge | tpie/sort_manager.h:817-826 | A merge of a range of streams writes the union of what the cut-off admits and advances each stream by just that. |
| SortManagers.SortManager.MergeRun | tpie/sort_manager.h:738-748 | One output run of a level is merged and appended. |
| SortManagers.SortManager.MergeStream | tpie/sort_manager.h:725-755 | One output file of a level gets its share of merged runs. |
| SortManagers.SortManager.LevelNumbers | tpie/sort_manager.h:681-700 | The numbers of the next level, and how many runs its last output run is merged from. |
| SortManagers.SortManager.MergeLevel | tpie/sort_manager.h:667-769 | A level of merging: the packing of the next level, ceil(nRuns / arity) runs, arity times the run length, the same items, and every input stream exhausted. |
| SortManagers.SortManager.MergeWhileTooMany | tpie/sort_manager.h:667-772 | After h levels there are ceil(nRuns / arity^h) runs of length L * arity^h; the loop ends with at least two and at most arity runs. |
| SortManagers.SortManager.FinalMerge | tpie/sort_manager.h:774-800 | The last merge writes a sorted permutation of all runs to the output. |
| SortManagers.SortManager.MergeToOutput | tpie/sort_manager.h:613-815 | Merging all levels and then to the output; the final assertion fails exactly unless the output stood at 0 and was no longer than the input. The assertions on the way hold. |
| SortManagers.SortManager.ExternalSort | tpie/sort_manager.h:289-300 | Partitioning followed by merging sorts any input, for any run length and arity; exactly when the final assertion fails. |
| Arithmetic.CeilCeil | tpie/sort_manager.h:682-682 | Rounding up level by level is rounding up once by the product. |
| Arithmetic.LevelArithmetic | tpie/sort_manager.h:682-767 | How the number of runs and their length change over one level. |
| Arithmetic.CeilShrinks | tpie/sort_manager.h:667-682 | A level strictly reduces the number of runs and leaves at least two. |
| InternalSort.InternalSorter.Sort | tpie/internal_sort.h:202-250 | A memory load is read, sorted and written; sorting a stream onto itself replaces its content. It fails exactly for more items than the buffer, without a buffer, or for more items than are left, and then writes nothing. |
| SortedRuns.MergeSortedRuns | tpie/merge_sorted_runs.h:73-135 | Each stream contributes its next min(cutoff, remaining) items: the output is their union, sorted if they are, and each stream is advanced by exactly that amount. |
| FileStreams.OverwriteAt | tpie/file.h:156-164 | Writing to a stream replaces just the items from its position on, and adds items only behind the end. |
| SortedRuns.ReadLeading | tpie/merge_sorted_runs.h:91-100 | The heap starts with the leading item of every stream that has one, each labelled with its stream. |
| SortedRuns.FetchNext | tpie/merge_sorted_runs.h:118-126 | The next item of a stream, unless the cut-off or the end is reached. |
| SortedRuns.MergeOne | tpie/merge_sorted_runs.h:111-134 | Writing the least leading item and replacing it keeps the state of the merge. |
| KWayMerge.HeadsAdvance | tpie/merge_sorted_runs.h:111-134 | The heap keeps at most one entry for a stream, and it is the stream's current leading item. |
| KWayMerge.MergeStep | tpie/merge_sorted_runs.h:111-134 | Writing a least leading item keeps the output sorted and no larger than what is left. |
| KWayMerge.MergeDone | tpie/merge_sorted_runs.h:111-134 | When the heap is empty, everything has been written. |
| KWayMerge.LeastHead | tpie/merge_sorted_runs.h:111-113 | The least heap entry is a leading item no larger than any other. |
| MergeHeaps.MergeHeap.Insert | tpie/mergeheap.h:199-199 | An item of a run joins the heap, which need not be ordered yet. |
| MergeHeaps.MergeHeap.Initialize | tpie/mergeheap.h:220-220 | Restores the heap order after the insertions. |
| MergeHeaps.MergeHeap.GetMinRunId | tpie/mergeheap.h:189-189 | The run of a least item. |
| MergeHeaps.MergeHeap.DeleteMinAndInsert | tpie/mergeheap.h:226-231 | The least entry is replaced by the next item of its run, or removed. |
| InternalPriorityQueue.PopAndPushHeap | tpie/util.h:148-175 | After the root is overwritten the heap order is restored in place, with the same items and the rest of the array untouched. |
| InternalPriorityQueue.RootIsMinimum | tpie/util.h:186-198 | With the arguments of the comparator swapped, the root is a minimum. |
| InternalPriorityQueue.PriorityQueue.Top | tpie/internal_priority_queue.h:150-150 | The top is a minimum of the contents after any sequence of operations. |
| InternalPriorityQueue.PriorityQueue.UnsafePush | tpie/internal_priority_queue.h:76-82 | An item is added behind the others without restoring the order. |
| InternalPriorityQueue.PriorityQueue.MakeSafe | tpie/internal_priority_queue.h:88-90 | Restores the order and keeps the contents. |
| InternalPriorityQueue.PriorityQueue.Push | tpie/internal_priority_queue.h:109-119 | Adds an item. |
| InternalPriorityQueue.PriorityQueue.Pop | tpie/internal_priority_queue.h:124-128 | Removes the top item. |
| InternalPriorityQueue.PriorityQueue.PopAndPush | tpie/internal_priority_queue.h:133-143 | Replaces the top item. |
| ParallelSort.UnguardedPartition | tpie/parallel_sort.h:88-108 | Hoare's scans stay in bounds and end for any keys, permute only the segment, and return a split point. |
| ParallelSort.ScanDown | tpie/parallel_sort.h:95-96 | The downward scan stops inside the segment, at an item not above the pivot. |
| ParallelSort.ScanUp | tpie/parallel_sort.h:98-101 | The upward scan stops at the latest where it meets the downward one. |
| ParallelSort.PivotIsInTheMiddle | tpie/parallel_sort.h:119-149 | At least four of the nine sampled items are not above the pivot, and at least four are not below it. |
| ParallelSort.SamplesAreSpread | tpie/parallel_sort.h:137-149 | The samples run from end to end at distances of an eighth, and are different from nine items on. |
| ParallelSort.Partition | tpie/parallel_sort.h:157-164 | Partitioning by the picked pivot permutes the segment around a split point. |
| ParallelSort.QsortJob | tpie/parallel_sort.h:195-208 | One job, with its children run in place, sorts its segment and touches nothing else. |
| ParallelSort.ParallelSort | tpie/parallel_sort.h:294-309 | Sorting an array yields a sorted permutation. |
| ParallelQuicksort.RearrangeKeepsGood | tpie/parallel_sort.h:195-208 | Moving items inside one live segment keeps all other pairs in order. |
| ParallelQuicksort.SplitKeepsGood | tpie/parallel_sort.h:197-205 | Splitting a segment around a split point keeps the segments disjoint and all pairs outside one segment in order. |
| ParallelQuicksort.SettleKeepsGood | tpie/parallel_sort.h:206-208 | A segment that is sorted can be dropped from the live ones. |
| ParallelQuicksort.ActKeepsInv | tpie/parallel_sort.h:195-208 | Every action of every thread, other users of the pool included, keeps the invariant of the parallel sort. |
| ParallelQuicksort.JoinedArrayIsSorted | tpie/parallel_sort.h:248-276 | For every interleaving, when join on the master job can return the array is a sorted permutation of the input. |
| ParallelQuicksort.MasterEnqueued | tpie/parallel_sort.h:259-260 | A sort begins when its master job has been enqueued, whatever else the pool is doing. |
| ParallelQuicksort.NeverStuck | tpie/parallel_sort.h:197-208 | Running the partition, or std::sort on a small segment, a body can always split its segment or return. |
| ParallelQuicksort.SortProgress | tpie/parallel_sort.h:195-208 | No deadlock: while the master job is active, some thread can take, start or finish a job, or a body of the sort can move its items so that it can split or return. |
| ParallelQuicksort.PartitionThenSplit | tpie/parallel_sort.h:197-205 | Any result of the partition can be split. |
| ParallelQuicksort.SortThenSettle | tpie/parallel_sort.h:206-208 | Any sorted result lets the body of a small segment return. |
| ParallelQuicksort.FewJobs | tpie/parallel_sort.h:197-205 | A run has at most one split, and so at most one spawned job, for each item. |
| ParallelQuicksort.FewSteps | tpie/parallel_sort.h:195-208 | A sort of n items takes, starts and finishes jobs of its own in at most 3 * (n + 1) steps, whatever else the pool does. |
| ParallelQuicksort.SortRunsJobs | tpie/parallel_sort.h:195-276 | Every run of the sort is a run of the job system, in which a split creates and enqueues a child and a body that is done returns. |
| ParallelQuicksort.SplitShares | tpie/parallel_sort.h:197-205 | The child gets the items before the pivot, and the body goes on with those behind it. |
| ParallelQuicksort.OthersGoOn | tpie/parallel_sort.h:248-276 | Other users of the pool can do whatever the pool allows, and leave the array alone. |
| ParallelQuicksort.NoSharing | tpie/parallel_sort.h:195-208 | Two threads inside bodies of the sort hold disjoint segments, so neither sees what the other writes. |
| JobSystem.DoneKeepsCounts | tpie/job.cpp:189-201 | The done() cascade ends, never raises "Bad job state", and leaves every dependency count right. |
| JobSystem.ActivateKeepsCounts | tpie/job.cpp:158-176 | Enqueueing a job under a running parent keeps every count right and the parent links acyclic. |
| JobSystem.StepKeepsInv | tpie/job.cpp:99-201 | Every atomic step of every thread keeps the invariant, and a step raises exactly when a job that is not idle is enqueued. |
| JobSystem.ReachableInv | tpie/job.cpp:158-201 | In every reachable state a job's dependencies are one for its unfinished body plus its active children. |
| JobSystem.JoinMeansDone | tpie/job.cpp:146-156 | join can return (and is_done is true) if and only if no body in the subtree of the activation is unfinished. |
| JobSystem.Progress | tpie/job.cpp:99-109 | While a job is active and the pool has a worker, some thread can take, start or finish a job, even with the queue full. |
| JobSystem.RunBound | tpie/job.cpp:99-201 | A run makes at most three work steps for each enqueue. |
| JobSystem.EachEnqueueRunsOnce | tpie/job.cpp:178-201 | When no work is left, the counts of each job agree. |
| JobSystem.TopOnce | tpie/job.cpp:178-187 | The body a thread executes is on no other stack and nowhere else on its own. |
| JobSystem.StackedIsUnfinished | tpie/job.cpp:99-109 | A body on a stack has not returned and is not in the queue. |
| JobSystem.EnqueueKeepsInv | tpie/job.cpp:158-176 | An enqueue puts the job in the queue, or on the enqueuing thread when the queue is full. |
| JobSystem.FinishNeverFails | tpie/job.cpp:184-187 | A body that returns always completes its done() cascade. |
| JobTraces.BodiesAlternate | tpie/job.cpp:158-187 | In any run, by the steps alone: of every job the enqueues, the starts and the returns take turns, and the state says where it stands. |
| JobTraces.EachEnqueueRunsOnce | tpie/job.cpp:178-201 | When no work is left, every job has been started and has returned as often as it was enqueued. |
| JobTraces.FewWorkSteps | tpie/job.cpp:99-201 | A run from the beginning has at most three work steps for each call of enqueue. |
| JobTraces.FirstInFirstOut | tpie/job.cpp:99-109 | Jobs are taken from the queue in the order in which they were put there. |
| JobTraces.JoinWaitsForChild | tpie/job.cpp:146-201 | If a job can be joined, each child that its body enqueued has returned to idle since. |
| JobTraces.ChildHasParent | tpie/job.cpp:158-176 | Enqueueing from a body makes the job active with that body's job as its parent. |
| JobTraces.CallsAreNotRefused | tpie/job.cpp:158-176 | Clients and running bodies can call enqueue at any time. |
| JobTraces.OneJobRuns | tpie/job.cpp:99-201 | A concrete run from enqueue to idle. |
| FileHandlers.FileHandler.OpenNewWriter | tpie/serialization_sorter.h:314-319 | (x, y) becomes (x, 1 + y); raises exactly when a writer is open. |
| FileHandlers.FileHandler.Write | tpie/serialization_sorter.h:321-324 | Appends an item to the last run, as its bytes to the last file; raises exactly when no writer is open. |
| FileHandlers.FileHandler.CloseWriter | tpie/serialization_sorter.h:326-332 | Closes the writer; raises exactly when none is open. |
| FileHandlers.FileHandler.OpenReaders | tpie/serialization_sorter.h:346-360 | (fanout + x, y) stays and (0, fanout + y) becomes (fanout + y, 0); exactly when it raises; each reader has all bytes of its run left. |
| FileHandlers.FileHandler.CanRead | tpie/serialization_sorter.h:362-366 | Whether a reader has bytes left; raises exactly without open readers or for an index beyond their number, so the index equal to it passes. |
| FileHandlers.FileHandler.Read | tpie/serialization_sorter.h:368-374 | The item that the next bytes of a reader make; raises as can_read does, or the end-of-stream exception exactly when they make none. |
| FileHandlers.StaleReader | tpie/serialization_sorter.h:362-366 | A concrete case in which an index equal to the number of open readers passes the bounds check. |
| FileHandlers.LostWithoutBytes | tpie/serialization_sorter.h:362-366 | A run of one item that takes no bytes has nothing to read. |
| RunFiles.ReadsNext | tpie/serialization_sorter.h:368-374 | Reading the bytes of a run delivers its items one by one, each intact if it stands for a value of the type. |
| RunFiles.BytesLeft | tpie/serialization_sorter.h:362-366 | Bytes are left exactly while items are left, for a type whose values take bytes, and never for any other type. |
| RunFiles.HoldsWritten | tpie/serialization_sorter.h:321-324 | Appending an item's bytes to the last file makes it the file of the longer run. |
| RunFiles.StillReads | tpie/serialization_sorter.h:368-374 | After any read, failed or not, a reader has the rest of its run's bytes left. |
| FileHandlers.FileHandler.CloseReadersAndDelete | tpie/serialization_sorter.h:376-386 | (fanout + x, y) becomes (x, y), and just the read files are deleted. |
| FileHandlers.FileHandler.MoveLastReaderToNextLevel | tpie/serialization_sorter.h:388-392 | (1, y) becomes (0, 1 + y) without copying; raises exactly when not one run remains, and otherwise relies on no reader being open. |
| FileHandlers.FileHandler.Reset | tpie/serialization_sorter.h:394-414 | No run file is left behind. |
| RunMergers.Merger.Init | tpie/serialization_sorter.h:461-465 | The queue starts with the leading item of every open run. |
| RunMergers.Merger.Top | tpie/serialization_sorter.h:471-473 | A leading item no larger than any other. |
| RunMergers.Merger.Pop | tpie/serialization_sorter.h:475-479 | Moves the run of the top item on by one item. |
| RunBuffers.RunBuffer.Push | tpie/serialization_sorter.h:131-155 | Accepts an item unless the buffer is or was full or the item does not fit; once full it stays full until reset. |
| RunBuffers.RunBuffer.Sort | tpie/serialization_sorter.h:192-194 | Sorts the buffered items in place. |
| RunBuffers.RunBuffer.ShrinkBuffer | tpie/serialization_sorter.h:187-190 | Keeps the items in a buffer of just their number. |
| SerializationSorters.SerializationSorter.Begin | tpie/serialization_sorter.h:673-768 | Starts run formation, once, and raises exactly as the checks of the parameters say. |
| PhaseParameters.BeginsIff | tpie/serialization_sorter.h:673-745 | A sort begins if and only if there are enough files and memory for one writer, for two readers and a writer with room for two items of the least size, or else less than a block for the third phase. |
| PhaseParameters.CanMergeIff | tpie/serialization_sorter.h:896-925 | merge_runs raises for want of memory unless phase 2 has room for two readers, a writer and two largest items and phase 3 for two readers and two largest items. |
| PhaseParameters.BegunCanMergeIff | tpie/serialization_sorter.h:700-738 | After a sort has begun, items of the least size can be merged if and only if the third phase has memory for a block: the check for the third phase tests the memory of the second. |
| PhaseParameters.NoThirdPhase | tpie/serialization_sorter.h:712-738 | A sort begins with no memory for its third phase, and then no items can be merged. |
| PhaseParameters.MinimaIff | tpie/serialization_sorter.h:633-645 | The declared minimum of memory for the third phase is never enough to begin, and that of the second only for items of no bytes. |
| PhaseParameters.MinimaDoNotSuffice | tpie/serialization_sorter.h:633-645 | A concrete sort with all three minima that cannot begin. |
| PhaseParameters.FanoutsWithinFiles | tpie/serialization_sorter.h:899-925 | Both fanouts are at least two, the final one is no larger, and each leaves a file of its phase unused. |
| SerializationSorters.SerializationSorter.Push | tpie/serialization_sorter.h:770-781 | Adds one item to what remains. It raises exactly when neither the buffer nor an emptied buffer takes it; then all earlier items are in the run files, and the buffer stays full. |
| SerializationSorters.SerializationSorter.End | tpie/serialization_sorter.h:783-828 | Internal, shrunk internal or external reporting is chosen exactly as the thresholds say, and all items remain; exactly when the next item dangles. |
| SerializationSorters.SerializationSorter.Evacuate | tpie/serialization_sorter.h:837-855 | Leaves internal reporting; what remains is unchanged if and only if not just a part of the buffer had been pulled, since the whole buffer is written. |
| SerializationSorters.SerializationSorter.EndRun | tpie/serialization_sorter.h:949-958 | The buffered items become one more sorted run; an empty buffer leaves no run. |
| SerializationSorters.SerializationSorter.MergeGroup | tpie/serialization_sorter.h:971-987 | Merging the first fanout runs, or moving a last lone run, keeps all items and raises exactly for a bad fanout; at most fanout readers and one writer are open. |
| SerializationSorters.SerializationSorter.WriteMerged | tpie/serialization_sorter.h:979-982 | What the merger yields is written as one sorted run with exactly the items of the merged runs. |
| SerializationSorters.SerializationSorter.MergeLevel | tpie/serialization_sorter.h:932-943 | One level takes r runs to ceil(r / fanout), the moved one included, and no consistency check fails. |
| SerializationSorters.SerializationSorter.MergeRuns | tpie/serialization_sorter.h:879-946 | Merges until few enough runs are left for the files of the third phase, raising only for a bad state or too little memory, with all items kept and no more files open than the second phase may have and than its memory holds. |
| SerializationSorters.LevelsNeeded | tpie/serialization_sorter.h:932-943 | What merging leaves is ceil(runs / fanout^levels) for the least number of levels that makes it few enough. |
| PhaseParameters.FanoutInBytes | tpie/serialization_sorter.h:899-903 | The fanout is the largest one for which its readers, an item of each and a writer fit in the memory of the second phase, and in its files. |
| PhaseParameters.FinalFanoutInBytes | tpie/serialization_sorter.h:914-917 | The final fanout is the largest one that fits in the memory and the files of the third phase and is no larger than the fanout. |
| PhaseParameters.BufferInBytes | tpie/serialization_sorter.h:113-119 | The buffer of a run is the longest one that takes half of the memory left by a writer. |
| PhaseParameters.PhaseErrors | tpie/serialization_sorter.h:684-738 | Which error a sort begins with, by the files and the bytes of each phase. |
| SerializationSorters.LevelShrinks | tpie/serialization_sorter.h:932-943 | A level strictly reduces the number of runs, so merging ends. |
| SerializationSorters.SerializationSorter.CanPullIffItemsRemain | tpie/serialization_sorter.h:1020-1024 | can_pull tells whether items remain in every state but two: before end with items in the buffer only, and when no item was accepted and reporting is internal without shrinking. |
| SerializationSorters.SerializationSorter.Pull | tpie/serialization_sorter.h:990-1018 | Delivers a least remaining item and removes it, and raises exactly when can_pull is false; in the two other states, what it delivers. |
| SerializationSorters.SerializationSorter.PullAll | tpie/serialization_sorter.h:990-1024 | Pulling until can_pull is false delivers a sorted permutation of what remained. |
| SerializationSorters.SortItems | tpie/serialization_sorter.h:755-1024 | Begin, push, end, evacuate or not, merge, evacuate or not, pull, through run files of bytes: a sorted permutation of all accepted items in every mode, raising only for bad limits, when no item is accepted, or when merging lacks memory. |
| SerializedSort.SortValues | tpie/serialization_sorter.h:755-1024 | The same for values of any serialized type that takes bytes and any strict weak order: the accepted values come back intact and in order. |
| SerializedSort.SortedValues | tpie/serialization_sorter.h:500-501 | Items sorted by rank are values sorted by the order, and the same values. |
| SerializationSorters.PulledTooEarly | tpie/serialization_sorter.h:990-1024 | Two items have been pushed, and before end none can be pulled. |
| SerializationSorters.NothingFits | tpie/serialization_sorter.h:770-1018 | A first item that does not fit, and yet pull delivers something. |
| SerializationSorters.PulledTwice | tpie/serialization_sorter.h:837-1018 | Of two items one is pulled, then the sorter evacuates, and the pulled one comes again. |
| SerializationSorters.TakeLeast | tpie/serialization_sorter.h:475-479 | Taking a least leading item leaves exactly the other items, none smaller. |
| SerializationSorters.MergedRuns | tpie/serialization_sorter.h:971-987 | Replacing the first runs by their merge at the end keeps all items and the runs sorted and not empty. |
| SerializationStreams.WriterBase.WriteBlock | tpie/serialization_stream.cpp:199-208 | A block is appended behind the full blocks before it. |
| SerializationStreams.WriterBase.Close | tpie/serialization_stream.cpp:210-219 | The header records the size, the direction and a clean close. |
| SerializationStreams.Writer.Write | tpie/serialization_stream.h:101-117 | Bytes are added behind those before, across any number of blocks. |
| SerializationStreams.Writer.Close | tpie/serialization_stream.cpp:253-258 | The file holds exactly the bytes written. |
| SerializationStreams.ReverseWriter.EndItem | tpie/serialization_stream.h:186-211 | An item is stored from its last byte to its first, on both the fast path and the block-crossing path. |
| SerializationStreams.ReverseWriter.FlushBlock | tpie/serialization_stream.cpp:269-274 | Reversing the whole block puts the waiting bytes in front, in file order. |
| SerializationStreams.ReverseWriter.Close | tpie/serialization_stream.cpp:288-293 | The file holds exactly the reversed bytes. |
| SerializationStreams.OpenReader | tpie/serialization_stream.cpp:305-323 | A stream opens exactly when its header is one that a writer of that direction wrote on closing properly; otherwise which error is raised, by the fields of the header (checked at lines 73-84). |
| SerializationStreams.OpenedTooEarly | tpie/serialization_stream.cpp:305-316 | The file of a writer that has not been closed is refused as not closed properly. |
| SerializationStreams.OpenedByMistake | tpie/serialization_stream.cpp:73-84 | Files with another magic number, an older version or a newer one are refused as such. |
| SerializationStreams.Reader.ReadBlock | tpie/serialization_stream.cpp:325-334 | A block is read, clipped to the file; it fails exactly beyond the end. |
| SerializationStreams.Reader.NextForward | tpie/serialization_stream.cpp:353-360 | The block after the current one continues the bytes in reading order. |
| SerializationStreams.Reader.NextReverse | tpie/serialization_stream.cpp:383-389 | The block before the current one, reversed, continues the bytes in reading order. |
| SerializationStreams.Reader.Read | tpie/serialization_stream.h:287-309 | Any number of bytes across blocks; the end-of-stream exception exactly when fewer are left. |
| SerializationStreams.Reader.CanRead | tpie/serialization_stream.h:372-375 | can_read holds if and only if bytes are left, for both directions (the reverse one is at lines 398-401). |
| SerializationStreams.Reader.Offset | tpie/serialization_stream.cpp:376-412 | The offset is the number of bytes read if and only if no forward read has failed on a file with content; each such failure adds one block. |
| SerializationStreams.ReadingPastTheEnd | tpie/serialization_stream.cpp:376-378 | Two bytes are read from a file of one, and the offset is beyond the size. |
| Serialization.RoundTrip | tpie/serialization2.h:98-349 | Unserializing what was serialized returns the value and leaves the rest untouched, for every nesting of types. |
| Serialization.OnlySerializationsUnserialize | tpie/serialization2.h:107-349 | Conversely, input that unserializes is the serialization of the value followed by the rest. |
| Serialization.FastWriteIsSlowWrite | tpie/serialization2.h:119-140 | Copying a trivial array at once writes the same bytes as one element at a time. |
| Serialization.FastReadIsSlowRead | tpie/serialization2.h:146-167 | Reading a trivial array at once reads the same as one element at a time. |
| Serialization.SerializedSize | tpie/serialization2.h:353-359 | The counted size is the number of bytes written. |
| Serialization.PairLayout | tpie/serialization2.h:98-318 | A trivial value is its memory, and a pair is its first part followed by its second. |
| Serialization.ArrayLayout | tpie/serialization2.h:186-339 | A tuple or an array is its elements in a row, and a vector has their number in eight bytes before them. |
| Serialization.LittleEndianDigits | tpie/serialization2.h:243-251 | The bytes of a number from the lowest to the highest. |
| Serialization.LayoutExample | tpie/serialization2.h:243-318 | The twelve bytes of a vector of two pairs of bytes. |
| Serialization.BytesTaken | tpie/serialization2.h:98-349 | Whether a value takes at least one byte, which readers need to see that an item is left, is decided by its type, and by which types. |
| SerializedItems.WriteValue | tpie/serialization_stream.h:135-140 | A value's bytes are added behind those before. |
| SerializedItems.WriteValueReverse | tpie/serialization_stream.h:229-234 | A value's bytes are added in reverse. |
| SerializedItems.ReadValue | tpie/serialization_stream.h:321-325 | Reading from the blocks does what unserializing the unread bytes does, failures included. |
| SerializedItems.ForwardRoundTrip | tpie/serialization_stream.h:101-117 | Values written and read back through blocks of any size are the same, and then nothing is left. |
| SerializedItems.ReverseRoundTrip | tpie/serialization_stream.h:179-211 | Values written in reverse are read back last to first, each one intact, and then nothing is left. |
| SerializedItems.ReadRun | tpie/serialization_sorter.h:362-374 | Reading the blocks of a run while can_read holds delivers all items if they take bytes, and otherwise none. |
| SerializedItems.RunRoundTrip | tpie/serialization_sorter.h:314-374 | A run written and read through blocks of any size comes back if and only if it is empty or its items take bytes. |
| SerializedItems.WriteRunFile | tpie/serialization_sorter.h:314-332 | Writing a run through blocks of any size leaves just the bytes of the run in the file. |
| SerializedItems.ReadItem | tpie/serialization_sorter.h:368-374 | Reading an item from blocks does what reading it from the unread bytes does, and a failed read uses them up. |
| BlockCache.FileBase.GetBlock | tpie/file_base.cpp:66-97 | A block already in use is shared and any other is fetched into a free buffer, which always exists; it fails exactly beyond the end. |
| BlockCache.SomethingFree | tpie/file_base.cpp:66-97 | A stream that holds no block leaves a buffer free. |
| BlockCache.FileBase.ReadBlock | tpie/file_base_crtp.inl:45-59 | A fetched buffer holds its part of the array, clipped to the file size. |
| BlockCache.FileBase.FreeBlock | tpie/file_base.cpp:99-114 | One user less; the last one writes a dirty block back and frees its buffer, and the array stays as it is. |
| BlockCache.FileBase.UpdateBlock | tpie/stream_crtp.inl:25-35 | The stream moves to the block it was told to seek or to the next one, or is left on the empty block. |
| BlockCache.FileBase.Seek | tpie/stream_crtp.h:66-84 | An absolute seek inside the file sets the offset and keeps the block; any other fails and changes nothing. |
| BlockCache.FileBase.CanRead | tpie/stream_crtp.h:109-113 | can_read holds if and only if the offset is inside the file. |
| BlockCache.FileBase.Read | tpie/file.h:101-110 | Reads the plain array at the offset; the end-of-stream exception exactly beyond the end, and exactly when it moves the offset away. |
| BlockCache.FileBase.PartialEndIff | tpie/file.h:101-110 | Reading loses the place of exactly the streams at the end of the file in a block that is not full. |
| BlockCache.ReadingPastTheEnd | tpie/file.h:101-110 | A concrete file on which a failed read leaves the offset beyond the size. |
| BlockCache.FileBase.Write | tpie/file.h:156-164 | At the offset of the stream there is then the item, all others stay, and the array grows by one exactly at its end; every other stream will see it. |
| BlockCache.ReadsWhatWasWritten | tpie/file.h:101-164 | One stream writes two items and then overwrites the first, and a second stream reads both as they are then. |
| BlockCache.PutBuffers | tpie/file_base.h:140-144 | Growing a block and the file by a write keeps every buffer and the disk in agreement with the array. |
| BlockCache.WrittenBack | tpie/file_base.cpp:99-114 | Write-back on the last release keeps the array on disk where it is no longer buffered. |
| BlockCache.FileBase.Attach | tpie/file_base.cpp:153-161 | A stream comes with one more buffer and stands at the beginning. |
| BlockCache.FileBase.Detach | tpie/file_base.cpp:163-167 | A stream gives up its block and its buffer. |
| BlockCache.FileBase.Truncate | tpie/file_base.h:181-190 | Cuts or grows the array, items that stay keeping their values, and fails exactly while a block is in use; the file stays sound if and only if no stream stands beyond the new end. |
| BlockCache.TruncatedBelow | tpie/file_base.h:181-190 | A file is cut off before the offset of a stream that holds no block. |
| BlockCache.TruncatedOnDisk | tpie/file_base.h:181-190 | The disk cut or grown to a size holds the array cut or grown to it. |
| BlockCache.FileBase.NothingIsLeftBehind | tpie/file_base.cpp:116-127 | With no stream attached no buffer is left, and the disk alone is the array. |
| DisjointSets.FindImproves | tpie/disjoint_sets.h:115-141 | find_set keeps every set and every representative, and makes no element deeper. |
| DisjointSets.FindHalvesDepth | tpie/disjoint_sets.h:115-141 | An element at depth d comes to depth ceil(d / 2). |
| DisjointSets.LinkRoot | tpie/disjoint_sets.h:101-106 | Exactly the elements of the linked set get the new representative. |
| DisjointSets.LinkRepresents | tpie/disjoint_sets.h:101-106 | Linking unites the two sets in the described partition and leaves one set less. |
| DisjointSets.RootsAreRepresentatives | tpie/disjoint_sets.h:157-159 | There are as many roots as sets. |
| DisjointSets.ConnectedIsLeast | tpie/disjoint_sets.h:150-152 | The described partition is contained in every equivalence that relates the united pairs. |
| DisjointSets.UnionsAreConnected | tpie/disjoint_sets.h:150-152 | The described partition relates the united pairs. |
| DisjointSets.ConnectedIsTransitive | tpie/disjoint_sets.h:150-152 | The described partition is transitive. |
| DisjointSets.ConnectedIsSymmetric | tpie/disjoint_sets.h:150-152 | The described partition is symmetric. |
| DisjointSets.DisjointSets.MakeSet | tpie/disjoint_sets.h:83-83 | A new element becomes a set of its own; the structure stays sound if and only if the element was in no set. |
| DisjointSets.DisjointSets.CountSetsIsSets | tpie/disjoint_sets.h:157-159 | count_sets is the size of any choice of one element from each set: no two are connected, and every element is connected to one. |
| DisjointSets.MadeTwice | tpie/disjoint_sets.h:83-83 | make_set twice on one element counts two sets where there is one. |
| DisjointSets.DisjointSets.FindSet | tpie/disjoint_sets.h:115-141 | The loop ends, returns the representative, and keeps the partition and the count. |
| DisjointSets.DisjointSets.Link | tpie/disjoint_sets.h:101-106 | Unites two sets given by their representatives; the count drops unless they are the same. |
| DisjointSets.DisjointSets.UnionSet | tpie/disjoint_sets.h:150-152 | Unites two sets whichever argument is evaluated first, and says which representative every element then has. |
| DisjointSets.DisjointSets.Clear | tpie/disjoint_sets.h:164-167 | No element is in a set any more. |
| SpinLock.MutualExclusion | tpie/spin_lock.h:33-71 | In every run of fewer than 2^31 threads, by the steps alone: between an acquisition and its release nobody else acquires or enters, and between an entry and its release nobody acquires. |
| SpinLock.StepKeepsInv | tpie/spin_lock.h:33-71 | Every atomic operation keeps the counter right. |
| SpinLock.NobodyIsStuck | tpie/spin_lock.h:59-63 | Holders can release, threads that are not there can arrive, and whoever spins can enter unless there is a unique holder. |
| SpinLock.StateIsTrace | tpie/spin_lock.h:33-71 | Who is where is what the steps say: who acquired, arrived or entered, and has not moved on since. |
| SpinLock.CounterIsTrace | tpie/spin_lock.h:33-71 | The counter is 2^31 for the unique holder plus one for everyone who spins or shares, by the steps. |
| SpinLock.FreeAgain | tpie/spin_lock.h:33-71 | When all have released, the counter is zero and everyone can acquire. |
| ExternalQueue.InternalQueue.Push | tpie/internal_queue.h:88-88 | Adds an element at the back of the circle, or spoils it exactly when it is full. |
| ExternalQueue.InternalQueue.Pop | tpie/internal_queue.h:93-93 | Removes the element at the front, or spoils the circle exactly when it is empty. |
| ExternalQueue.PushedTooMany | tpie/internal_queue.h:88-88 | A second item in a circle of one replaces the first. |
| ExternalQueue.PoppedTooMany | tpie/internal_queue.h:93-93 | A pop from an empty circle puts its beginning behind its end. |
| ExternalQueue.AroundMore | tpie/internal_queue.h:88-88 | A push overwrites none of the elements that wait. |
| ExternalQueue.Queue.Push | tpie/queue.h:86-95 | Adds an item at the back of the sequence of waiting items. |
| ExternalQueue.Queue.Pop | tpie/queue.h:100-117 | Removes and returns the oldest item, swapping the streams when they must be, and raises exactly when there is none; the size is then one too small. |
| ExternalQueue.PoppingNothing | tpie/queue.h:100-117 | Popping a new queue leaves a size of one below zero. |
| ExternalQueue.Queue.Front | tpie/queue.h:122-132 | The oldest item, or the end-of-stream exception exactly when there is none. |
| ExternalQueue.Queue.SwapFileStreams | tpie/queue.h:155-159 | Swapping keeps the sequence of waiting items. |
| ExternalStack.Stack.Push | tpie/stack.h:105-108 | Adds an item on top. |
| ExternalStack.Stack.Pop | tpie/stack.h:113-117 | Removes and returns the top item, or raises exactly when there is none. |
| ExternalStack.Stack.Top | tpie/stack.h:122-127 | Returns the top item and removes nothing. |
| ExternalStack.Stack.SizeIsLength | tpie/stack.h:132-134 | size is the number of items on the stack, wherever they are kept. |
| ExternalStack.Stack.EmptyBuffer | tpie/stack.h:161-166 | Cutting off the popped end of the stream and writing the buffer behind the rest keeps the stack. |
| ExternalStack.Stack.Close | tpie/stack.h:95-98 | The file holds exactly the stack. |
| PackedArrays.GetPut | tpie/packed_array.h:229-233 | What was assigned is what is read, cut to the width of an element. |
| PackedArrays.GetPutElsewhere | tpie/packed_array.h:229-233 | Assigning one field of a word leaves every other field alone. |
| PackedArrays.InBounds | tpie/packed_array.h:106-122 | Every access stays within the allocated words. |
| PackedArrays.Contiguous | tpie/packed_array.h:106-115 | Laid end to end, the words hold the elements at multiples of their width, without gaps. |
| PackedArrays.MemoryBound | tpie/packed_array.h:120-122 | The words take at most one word more than the elements' bits. |
| PackedArrays.ReverseBase | tpie/packed_array.h:467-472 | The shifted base of the reverse iterators addresses the same elements. |
| PackedArrays.PackedArray.Assign | tpie/packed_array.h:230-233 | Changes exactly one logical element. |
| PackedArrays.PackedArray.Fill | tpie/packed_array.h:365-371 | Sets all logical elements. |
| PackedArrays.PackedArray.At | tpie/packed_array.h:407-410 | Reads one logical element. |

## Left out

- Integer widths: sizes, offsets and counters are unbounded, except the spin counter, the eight bytes of a serialized length and the memory sizes of a sort (`SortParameters.dfy`, `PhaseParameters.dfy`).
- Execution-time and tree-height estimates in floating point, and the memory that single items take: whether an item fits, and the largest item's size, are parameters of the serialization sorter's operations.
- Files, their names and the operating system: a file is a value, and reading it does not fail.
- Progress indicators, logging and statistics. Assertions count as compiled in; those of the sort that cannot fail are assertions of the model.
- `parallel_sort` with a minimum size of 0, which would partition an empty range.
- `std::sort`, `std::push_heap`, `std::pop_heap`, `std::make_heap` and `std::priority_queue` are represented by simple algorithms with the contracts of the standard.
- ParallelSort.QsortJob: its children run in place instead of being enqueued; the job pool is in `ParallelQuicksort`.
- ParallelSort.ParallelSort: sorts in one thread, for its callers; the sort in the pool is in `ParallelQuicksort`.
- FileHandlers.FileHandler.CanRead: does not model the index equal to the number of open readers where the array of readers ends, which is an access outside it.
- FileHandlers.FileHandler.Read: does not model that index either.
- SerializationSorters.SortItems: models types whose values take bytes. Others are not merged but lost, as `LostWithoutBytes` and `SerializedItems.RunRoundTrip` show.
- SerializedSort.SortValues: models types whose values take bytes, as `SortItems` does.
- BlockCache.FileBase.Write: does not model a write by a stranded stream, which goes to memory that belongs to no block.
- `InternalSorter` and `RunBuffer` call the quicksort job with its children run in place; that the concurrent one ends in the same result is `ParallelQuicksort.JoinedArrayIsSorted`.
- Merge input streams are values in a sequence, as each is owned by one pointer; only the input and the output of a sort may be the same object.
- `merge_heap_ptr_op` differs from `merge_heap_op` only in storing pointers, and `extract_min` is used by neither merge.
- Shutting down the job pool, jobs that join other jobs from their bodies, and two threads enqueueing one idle job at the same time, which is a data race.
- An exception thrown by the body of a job, or by enqueueing a job that is not idle from a body, ends the program.
- The loop in which `parallel_sort` waits for its progress counter before it joins.
- What a serialization sorter does after items were pulled before `end` or the dangling one was pulled; its documentation allows neither and the code checks neither. The first such pull is modelled (`Pull`).
- User-defined serialize overloads, and stream files whose header does not tell their size.
- Write-only and read-only files, relative seeks, and array reads and writes of the block cache; its two lists are sets, and a stream is a record of the file.
- Element widths of 31 bits and more in the packed array, for which its mask overflows an int; its iterators' `-=`, copying and swapping.
- Btree, pipelining, compressed streams, the external priority queue, arrays and views.
