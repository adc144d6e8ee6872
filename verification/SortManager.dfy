/** The external merge sort of tpie/sort_manager.h. */
module SortManagers {
  import opened Arithmetic
  import opened Options
  import opened Order
  import opened FileStreams
  import opened MergeHeaps
  import KWayMerge
  import opened SortedRuns
  import opened MergeLevels
  import opened RunFormation
  import opened InternalSort
  import opened SortParameters

  lemma AppendRun(runs: RunList, from: nat, run: seq<Item>)
    requires from <= |runs|
    ensures Flatten((runs + [run])[from..]) == Flatten(runs[from..]) + run
  {
    assert (runs + [run])[from..] == runs[from..] + [run];
    FlattenAppend(runs[from..], run);
  }

  // Where the files of a level start: the two halves of the temporary files take turns.
  function Offset(arity: nat, height: nat): nat {
    if height % 2 == 0 then 0 else arity
  }

  // How many runs the last output run of a level is merged from.
  function LastRunsMerged(arity: nat, n: nat): nat
    requires arity >= 1
  {
    if n % arity > 0 then n % arity else arity
  }

  // How many files n runs are spread over.
  function OutputStreams(arity: nat, n: nat): nat
    requires arity >= 1
  {
    if n / arity > 0 then arity else n % arity
  }

  lemma OutputStreamsSuffice(arity: nat, n: nat)
    requires arity >= 1 && n >= 1
    ensures 1 <= OutputStreams(arity, n) <= arity
    ensures OutputStreams(arity, n) < arity ==> n < arity
    ensures arity - OutputStreams(arity, n) + n % arity <= arity
  {
    Remainder(n, arity);
  }

  lemma SortedPermutationIs(result: seq<Item>, input: multiset<Item>)
    requires Sorted(result) && multiset(result) == input
    ensures SortedPermutation(result, input)
  {
  }

  lemma NoLevels(runs: nat, length: nat, arity: nat)
    ensures Pow(arity, 0) == 1 && Ceil(runs, 1) == runs && length * Pow(arity, 0) == length
  {
  }

  // A file's content is counted with the runs in it.
  lemma FlattenMore(runs: RunList, runs': RunList)
    requires runs <= runs'
    ensures |Flatten(runs')| == |Flatten(runs)| + |Flatten(runs'[|runs|..])|
  {
    assert runs' == runs + runs'[|runs|..];
    FlattenConcat(runs, runs'[|runs|..]);
  }

  lemma {:induction false} FlattenedItems(runs: RunList)
    ensures multiset(Flatten(runs)) == AllItems(runs) && |AllItems(runs)| == |Flatten(runs)|
  {
    if runs != [] {
      FlattenedItems(runs[1..]);
    }
  }

  lemma AllCounted(runs: RunList, items: seq<Item>)
    requires AllItems(runs) == multiset(items)
    ensures |Flatten(runs)| == |items|
  {
    FlattenedItems(runs);
    assert |multiset(items)| == |items|;
  }

  lemma SameCount(sorted: seq<Item>, items: multiset<Item>)
    requires SortedPermutation(sorted, items)
    ensures |sorted| == |items|
  {
    assert |multiset(sorted)| == |sorted|;
  }

  // Writing n items leaves just n items.
  predicate HoldsOnly(output: Stream, n: nat) {
    output.pos == 0 && |output.items| <= n
  }

  lemma CountAfterWriting(output: Stream, sorted: seq<Item>)
    requires output.Valid() && sorted != []
    ensures |output.Write(sorted).items| == |sorted| <==> HoldsOnly(output, |sorted|)
  {
  }

  /** What a sort of n items raises: a shortage of resources, or last of all a wrong number of items in the output. */
  function WhatIsRaised(res: Resources, n: nat, inPlace: bool, output: Stream): Option<SortError>
    requires Measured(res, n)
  {
    if FitsInMemory(res, n) then None
    else if CheckResources(res, n).Some? then CheckResources(res, n)
    else if inPlace || HoldsOnly(output, n) then None
    else Some(ItemCountMismatch)
  }

  /** When a sort succeeds and when its items are miscounted, by the bytes that are available. */
  lemma RaisedInBytes(res: Resources, n: nat, inPlace: bool, output: Stream)
    requires Measured(res, n)
    ensures var error, a, b := WhatIsRaised(res, n, inPlace, output), res.available, res.perStream;
            var inMemory := if a < 2 * b then res.itemSize >= 2 else (n + 1) * res.itemSize + 2 * b <= a;
            var canMerge := res.streams >= 3 && 3 * b + res.itemSize <= a
              && 3 * b + res.mergeOverhead + 2 * (b + res.perMergeItem) <= a;
            var counted := inPlace || (output.pos == 0 && |output.items| <= n);
            && (error == None <==> inMemory || (canMerge && counted))
            && (error == Some(ItemCountMismatch) <==> !inMemory && canMerge && !counted)
            && (!inMemory && !canMerge ==> error == CheckResources(res, n))
  {
    FitsIff(res, n);
    if !FitsInMemory(res, n) {
      ErrorsInBytes(res, n);
    }
  }

  // The number of items in the output is found wrong only after they have been written.
  predicate Written(error: Option<SortError>) {
    error.None? || error.value.ItemCountMismatch?
  }

  ghost predicate EmptyHalf(temporaries: seq<seq<Item>>, arity: nat, height: nat)
    requires |temporaries| == 2 * arity
  {
    forall i :: Offset(arity, height) <= i < Offset(arity, height) + arity ==> temporaries[i] == []
  }

  class SortManager {
    const internalSorter: InternalSorter
    const mergeHeap: MergeHeap

    var nInputItems: nat
    var mmBytesAvail: nat
    var mmBytesPerStream: nat
    var use2xSpace: bool
    var nItemsPerRun: nat
    var nRuns: nat
    var mrgArity: nat
    var minRunsPerStream: nat
    var nXtraRuns: nat
    var nItemsInLastRun: nat
    var nItemsInThisRun: nat
    var runsInStream: nat

    constructor (minSize: nat)
      requires minSize >= 1
      ensures fresh(internalSorter) && fresh(mergeHeap) && fresh(mergeHeap.pq) && fresh(mergeHeap.pq.pq)
      ensures internalSorter.minSize >= 1 && mergeHeap.Safe()
    {
      internalSorter := new InternalSorter(minSize);
      mergeHeap := new MergeHeap();
    }

    /** The run length, the merge arity and at least two runs, within the resources. */
    method ComputeSortParams(res: Resources) returns (error: Option<SortError>)
      requires Measured(res, nInputItems) && !FitsInMemory(res, nInputItems)
      requires mmBytesPerStream == res.perStream && mmBytesAvail == Spare(res)
      modifies this`nItemsPerRun, this`mrgArity, this`nRuns
      ensures error == CheckResources(res, nInputItems) != Some(ItemCountMismatch)
      ensures error.None? ==>
        && nItemsPerRun >= 1 && nRuns == Ceil(nInputItems, nItemsPerRun)
        && 2 <= mrgArity <= nRuns && mrgArity < res.streams
      // As many items in a run, and as few runs, as the memory beside three streams allows.
      ensures error.None? ==>
        && 3 * res.perStream + nItemsPerRun * res.itemSize <= res.available
        && res.available < 3 * res.perStream + (nItemsPerRun + 1) * res.itemSize
        && (nRuns - 1) * nItemsPerRun < nInputItems <= nRuns * nItemsPerRun
      // The largest arity that the memory, the streams and the runs allow.
      ensures error.None? ==>
        && mrgArity * (res.perStream + res.perMergeItem) + res.mergeOverhead + 3 * res.perStream <= res.available
        && (mrgArity == nRuns || mrgArity + 1 == res.streams || res.available
          < (mrgArity + 1) * (res.perStream + res.perMergeItem) + res.mergeOverhead + 3 * res.perStream)
    {
      hide FitsInMemory, Ceil, Minus, MaxItemCount, Spare, Quotient;
      var mmBytesAvailSort := Minus(mmBytesAvail, mmBytesPerStream);
      nItemsPerRun := MaxItemCount(mmBytesAvailSort, res.itemSize);
      if nItemsPerRun < 1 {
        return Some(NoMemoryForRuns);
      }
      var mmBytesPerMergeItem := mmBytesPerStream + res.perMergeItem;
      var mmBytesFixedForMerge := res.mergeOverhead + mmBytesPerStream;
      if mmBytesFixedForMerge > mmBytesAvail {
        return Some(NoMemoryForMerge);
      }
      mrgArity := Quotient(Minus(mmBytesAvail, mmBytesFixedForMerge), mmBytesPerMergeItem);
      if mrgArity < 2 {
        return Some(ArityTooSmall);
      }
      if res.streams < 3 {
        return Some(TooFewStreams);
      }
      if mrgArity > res.streams - 1 {
        mrgArity := res.streams - 1;
      }
      nRuns := Quotient((nInputItems + nItemsPerRun - 1) % WIDTH, nItemsPerRun);
      if mrgArity > nRuns {
        mrgArity := nRuns;
      }
      if nRuns <= 1 {
        return Some(LessThanTwoRuns);
      }
      ChecksPass(res, nInputItems);
      RunsInBytes(res, nInputItems);
      ArityInBytes(res, nInputItems, mrgArity);
      ArityInBytes(res, nInputItems, mrgArity + 1);
      assert nRuns * nItemsPerRun - nInputItems < nItemsPerRun;
      assert nInputItems - (nRuns - 1) * nItemsPerRun <= nItemsPerRun;
      error := None;
    }

    // The numbers the partition phase works with, and the phase's position.
    ghost predicate Partitioning(items: seq<Item>)
      reads this
    {
      && nItemsPerRun >= 1 && 1 <= mrgArity <= nRuns == Ceil(|items|, nItemsPerRun)
      && minRunsPerStream == nRuns / mrgArity && nXtraRuns == nRuns % mrgArity
      && nItemsInLastRun == (if |items| % nItemsPerRun == 0 then nItemsPerRun else |items| % nItemsPerRun)
    }

    /** Forms the next run: reads it, sorts it, and appends it to the file being filled. */
    method FormRun(inStream: FileStream, out: FileStream, ghost runs: RunList)
      returns (ghost run: seq<Item>)
      requires Partitioning(inStream.s.items) && inStream != out && out.s.pos == |out.s.items|
      requires Formed(inStream.s.items, nItemsPerRun, runs) && |runs| < nRuns
      requires inStream.s.pos == Consumed(|inStream.s.items|, nItemsPerRun, |runs|)
      requires nItemsInThisRun == if |runs| + 1 == nRuns then nItemsInLastRun else nItemsPerRun
      requires internalSorter.itemArray.Length == nItemsPerRun && internalSorter.minSize >= 1
      modifies inStream, out, internalSorter.itemArray
      ensures Formed(inStream.s.items, nItemsPerRun, runs + [run])
      ensures inStream.s == Stream(old(inStream.s.items), Consumed(|inStream.s.items|, nItemsPerRun, |runs| + 1))
      ensures out.s == Stream(old(out.s.items) + run, |old(out.s.items) + run|)
    {
      NextRun(|inStream.s.items|, nItemsPerRun, |runs|);
      var error;
      error, run := internalSorter.Sort(inStream, out, nItemsInThisRun);
      FormedStep(inStream.s.items, nItemsPerRun, runs, run);
    }

    /** Fills file ii with its runs, cut from the input and sorted. */
    method PartitionStream(inStream: FileStream, ii: nat, ghost runs: RunList)
      returns (content: seq<Item>, ghost runs': RunList)
      requires Partitioning(inStream.s.items) && ii < mrgArity
      requires Formed(inStream.s.items, nItemsPerRun, runs) && |runs| == RunsBefore(mrgArity, nRuns, ii)
      requires inStream.s.pos == Consumed(|inStream.s.items|, nItemsPerRun, |runs|)
      requires nItemsInThisRun == nItemsPerRun
      requires internalSorter.itemArray.Length == nItemsPerRun && internalSorter.minSize >= 1
      modifies this`runsInStream, this`nItemsInThisRun, inStream, internalSorter.itemArray
      ensures inStream.s.items == old(inStream.s.items)
      ensures Formed(inStream.s.items, nItemsPerRun, runs') && |runs'| == RunsBefore(mrgArity, nRuns, ii + 1)
      ensures runs <= runs' && content == Flatten(runs'[|runs|..])
      ensures inStream.s.pos == Consumed(|inStream.s.items|, nItemsPerRun, |runs'|)
      ensures ii + 1 < mrgArity ==> nItemsInThisRun == nItemsPerRun
    {
      hide Formed;
      ghost var items := inStream.s.items;
      var curOutputRunStream := new FileStream([]);
      runsInStream := minRunsPerStream + if ii + nXtraRuns >= mrgArity then 1 else 0;
      PlacedWithin(mrgArity, nRuns, ii);
      runs' := runs;
      for jj := 0 to runsInStream
        invariant runsInStream == RunsIn(mrgArity, nRuns, ii)
        invariant runs <= runs' && |runs'| == |runs| + jj
        invariant Formed(items, nItemsPerRun, runs')
        invariant inStream.s == Stream(items, Consumed(|items|, nItemsPerRun, |runs'|))
        invariant curOutputRunStream.s == Stream(Flatten(runs'[|runs|..]), |Flatten(runs'[|runs|..])|)
        invariant nItemsInThisRun == nItemsPerRun || (ii == mrgArity - 1 && jj == runsInStream)
      {
        LastRunIsLast(mrgArity, nRuns, ii, jj);
        if ii == mrgArity - 1 && jj == runsInStream - 1 {
          nItemsInThisRun := nItemsInLastRun;
        }
        ghost var run := FormRun(inStream, curOutputRunStream, runs');
        AppendRun(runs', |runs|, run);
        runs' := runs' + [run];
      }
      content := curOutputRunStream.s.items;
    }

    /** For each file: fills it with its share of the runs. */
    method FillStreams(inStream: FileStream, temporaries: seq<seq<Item>>)
      returns (temporaries': seq<seq<Item>>, ghost runs: RunList)
      requires |inStream.s.items| >= 1 && inStream.s.pos == 0 && Partitioning(inStream.s.items)
      requires |temporaries| == 2 * mrgArity && nItemsInThisRun == nItemsPerRun && nInputItems == |inStream.s.items|
      requires internalSorter.itemArray.Length == nItemsPerRun && internalSorter.minSize >= 1
      modifies this`runsInStream, this`nItemsInThisRun, inStream, internalSorter.itemArray
      ensures |temporaries'| == 2 * mrgArity && temporaries'[mrgArity..] == temporaries[mrgArity..]
      ensures |runs| == nRuns && Level(temporaries', 0, runs, mrgArity, nItemsPerRun)
      ensures AllItems(runs) == multiset(old(inStream.s.items))
      ensures inStream.s == Stream(old(inStream.s.items), |old(inStream.s.items)|)
    {
      hide Formed, Level, PackedUpTo;
      ghost var items := inStream.s.items;
      temporaries', runs := temporaries, [];
      var checkSize := 0;
      FormedStart(items, nItemsPerRun);
      NothingPacked(temporaries', 0, [], mrgArity, nRuns);
      for ii := 0 to mrgArity
        invariant Formed(items, nItemsPerRun, runs) && |runs| == RunsBefore(mrgArity, nRuns, ii)
        invariant inStream.s.items == items && inStream.s.pos == Consumed(|items|, nItemsPerRun, |runs|)
        invariant ii < mrgArity ==> nItemsInThisRun == nItemsPerRun
        invariant |temporaries'| == 2 * mrgArity && temporaries'[mrgArity..] == temporaries[mrgArity..]
        invariant PackedUpTo(temporaries', 0, runs, mrgArity, nRuns, ii)
        invariant checkSize == |Flatten(runs)|
      {
        ghost var runs0 := runs;
        var content;
        content, runs := PartitionStream(inStream, ii, runs);
        PackedExtend(temporaries', 0, runs0, runs, mrgArity, nRuns, ii);
        temporaries' := temporaries'[ii := content];
        FlattenMore(runs0, runs);
        checkSize := checkSize + |content|;
      }
      AllRunsPlaced(mrgArity, nRuns);
      FormedEnd(items, nItemsPerRun, runs);
      AllCounted(runs, items);
      assert checkSize == nInputItems;
      LevelIs(temporaries', 0, runs, mrgArity, nItemsPerRun);
    }

    /** Cuts the input into sorted runs and packs them into the first mrgArity temporary files. */
    method PartitionAndSortRuns(inStream: FileStream, temporaries: seq<seq<Item>>)
      returns (temporaries': seq<seq<Item>>, ghost runs: RunList)
      requires |inStream.s.items| >= 1 && nInputItems == |inStream.s.items|
      requires nItemsPerRun >= 1 && 1 <= mrgArity <= nRuns == Ceil(nInputItems, nItemsPerRun)
      requires |temporaries| == 2 * mrgArity && internalSorter.minSize >= 1
      modifies this`minRunsPerStream, this`nXtraRuns, this`nItemsInLastRun, this`nItemsInThisRun, this`runsInStream
      modifies inStream, internalSorter
      ensures minRunsPerStream == nRuns / mrgArity && nXtraRuns == nRuns % mrgArity
      ensures |temporaries'| == 2 * mrgArity && temporaries'[mrgArity..] == temporaries[mrgArity..]
      ensures |runs| == nRuns && Level(temporaries', 0, runs, mrgArity, nItemsPerRun)
      ensures AllItems(runs) == multiset(old(inStream.s.items))
      ensures fresh(internalSorter.itemArray)
      ensures inStream.s == if use2xSpace then Stream([], 0) else Stream(old(inStream.s.items), nInputItems)
    {
      hide Level, Ceil;
      Remainder(nRuns, mrgArity);
      minRunsPerStream := nRuns / mrgArity;
      nXtraRuns := nRuns - minRunsPerStream * mrgArity;
      assert nXtraRuns < mrgArity;
      nItemsInLastRun := nInputItems % nItemsPerRun;
      if nItemsInLastRun == 0 {
        nItemsInLastRun := nItemsPerRun;
      }
      internalSorter.Allocate(nItemsPerRun);
      nItemsInThisRun := nItemsPerRun;
      inStream.Seek(0);
      temporaries', runs := FillStreams(inStream, temporaries);
      internalSorter.Deallocate();
      if use2xSpace {
        inStream.Truncate(0);
        inStream.Seek(0);
      }
    }

    ghost predicate HeapReady()
      reads mergeHeap, mergeHeap.pq, mergeHeap.pq.pq
    {
      mergeHeap.Valid() && mergeHeap.Contents() == multiset{} && mergeHeap.SizeOfHeap() == 0
    }

    /** Merges the runs at the positions of streams[start..end), each cut off after `cutoff` items. */
    method SingleMerge(streams: seq<Stream>, start: nat, end: nat, out: FileStream, cutoff: int)
      returns (streams': seq<Stream>, ghost part: seq<Stream>, ghost merged: seq<Item>)
      requires start <= end <= |streams| && ValidStreams(streams[start..end]) && out.s.Valid()
      requires HeapReady() && end - start <= mergeHeap.Capacity()
      modifies out, mergeHeap.pq`sz, mergeHeap.pq`contents, mergeHeap.pq.pq
      ensures HeapReady()
      ensures out.s == old(out.s).Write(merged)
      ensures multiset(merged) == AllItems(TakenRuns(streams[start..end], cutoff))
      ensures KWayMerge.AllSorted(TakenRuns(streams[start..end], cutoff)) ==> Sorted(merged)
      ensures streams' == streams[..start] + part + streams[end..]
      ensures |part| == end - start && forall k :: 0 <= k < |part| ==> part[k] == Rest(streams[start..end][k], cutoff)
    {
      var rest;
      rest, merged := MergeSortedRuns(streams[start..end], out, mergeHeap, cutoff);
      part := rest;
      streams' := streams[..start] + rest + streams[end..];
    }

    // The numbers of a merge level that merges `runs`.
    ghost predicate Merging(runs: RunList)
      reads this`mrgArity, this`nRuns, this`minRunsPerStream, this`nXtraRuns
    {
      && |runs| >= 1 && 1 <= mrgArity && nRuns == Ceil(|runs|, mrgArity)
      && minRunsPerStream == nRuns / mrgArity && nXtraRuns == nRuns % mrgArity
    }

    /** Merges one run of the next level from the runs the last nRunsToMerge streams stand at. */
    method MergeRun(streams: seq<Stream>, nRunsToMerge: nat, out: FileStream, ghost runs: RunList,
        ghost merged: RunList)
      returns (streams': seq<Stream>, ghost run: seq<Item>)
      requires Merging(runs) && |merged| < nRuns
      requires LevelProgress(runs, mrgArity, nItemsPerRun, |merged|, streams, merged)
      requires nRunsToMerge == RunsMerged(mrgArity, |runs|, |merged|)
      requires out.s.pos == |out.s.items| && HeapReady() && mrgArity <= mergeHeap.Capacity()
      modifies out, mergeHeap.pq`sz, mergeHeap.pq`contents, mergeHeap.pq.pq
      ensures HeapReady()
      ensures LevelProgress(runs, mrgArity, nItemsPerRun, |merged| + 1, streams', merged + [run])
      ensures out.s == Stream(old(out.s.items) + run, |old(out.s.items) + run|)
    {
      hide LevelProgress, AllItems, RoundRuns, TakenRuns, KWayMerge.AllSorted, RunsMerged;
      ReadyForRound(runs, mrgArity, nItemsPerRun, |merged|, streams, merged);
      ghost var part;
      streams', part, run := SingleMerge(streams, mrgArity - nRunsToMerge, mrgArity, out, nItemsPerRun);
      assert streams' == streams[..mrgArity - |part|] + part;
      LevelRound(runs, mrgArity, nItemsPerRun, |merged|, streams, merged, part, run);
    }

    /** Fills output file ii with its share of the merged runs. */
    method MergeStream(streams: seq<Stream>, ii: nat, nRunsToMerge: nat, mergeRunsInLastOutputRun: nat,
                       ghost runs: RunList, ghost merged: RunList)
      returns (streams': seq<Stream>, content: seq<Item>, nRunsToMerge': nat, ghost merged': RunList)
      requires Merging(runs) && nRuns >= 1 && ii < mrgArity && |merged| == RunsBefore(mrgArity, nRuns, ii)
      requires LevelProgress(runs, mrgArity, nItemsPerRun, |merged|, streams, merged)
      requires nRunsToMerge == mrgArity
      requires mergeRunsInLastOutputRun == LastRunsMerged(mrgArity, |runs|)
      requires HeapReady() && mrgArity <= mergeHeap.Capacity()
      modifies this`runsInStream, mergeHeap.pq`sz, mergeHeap.pq`contents, mergeHeap.pq.pq
      ensures HeapReady()
      ensures merged <= merged' && |merged'| == RunsBefore(mrgArity, nRuns, ii + 1)
      ensures LevelProgress(runs, mrgArity, nItemsPerRun, |merged'|, streams', merged')
      ensures content == Flatten(merged'[|merged|..])
      ensures ii + 1 < mrgArity ==> nRunsToMerge' == mrgArity
    {
      hide LevelProgress;
      var curOutputRunStream := new FileStream([]);
      runsInStream := minRunsPerStream + if ii + nXtraRuns >= mrgArity then 1 else 0;
      PlacedWithin(mrgArity, nRuns, ii);
      streams', nRunsToMerge', merged' := streams, nRunsToMerge, merged;
      for jj := 0 to runsInStream
        invariant HeapReady() && runsInStream == RunsIn(mrgArity, nRuns, ii)
        invariant merged <= merged' && |merged'| == |merged| + jj
        invariant LevelProgress(runs, mrgArity, nItemsPerRun, |merged'|, streams', merged')
        invariant curOutputRunStream.s == Stream(Flatten(merged'[|merged|..]), |Flatten(merged'[|merged|..])|)
        invariant nRunsToMerge' == mrgArity || (ii == mrgArity - 1 && jj == runsInStream)
      {
        LastRunIsLast(mrgArity, nRuns, ii, jj);
        if ii == mrgArity - 1 && jj == runsInStream - 1 {
          nRunsToMerge' := mergeRunsInLastOutputRun;
        }
        ghost var run;
        streams', run := MergeRun(streams', nRunsToMerge', curOutputRunStream, runs, merged');
        AppendRun(merged', |merged|, run);
        merged' := merged' + [run];
      }
      content := curOutputRunStream.s.items;
    }

    /** Opens the files of the current level for reading. */
    method OpenStreams(temporaries: seq<seq<Item>>, off: nat) returns (streams: seq<Stream>)
      requires off + mrgArity <= |temporaries|
      ensures |streams| == mrgArity && forall f :: 0 <= f < mrgArity ==> streams[f] == Stream(temporaries[off + f], 0)
    {
      streams := seq(mrgArity, _ => Stream([], 0));
      for ii := 0 to mrgArity
        invariant |streams| == mrgArity && forall f :: 0 <= f < ii ==> streams[f] == Stream(temporaries[off + f], 0)
      {
        streams := streams[ii := Stream(temporaries[off + ii], 0)];
      }
    }

    /** Deletes the files of the level that has been merged. */
    method FreeFiles(temporaries: seq<seq<Item>>, off: nat) returns (temporaries': seq<seq<Item>>)
      requires off + mrgArity <= |temporaries|
      ensures |temporaries'| == |temporaries|
      ensures forall i :: 0 <= i < |temporaries| ==>
        temporaries'[i] == if off <= i < off + mrgArity then [] else temporaries[i]
    {
      temporaries' := temporaries;
      for ii := 0 to mrgArity
        invariant |temporaries'| == |temporaries|
        invariant forall i :: 0 <= i < |temporaries| ==>
          temporaries'[i] == if off <= i < off + ii then [] else temporaries[i]
      {
        temporaries' := temporaries'[off + ii := []];
      }
    }

    // One half of the files holds the level `runs`, and the other half is empty.
    ghost predicate AtLevel(temporaries: seq<seq<Item>>, mrgHeight: nat, runs: RunList)
      reads this`mrgArity, this`nRuns, this`nXtraRuns, this`nItemsPerRun
    {
      && mrgArity >= 1 && |temporaries| == 2 * mrgArity
      && EmptyHalf(temporaries, mrgArity, mrgHeight + 1)
      && |runs| == nRuns && nXtraRuns == nRuns % mrgArity
      && Level(temporaries, Offset(mrgArity, mrgHeight), runs, mrgArity, nItemsPerRun)
    }

    /** The numbers of the next level: its runs, and how they are spread over the files. */
    method LevelNumbers(ghost runs: RunList) returns (mergeRunsInLastOutputRun: nat, nOutputStreams: nat)
      requires |runs| == nRuns >= 1 && mrgArity >= 1 && nXtraRuns == nRuns % mrgArity
      modifies this`nRuns, this`minRunsPerStream, this`nXtraRuns
      ensures Merging(runs) && nRuns >= 1
      ensures mergeRunsInLastOutputRun == LastRunsMerged(mrgArity, |runs|)
      ensures nOutputStreams == OutputStreams(mrgArity, nRuns)
    {
      CeilBounds(nRuns, mrgArity);
      nRuns := (nRuns + mrgArity - 1) / mrgArity;
      minRunsPerStream := nRuns / mrgArity;
      mergeRunsInLastOutputRun := if nXtraRuns > 0 then nXtraRuns else mrgArity;
      Remainder(nRuns, mrgArity);
      nXtraRuns := nRuns - minRunsPerStream * mrgArity;
      assert nXtraRuns < mrgArity;
      nOutputStreams := if minRunsPerStream > 0 then mrgArity else nXtraRuns;
    }

    /** Fills the output files of a level, from the first one that gets a run. */
    method MergeStreams(temporaries: seq<seq<Item>>, off: nat, streams: seq<Stream>, nOutputStreams: nat,
                        mergeRunsInLastOutputRun: nat, ghost runs: RunList)
      returns (temporaries': seq<seq<Item>>, checkSize: nat, ghost streams': seq<Stream>, ghost merged: RunList)
      requires Merging(runs) && nRuns >= 1 && mrgArity >= 1 && off + mrgArity <= |temporaries|
      requires forall i :: off <= i < off + mrgArity ==> temporaries[i] == []
      requires LevelProgress(runs, mrgArity, nItemsPerRun, 0, streams, [])
      requires nOutputStreams == OutputStreams(mrgArity, nRuns)
      requires mergeRunsInLastOutputRun == LastRunsMerged(mrgArity, |runs|)
      requires HeapReady() && mrgArity <= mergeHeap.Capacity()
      modifies this`runsInStream, mergeHeap.pq`sz, mergeHeap.pq`contents, mergeHeap.pq.pq
      ensures HeapReady() && |temporaries'| == |temporaries|
      ensures PackedUpTo(temporaries', off, merged, mrgArity, nRuns, mrgArity)
      ensures |merged| == nRuns && LevelProgress(runs, mrgArity, nItemsPerRun, nRuns, streams', merged)
      ensures checkSize == |AllItems(merged)|
    {
      hide LevelProgress, PackedUpTo, OutputStreams, LastRunsMerged, Merging;
      var nRunsToMerge := mrgArity;
      OutputStreamsSuffice(mrgArity, nRuns);
      temporaries', merged, checkSize := temporaries, [], 0;
      var current := streams;
      PackedEmpty(temporaries, off, mrgArity, nRuns, mrgArity - nOutputStreams);
      for ii := mrgArity - nOutputStreams to mrgArity
        invariant HeapReady() && |temporaries'| == |temporaries|
        invariant |merged| == RunsBefore(mrgArity, nRuns, ii)
        invariant LevelProgress(runs, mrgArity, nItemsPerRun, |merged|, current, merged)
        invariant ii < mrgArity ==> nRunsToMerge == mrgArity
        invariant PackedUpTo(temporaries', off, merged, mrgArity, nRuns, ii)
        invariant checkSize == |Flatten(merged)|
      {
        ghost var merged0 := merged;
        var content;
        current, content, nRunsToMerge, merged :=
          MergeStream(current, ii, nRunsToMerge, mergeRunsInLastOutputRun, runs, merged);
        PackedExtend(temporaries', off, merged0, merged, mrgArity, nRuns, ii);
        temporaries' := temporaries'[off + ii := content];
        FlattenMore(merged0, merged);
        checkSize := checkSize + |content|;
      }
      AllRunsPlaced(mrgArity, nRuns);
      FlattenedItems(merged);
      streams' := current;
    }

    /** One intermediate level: merges mrgArity runs at a time into the runs of the next level. */
    method MergeLevel(temporaries: seq<seq<Item>>, mrgHeight: nat, ghost runs: RunList)
      returns (temporaries': seq<seq<Item>>, ghost streams: seq<Stream>, ghost merged: RunList)
      requires AtLevel(temporaries, mrgHeight, runs) && nRuns > mrgArity && |AllItems(runs)| == nInputItems
      requires HeapReady() && mrgArity <= mergeHeap.Capacity()
      modifies this`nRuns, this`minRunsPerStream, this`nXtraRuns, this`nItemsPerRun, this`runsInStream
      modifies mergeHeap.pq`sz, mergeHeap.pq`contents, mergeHeap.pq.pq
      ensures HeapReady()
      ensures AtLevel(temporaries', mrgHeight + 1, merged) && AllItems(merged) == AllItems(runs)
      ensures nRuns == Ceil(old(nRuns), mrgArity) && nItemsPerRun == mrgArity * old(nItemsPerRun)
      ensures |streams| == mrgArity && forall f :: 0 <= f < mrgArity ==> !streams[f].CanRead()
    {
      hide LevelProgress, PackedUpTo, OutputStreams, LastRunsMerged, GoodRuns, Ceil, AllItems, HeapReady, FilePacked;
      var mergeRunsInLastOutputRun, nOutputStreams := LevelNumbers(runs);
      var off, off' := Offset(mrgArity, mrgHeight), Offset(mrgArity, mrgHeight + 1);
      var inputs := OpenStreams(temporaries, off);
      LevelStart(temporaries, off, runs, mrgArity, nItemsPerRun, inputs);
      var written, checkSize;
      written, checkSize, streams, merged :=
        MergeStreams(temporaries, off', inputs, nOutputStreams, mergeRunsInLastOutputRun, runs);
      LevelEnd(runs, mrgArity, nItemsPerRun, streams, merged);
      assert checkSize == nInputItems;
      temporaries' := FreeFiles(written, off);
      PackedSame(written, temporaries', off', merged, mrgArity, nRuns, mrgArity);
      nItemsPerRun := mrgArity * nItemsPerRun;
      MulMonotone(1, mrgArity, old(nItemsPerRun));
      LevelIs(temporaries', off', merged, mrgArity, nItemsPerRun);
    }

    /** The last merge: all remaining runs, one from each of the last nRuns files, to the output. */
    method FinalMerge(temporaries: seq<seq<Item>>, mrgHeight: nat, out: FileStream, ghost runs: RunList)
      returns (ghost sorted: seq<Item>)
      requires AtLevel(temporaries, mrgHeight, runs) && nRuns <= mrgArity
      requires HeapReady() && mrgArity <= mergeHeap.Capacity() && out.s.Valid()
      modifies out, mergeHeap.pq`sz, mergeHeap.pq`contents, mergeHeap.pq.pq
      ensures out.s == old(out.s).Write(sorted) && SortedPermutation(sorted, AllItems(runs))
    {
      hide PackedUpTo, GoodRuns, AllItems, SortedPermutation, Sorted;
      var off := Offset(mrgArity, mrgHeight);
      var streams := seq(mrgArity, _ => Stream([], 0));
      for ii := mrgArity - nRuns to mrgArity
        invariant |streams| == mrgArity
        invariant forall k :: 0 <= k < ii - (mrgArity - nRuns) ==>
          streams[k] == Stream(temporaries[off + mrgArity - nRuns + k], 0)
      {
        streams := streams[ii - (mrgArity - nRuns) := Stream(temporaries[off + ii], 0)];
      }
      FinalIsAligned(temporaries, off, runs, mrgArity, nItemsPerRun, streams[0..nRuns]);
      ghost var part;
      streams, part, sorted := SingleMerge(streams, 0, nRuns, out, -1);
      SortedPermutationIs(sorted, AllItems(runs));
    }

    /** Merges level by level until no more runs are left than can be merged at once. */
    method MergeWhileTooMany(temporaries: seq<seq<Item>>, ghost runs: RunList)
      returns (files: seq<seq<Item>>, mrgHeight: nat, ghost current: RunList)
      requires AtLevel(temporaries, 0, runs) && 2 <= mrgArity <= nRuns && |AllItems(runs)| == nInputItems
      requires HeapReady() && mrgArity <= mergeHeap.Capacity()
      modifies this`nRuns, this`minRunsPerStream, this`nXtraRuns, this`nItemsPerRun, this`runsInStream
      modifies mergeHeap.pq`sz, mergeHeap.pq`contents, mergeHeap.pq.pq
      ensures HeapReady()
      ensures AtLevel(files, mrgHeight, current) && AllItems(current) == AllItems(runs)
      ensures Pow(mrgArity, mrgHeight) >= 1 && nRuns == Ceil(old(nRuns), Pow(mrgArity, mrgHeight))
      ensures nItemsPerRun == old(nItemsPerRun) * Pow(mrgArity, mrgHeight)
      ensures 2 <= nRuns <= mrgArity
    {
      hide AtLevel, Pow, Ceil;
      mrgHeight, files, current := 0, temporaries, runs;
      NoLevels(nRuns, nItemsPerRun, mrgArity);
      while nRuns > mrgArity
        invariant HeapReady()
        invariant AtLevel(files, mrgHeight, current) && AllItems(current) == AllItems(runs)
        invariant Pow(mrgArity, mrgHeight) >= 1 && nRuns == Ceil(old(nRuns), Pow(mrgArity, mrgHeight))
        invariant nItemsPerRun == old(nItemsPerRun) * Pow(mrgArity, mrgHeight)
        invariant nRuns >= 2
        decreases nRuns
      {
        CeilShrinks(nRuns, mrgArity);
        LevelArithmetic(old(nRuns), old(nItemsPerRun), mrgArity, mrgHeight);
        ghost var streams;
        files, streams, current := MergeLevel(files, mrgHeight, current);
        mrgHeight := mrgHeight + 1;
      }
    }

    /** Merges the runs level by level, and the last runs to the output, which is then counted. */
    method MergeToOutput(temporaries: seq<seq<Item>>, out: FileStream, ghost runs: RunList)
      returns (error: Option<SortError>, ghost sorted: seq<Item>, ghost height: nat)
      requires AtLevel(temporaries, 0, runs) && 2 <= mrgArity <= nRuns && out.s.Valid()
      requires |AllItems(runs)| == nInputItems >= 1
      modifies this`nRuns, this`minRunsPerStream, this`nXtraRuns, this`nItemsPerRun, this`runsInStream
      modifies out, mergeHeap.pq
      ensures error == if HoldsOnly(old(out.s), nInputItems) then None else Some(ItemCountMismatch)
      ensures out.s == old(out.s).Write(sorted) && SortedPermutation(sorted, AllItems(runs))
      ensures Pow(mrgArity, height) >= 1 && nRuns == Ceil(old(nRuns), Pow(mrgArity, height))
      ensures nItemsPerRun == old(nItemsPerRun) * Pow(mrgArity, height)
      ensures 2 <= nRuns <= mrgArity
    {
      hide AtLevel, SortedPermutation, Pow, Ceil;
      mergeHeap.Allocate(mrgArity);
      var files, mrgHeight;
      ghost var current;
      files, mrgHeight, current := MergeWhileTooMany(temporaries, runs);
      sorted := FinalMerge(files, mrgHeight, out, current);
      height := mrgHeight;
      SameCount(sorted, AllItems(runs));
      CountAfterWriting(old(out.s), sorted);
      if |out.s.items| != nInputItems {
        return Some(ItemCountMismatch), sorted, height;
      }
      mergeHeap.Allocate(0);
      error := None;
    }

    /** The input does not fit in memory: forms runs, and merges them. */
    method ExternalSort(inStream: FileStream, out: FileStream)
      returns (error: Option<SortError>, ghost sorted: seq<Item>)
      requires use2xSpace == (inStream == out) && internalSorter.minSize >= 1
      requires nInputItems == |inStream.s.items| >= 1 && out.s.Valid()
      requires nItemsPerRun >= 1 && 2 <= mrgArity <= nRuns == Ceil(nInputItems, nItemsPerRun)
      modifies this, inStream, out, internalSorter, mergeHeap.pq
      ensures error == if inStream == out || HoldsOnly(old(out.s), |old(inStream.s.items)|) then None
                       else Some(ItemCountMismatch)
      ensures SortedPermutation(sorted, multiset(old(inStream.s.items)))
      ensures inStream == out ==> out.s == Stream(sorted, |sorted|)
      ensures inStream != out ==>
        && inStream.s == Stream(old(inStream.s.items), |old(inStream.s.items)|)
        && out.s == old(out.s).Write(sorted)
    {
      hide Level, Ceil, SortedPermutation;
      var temporaries := seq(2 * mrgArity, _ => []);
      ghost var runs;
      temporaries, runs := PartitionAndSortRuns(inStream, temporaries);
      assert AtLevel(temporaries, 0, runs) by {
        forall i | mrgArity <= i < 2 * mrgArity ensures temporaries[i] == [] {
          assert temporaries[i] == temporaries[mrgArity..][i - mrgArity];
        }
      }
      ghost var height;
      error, sorted, height := MergeToOutput(temporaries, out, runs);
    }

    method SortInMemory(inStream: FileStream, out: FileStream) returns (ghost sorted: seq<Item>)
      requires internalSorter.minSize >= 1 && inStream.s.pos == 0 && out.s.Valid()
      requires nInputItems == |inStream.s.items| >= 1
      modifies inStream, out, internalSorter
      ensures SortedPermutation(sorted, multiset(old(inStream.s.items)))
      ensures inStream == out ==> out.s == Stream(sorted, |sorted|)
      ensures inStream != out ==>
        inStream.s == Stream(old(inStream.s.items), nInputItems) && out.s == old(out.s).Write(sorted)
    {
      hide SortedPermutation, Overwrite;
      ghost var items := inStream.s.items;
      assert items[0..][..|items|] == items;
      internalSorter.Allocate(nInputItems);
      var failure;
      failure, sorted := internalSorter.Sort(inStream, out, nInputItems);
      internalSorter.Deallocate();
    }

    /** Sorts in memory if the input fits, and externally otherwise. */
    method StartSort(inStream: FileStream, out: FileStream, res: Resources)
      returns (error: Option<SortError>, ghost sorted: seq<Item>)
      requires use2xSpace == (inStream == out) && internalSorter.minSize >= 1
      requires |inStream.s.items| >= 1 && Measured(res, |inStream.s.items|) && out.s.Valid()
      modifies this, inStream, out, internalSorter, mergeHeap.pq
      ensures error == WhatIsRaised(res, |old(inStream.s.items)|, inStream == out, old(out.s))
      ensures !Written(error) ==> inStream.s == old(inStream.s).(pos := 0) && (inStream != out ==> out.s == old(out.s))
      ensures Written(error) ==> SortedPermutation(sorted, multiset(old(inStream.s.items)))
      ensures Written(error) && inStream == out ==> out.s == Stream(sorted, |sorted|)
      ensures Written(error) && inStream != out ==>
        && inStream.s == Stream(old(inStream.s.items), |old(inStream.s.items)|)
        && out.s == old(out.s).Write(sorted)
    {
      hide CheckResources, SortedPermutation, Overwrite, Quotient, Ceil, HoldsOnly, MaxItemCount, Signed;
      mmBytesPerStream := res.perStream;
      mmBytesAvail := Minus(res.available, 2 * mmBytesPerStream);
      nInputItems := |inStream.s.items|;
      inStream.Seek(0);
      if nInputItems < Signed(MaxItemCount(mmBytesAvail, res.itemSize)) {
        sorted := SortInMemory(inStream, out);
        return None, sorted;
      }
      error := ComputeSortParams(res);
      sorted := [];
      if error.None? {
        error, sorted := ExternalSort(inStream, out);
      }
    }

    /** At most one item: nothing to sort, and at most one item to copy. */
    method SortTiny(input: FileStream, output: FileStream)
      requires |input.s.items| < 2 && output.s.Valid()
      modifies input, output
      ensures input.s == Stream(old(input.s.items), if input == output then 0 else |old(input.s.items)|)
      ensures input != output ==> output.s == old(output.s).(pos := 0).Write(old(input.s.items))
    {
      input.Seek(0);
      if input != output {
        output.Seek(0);
        WriteNothing(output.s);
        if |input.s.items| == 1 {
          var x := input.Read();
          output.Write(x);
        }
      }
    }

    /** Sorts `input` to `output`, which may be the same stream. */
    method Sort(input: FileStream?, output: FileStream?, res: Resources)
      returns (error: Option<SortError>, ghost sorted: seq<Item>)
      requires internalSorter.minSize >= 1 && (output != null ==> output.s.Valid())
      requires input != null ==> Measured(res, |input.s.items|)
      modifies this, internalSorter, mergeHeap.pq
      modifies if input != null then {input} else {}, if output != null then {output} else {}
      ensures input == null || output == null ==> error == Some(NullPointer)
      ensures input != null && output != null ==>
        error == if |old(input.s.items)| < 2 then None
                 else WhatIsRaised(res, |old(input.s.items)|, input == output, old(output.s))
      ensures Written(error) ==> SortedPermutation(sorted, multiset(old(input.s.items)))
      ensures Written(error) && input == output ==>
        output.s == Stream(sorted, if |sorted| < 2 then 0 else |sorted|)
      ensures Written(error) && input != output ==>
        && input.s == Stream(old(input.s.items), |old(input.s.items)|)
        && output.s == (if |sorted| < 2 then old(output.s).(pos := 0) else old(output.s)).Write(sorted)
    {
      use2xSpace := input == output;
      if input == null || output == null {
        return Some(NullPointer), [];
      }
      if |input.s.items| < 2 {
        sorted := input.s.items;
        SortTiny(input, output);
        return None, sorted;
      }
      ghost var items := input.s.items;
      error, sorted := StartSort(input, output, res);
      assert |multiset(sorted)| == |sorted| && |multiset(items)| == |items|;
    }
  }

  /** Writing the sorted items leaves just them exactly when the output starts at 0 and is no longer. */
  lemma OutputIsSorted(output: Stream, sorted: seq<Item>)
    requires output.Valid() && sorted != []
    ensures output.Write(sorted).items == sorted <==> HoldsOnly(output, |sorted|)
  {
    assert |output.Write(sorted).items| >= output.pos + |sorted|;
    if output.pos == 0 && |output.items| <= |sorted| {
      assert output.Write(sorted).items == [] + sorted + [];
    }
  }

  /** An external sort onto a longer output: five single bytes, and a memory of seven bytes for streams of one. */
  method CountMismatch() returns (error: Option<SortError>, size: nat)
    ensures error == Some(ItemCountMismatch) && size == 6
  {
    hide FitsInMemory, CheckResources, HoldsOnly, Measured, WhatIsRaised, SortedPermutation, Overwrite;
    var items := seq(5, _ => Item(0, 0));
    var input := new FileStream(items);
    var output := new FileStream(seq(6, _ => Item(0, 0)));
    ghost var before := output.s;
    MismatchOfBytes(before);
    var manager := new SortManager(1);
    ghost var sorted;
    error, sorted := manager.Sort(input, output, Resources(7, 1, 1, 0, 1, 3));
    SameCount(sorted, multiset(items));
    assert |multiset(items)| == |items|;
    WrittenSize(before, sorted);
    size := |output.s.items|;
  }

  lemma WrittenSize(output: Stream, sorted: seq<Item>)
    requires output.pos == 0
    ensures |output.Write(sorted).items| == if |sorted| < |output.items| then |output.items| else |sorted|
  {
  }

  lemma MismatchOfBytes(output: Stream)
    requires |output.items| == 6
    ensures var res := Resources(7, 1, 1, 0, 1, 3);
            Measured(res, 5) && WhatIsRaised(res, 5, false, output) == Some(ItemCountMismatch)
  {
  }

  /** A longer output keeps its old tail: two items are sorted onto a stream of three. */
  method OldTailRemains() returns (items: seq<Item>)
    ensures items == [Item(1, 0), Item(2, 0), Item(7, 0)]
  {
    var input := new FileStream([Item(2, 0), Item(1, 0)]);
    var output := new FileStream([Item(9, 0), Item(8, 0), Item(7, 0)]);
    var manager := new SortManager(1);
    var error;
    ghost var sorted;
    error, sorted := manager.Sort(input, output, Resources(1_000_000, 1000, 8, 0, 16, 3));
    OnlyOrder(sorted);
    items := output.s.items;
  }

  lemma OnlyOrder(sorted: seq<Item>)
    requires SortedPermutation(sorted, multiset([Item(2, 0), Item(1, 0)]))
    ensures sorted == [Item(1, 0), Item(2, 0)]
  {
    assert |multiset(sorted)| == |sorted| == 2;
    assert sorted[0] in multiset(sorted) && sorted[1] in multiset(sorted);
    assert multiset(sorted) == multiset{sorted[0], sorted[1]};
  }
}
