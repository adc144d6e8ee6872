/** serialization_sorter of tpie/serialization_sorter.h, in all its reporting modes. */
module SerializationSorters {
  import opened Options
  import opened Arithmetic
  import opened Order
  import opened KWayMerge
  import opened InternalPriorityQueue
  import opened FileHandlers
  import opened RunMergers
  import opened RunBuffers
  import opened PhaseParameters
  import opened Serialization
  import opened RunFiles

  // ---------- Runs on disk

  // No run file is empty, and all are sorted.
  ghost predicate GoodRuns(runs: Runs) {
    AllSorted(runs) && forall i :: 0 <= i < |runs| ==> runs[i] != []
  }

  lemma GoodAppend(runs: Runs, run: seq<Item>)
    requires GoodRuns(runs) && Sorted(run) && run != []
    ensures GoodRuns(runs + [run])
  {
  }

  // Merging the first runs into one at the end keeps all items.
  lemma MergedRuns(runs: Runs, fanout: nat, output: seq<Item>)
    requires GoodRuns(runs) && 1 <= fanout <= |runs|
    requires Sorted(output) && multiset(output) == AllItems(runs[..fanout])
    ensures GoodRuns(runs[fanout..] + [output])
    ensures AllItems(runs[fanout..] + [output]) == AllItems(runs)
  {
    hide GoodRuns;
    assert runs == runs[..fanout] + runs[fanout..];
    AllItemsConcat(runs[..fanout], runs[fanout..]);
    AllItemsAppend(runs[fanout..], output);
    SomeItem(runs[..fanout]) by {
      GoodPart(runs, 0, fanout);
    }
    assert output != [];
    GoodPart(runs, fanout, |runs|);
    assert runs[fanout..|runs|] == runs[fanout..];
    GoodAppend(runs[fanout..], output);
  }

  lemma SomeItem(runs: Runs)
    requires GoodRuns(runs) && runs != []
    ensures AllItems(runs) != multiset{}
  {
    assert runs[0][0] in multiset(runs[0]);
  }

  lemma GoodIsSorted(runs: Runs)
    requires GoodRuns(runs)
    ensures AllSorted(runs)
  {
  }

  lemma GoodPart(runs: Runs, i: nat, j: nat)
    requires GoodRuns(runs) && i <= j <= |runs|
    ensures GoodRuns(runs[i..j])
  {
  }

  // ---------- What a merge has yet to yield

  ghost function Unwritten(runs: Runs, written: seq<nat>): Runs
    requires Progress(runs, written)
  {
    seq(|runs|, i requires 0 <= i < |runs| => runs[i][written[i]..])
  }

  lemma NothingWrittenYet(runs: Runs, written: seq<nat>)
    requires |written| == |runs| && forall i :: 0 <= i < |runs| ==> written[i] == 0
    ensures Progress(runs, written) && Unwritten(runs, written) == runs
  {
  }

  lemma UnwrittenAdvance(runs: Runs, written: seq<nat>, i: nat)
    requires Progress(runs, written) && i < |runs| && written[i] < |runs[i]|
    ensures AllItems(Unwritten(runs, written)) == AllItems(Unwritten(runs, written[i := written[i] + 1]))
      + multiset{runs[i][written[i]]}
  {
    var rest, item := Unwritten(runs, written), runs[i][written[i]];
    var rest' := rest[i := runs[i][written[i] + 1..]];
    assert rest' == Unwritten(runs, written[i := written[i] + 1]);
    assert rest[i] == [item] + rest'[i];
    AllItemsUpdate(rest, i, rest'[i]);
    RemoveOne(AllItems(rest'), AllItems(rest), multiset(rest'[i]), multiset{item});
  }

  lemma RemoveOne(a: multiset<Item>, b: multiset<Item>, common: multiset<Item>, one: multiset<Item>)
    requires a + (one + common) == b + common
    ensures b == a + one
  {
    forall x ensures b[x] == (a + one)[x] {
      assert (a + (one + common))[x] == (b + common)[x];
    }
  }

  lemma {:induction false} InSomeRun(runs: Runs, x: Item) returns (i: nat)
    requires x in AllItems(runs)
    ensures i < |runs| && x in runs[i]
  {
    if x in runs[0] {
      i := 0;
    } else {
      assert x !in multiset(runs[0]);
      i := InSomeRun(runs[1..], x);
      i := i + 1;
    }
  }

  // The least leading item is a least one of all that remain.
  lemma LeastRemains(runs: Runs, written: seq<nat>, item: Item, x: Item)
    requires Progress(runs, written) && AllSorted(runs)
    requires forall j :: 0 <= j < |runs| && written[j] < |runs[j]| ==> item.key <= runs[j][written[j]].key
    requires x in AllItems(Unwritten(runs, written))
    ensures item.key <= x.key
  {
    var i := InSomeRun(Unwritten(runs, written), x);
    var k :| 0 <= k < |runs[i]| - written[i] && runs[i][written[i]..][k] == x;
    assert runs[i][written[i]].key <= runs[i][written[i] + k].key;
  }

  lemma HeadsProgress(heap: multiset<Entry>, runs: Runs, written: seq<nat>)
    requires Heads(heap, runs, written, |runs|)
    ensures Progress(runs, written)
  {
  }

  // Taking a least leading item leaves the other items, none of them smaller.
  lemma TakeLeast(runs: Runs, written: seq<nat>, item: Item, run: nat)
    requires Progress(runs, written) && GoodRuns(runs)
    requires run < |runs| && written[run] < |runs[run]| && item == runs[run][written[run]]
    requires forall j :: 0 <= j < |runs| && written[j] < |runs[j]| ==> item.key <= runs[j][written[j]].key
    ensures var written' := written[run := written[run] + 1];
            && Progress(runs, written')
            && AllItems(Unwritten(runs, written)) == AllItems(Unwritten(runs, written')) + multiset{item}
            && forall x :: x in AllItems(Unwritten(runs, written')) ==> item.key <= x.key
  {
    var written' := written[run := written[run] + 1];
    UnwrittenAdvance(runs, written, run);
    forall x | x in AllItems(Unwritten(runs, written')) ensures item.key <= x.key {
      assert x in AllItems(Unwritten(runs, written));
      LeastRemains(runs, written, item, x);
    }
  }

  lemma AllWritten(runs: Runs, written: seq<nat>)
    requires Progress(runs, written) && HoldsHeads(multiset{}, runs, written, |runs|)
    ensures AllItems(Unwritten(runs, written)) == multiset{}
  {
    forall i | 0 <= i < |runs| ensures Unwritten(runs, written)[i] == [] {
      var head := Entry(if written[i] < |runs[i]| then runs[i][written[i]] else Item(0, 0), i);
      assert !IsHead(runs, written, |runs|, head);
    }
    AllItemsEmpty(Unwritten(runs, written));
  }

  // The output so far is sorted, and whatever remains may follow it.
  ghost predicate Yielded(output: seq<Item>, remaining: multiset<Item>, all: multiset<Item>) {
    && all == multiset(output) + remaining && Sorted(output)
    && forall i, x :: 0 <= i < |output| && x in remaining ==> output[i].key <= x.key
  }

  lemma YieldedNothing(all: multiset<Item>)
    ensures Yielded([], all, all)
  {
  }

  lemma YieldedNext(output: seq<Item>, item: Item, before: multiset<Item>, after: multiset<Item>, all: multiset<Item>)
    requires Yielded(output, before, all) && before == after + multiset{item}
    requires forall x :: x in after ==> item.key <= x.key
    ensures Yielded(output + [item], after, all) && |after| < |before|
  {
    assert item in before;
  }

  lemma YieldedAll(output: seq<Item>, all: multiset<Item>)
    requires Yielded(output, multiset{}, all)
    ensures SortedPermutation(output, all)
  {
  }

  lemma FirstAndRest(all: seq<Item>, p: nat)
    requires p < |all|
    ensures multiset(all[p..]) == multiset(all[p + 1..]) + multiset{all[p]}
    ensures p + 1 == |all| ==> all[p + 1..] == []
  {
    assert all[p..] == [all[p]] + all[p + 1..];
  }

  lemma LeastFirst(all: seq<Item>, p: nat)
    requires Sorted(all) && p < |all|
    ensures forall x :: x in multiset(all[p + 1..]) ==> all[p].key <= x.key
  {
    forall x | x in multiset(all[p + 1..]) ensures all[p].key <= x.key {
      var i :| 0 <= i < |all| - (p + 1) && all[p + 1..][i] == x;
      assert all[p].key <= all[p + 1 + i].key;
    }
  }

  // ---------- How many runs merging leaves

  function RunsLeft(runs: nat, fanout: nat, finalFanout: nat): nat
    requires fanout >= 2 && finalFanout >= 2
    decreases runs
  {
    if runs <= finalFanout then runs
    else
      LevelShrinks(runs, fanout);
      RunsLeft(Ceil(runs, fanout), fanout, finalFanout)
  }

  /** What merging leaves are the runs after the least number of levels that makes them few enough. */
  lemma {:induction false} LevelsNeeded(runs: nat, fanout: nat, finalFanout: nat) returns (levels: nat)
    requires fanout >= 2 && finalFanout >= 2
    ensures Pow(fanout, levels) >= 1 && RunsLeft(runs, fanout, finalFanout) == Ceil(runs, Pow(fanout, levels))
    ensures Ceil(runs, Pow(fanout, levels)) <= finalFanout
    ensures levels > 0 ==> Pow(fanout, levels - 1) >= 1 && Ceil(runs, Pow(fanout, levels - 1)) > finalFanout
    decreases runs
  {
    hide Ceil;
    CeilOne(runs);
    if runs <= finalFanout {
      return 0;
    }
    LevelShrinks(runs, fanout);
    var after := LevelsNeeded(Ceil(runs, fanout), fanout, finalFanout);
    CeilOfPower(runs, fanout, after);
    if after > 0 {
      CeilOfPower(runs, fanout, after - 1);
    }
    return after + 1;
  }

  lemma CeilOne(x: nat)
    ensures Ceil(x, 1) == x
  {
  }

  lemma CeilOfPower(x: nat, a: nat, h: nat)
    requires a >= 1
    ensures Pow(a, h) >= 1 && Pow(a, h + 1) >= 1 && Ceil(Ceil(x, a), Pow(a, h)) == Ceil(x, Pow(a, h + 1))
  {
    PowPositive(a, h);
    PowPositive(a, h + 1);
    CeilCeil(x, a, Pow(a, h));
  }

  lemma LevelShrinks(runs: nat, fanout: nat)
    requires fanout >= 2 && runs >= 2
    ensures 1 <= Ceil(runs, fanout) < runs
  {
    CeilBounds(runs, fanout);
    MulMonotone(2, fanout, Ceil(runs, fanout) - 1);
  }

  // ---------- The sorter

  datatype State = Initial | State1 | State2 | State3

  class SerializationSorter {
    const sorter: RunBuffer
    const files: FileHandler
    const merger: Merger
    const params: Parameters
    var state: State
    var items: nat
    var reportInternal: bool
    var nextInternal: Option<nat>

    constructor (minSize: nat, params: Parameters, codec: Codec)
      requires minSize >= 1 && TakesBytes(codec.t)
      ensures fresh(sorter) && fresh(sorter.buffer) && fresh(files) && fresh(merger) && fresh(merger.pq)
        && fresh(merger.pq.pq)
      ensures Valid() && state == Initial && files.peak == 0 && this.params == params
      ensures files.codec == codec
    {
      sorter := new RunBuffer(minSize);
      var files := new FileHandler(codec);
      this.files := files;
      merger := new Merger(files);
      this.params := params;
      state, items, reportInternal, nextInternal := Initial, 0, false, None;
    }

    // The buffered items stand for values of the serialized type.
    ghost predicate Storable()
      requires sorter.Valid()
      reads sorter`buffer, sorter`items, sorter.buffer
    {
      KeepsAll(files.codec, multiset(sorter.Contents()))
    }

    // Complete run files, none of them open.
    ghost predicate Stored()
      reads files
    {
      files.Valid() && !files.writerOpen && files.readersOpen == 0 && GoodRuns(files.runs)
    }

    method WriteRun() returns (ghost run: seq<Item>)
      requires Stored() && sorter.Valid() && sorter.items > 0 && Storable()
      modifies files
      ensures files.Valid() && !files.writerOpen && files.readersOpen == 0
      ensures run == sorter.Contents() && files.runs == old(files.runs) + [run]
      ensures files.RemainingRuns() == old(files.RemainingRuns())
        && files.NextLevelRuns() == old(files.NextLevelRuns()) + 1
      ensures files.peak <= Max(old(files.peak), 1)
    {
      ghost var runs := files.runs;
      run := sorter.Contents();
      hide GoodRuns;
      var r := files.OpenNewWriter();
      assert r.Ok?;
      for i := 0 to sorter.items
        modifies files`disk, files`runs
        invariant files.Valid() && files.runs == runs + [run[..i]]
      {
        assert run[i] in multiset(run);
        r := files.Write(sorter.buffer[i]);
        assert r.Ok?;
        assert run[..i + 1] == run[..i] + [run[i]];
      }
      r := files.CloseWriter();
      assert r.Ok?;
      assert run[..sorter.items] == run;
    }

    /** Writes the buffer as a new run at the end of the next level. */
    method EndRun()
      requires Stored() && sorter.Valid() && Storable()
      modifies sorter`items, sorter`full, sorter.buffer, files
      ensures Stored() && sorter.Valid() && sorter.items == 0 && Storable()
      ensures AllItems(files.runs) == old(AllItems(files.runs) + multiset(sorter.Contents()))
      ensures sorter.full == (old(sorter.items) == 0 && old(sorter.full))
      ensures files.NextLevelRuns() == old(files.NextLevelRuns()) + if old(sorter.items) == 0 then 0 else 1
      ensures files.RemainingRuns() == old(files.RemainingRuns())
      ensures files.peak <= Max(old(files.peak), 1)
    {
      hide FileHandler.OnDisk, FileHandler.Reading, GoodRuns;
      sorter.Sort();
      if sorter.items == 0 {
        return;
      }
      ghost var runs := files.runs;
      ghost var run := WriteRun();
      AllItemsAppend(runs, run);
      GoodAppend(runs, run);
      sorter.Reset();
    }

    ghost predicate Apart() {
      merger.files == files && TakesBytes(files.codec.t)
    }

    method InitializeMerger(fanout: nat) returns (r: Outcome)
      requires Apart() && files.Valid()
      modifies files`nextLevelFileOffset, files`readers, files`readersOpen, files`peak, merger, merger.pq, merger.pq.pq
      ensures files.Valid()
      ensures r.Ok? <==> old(files.CanOpenReaders(fanout))
      ensures r.Ok? ==>
        && files.readersOpen == fanout && fanout <= |files.runs|
        && files.peak == Max(old(files.peak), fanout + if files.writerOpen then 1 else 0)
        && files.nextLevelFileOffset == (if old(files.RemainingRuns()) == 0 then files.nextFileOffset
          else old(files.nextLevelFileOffset))
        && merger.Merging() && fresh(merger.pq.pq) && merger.runs == files.runs[..fanout]
        && (forall i :: 0 <= i < fanout ==> merger.written[i] == 0)
    {
      if fanout == 0 {
        return Raised(NoFanout);
      }
      r := files.OpenReaders(fanout);
      if r.Raised? {
        return r;
      }
      merger.Init(fanout);
    }

    method WriteTop(ghost base: Runs, ghost output: seq<Item>) returns (ghost output': seq<Item>)
      requires Apart() && files.Valid() && files.writerOpen && files.runs == base + [output]
      requires merger.Merging() && !merger.Empty() && MergeState(merger.runs, merger.written, output)
      modifies files`disk, files`runs, files`readers, merger`written, merger.pq`sz, merger.pq`contents, merger.pq.pq
      ensures files.Valid() && files.runs == base + [output'] && |output| < |output'| <= |AllItems(merger.runs)|
      ensures merger.Merging() && MergeState(merger.runs, merger.written, output')
    {
      hide AllSorted, MergeState, FileHandler.Reading, FileHandler.OnDisk, PriorityQueue.Safe,
        Heads, Merger.Follows, ReadOf, AllItems;
      var v, run := merger.Top();
      var r := files.Write(v);
      assert r.Ok?;
      MergeStep(merger.runs, merger.written, output, run);
      output' := output + [v];
      MergedBounded(merger.runs, merger.written[run := merger.written[run] + 1], output');
      merger.Pop(v, run);
    }

    /** Writes everything the merger yields to the run that was just begun. */
    method WriteMerged(ghost base: Runs) returns (ghost output: seq<Item>)
      requires Apart() && files.Valid() && files.writerOpen && files.runs == base + [[]]
      requires merger.Merging() && AllSorted(merger.runs) && forall i :: 0 <= i < |merger.runs| ==>
        merger.written[i] == 0
      modifies files`disk, files`runs, files`readers, merger`written, merger.pq`sz, merger.pq`contents, merger.pq.pq
      ensures files.Valid() && files.runs == base + [output]
      ensures Sorted(output) && multiset(output) == AllItems(merger.runs)
    {
      output := [];
      ghost var runs := merger.runs;
      MergeStart(runs, merger.written);
      hide AllSorted, MergeState, FileHandler.Reading, FileHandler.OnDisk, PriorityQueue.Safe,
        Heads, Merger.Follows, ReadOf, AllItems;
      while !merger.Empty()
        invariant files.Valid() && files.runs == base + [output]
        invariant merger.Merging() && MergeState(runs, merger.written, output)
        decreases |AllItems(runs)| - |output|
      {
        output := WriteTop(base, output);
      }
      merger.EmptyMeansDone();
      MergeDone(runs, merger.written, output);
    }

    method FreeMergerAndFiles() returns (r: Outcome)
      requires files.Valid()
      modifies merger.pq, files`disk, files`fileOffset, files`readersOpen, files`runs
      ensures files.Valid() && files.readersOpen == 0 && merger.Idle() && fresh(merger.pq.pq)
      ensures r == if old(files.readersOpen) == 0 then Raised(NoReadersOpen) else Ok
      ensures r.Ok? ==>
        && files.runs == old(files.runs[files.readersOpen..])
        && files.fileOffset == old(files.fileOffset + files.readersOpen)
    {
      merger.Free();
      r := files.CloseReadersAndDelete();
    }

    // The runs of the level that is merged next, and those already merged from it.
    ghost function Unmerged(): int
      reads files
    {
      if files.RemainingRuns() == 0 then files.NextLevelRuns() else files.RemainingRuns()
    }

    ghost function Merged(): int
      reads files
    {
      if files.RemainingRuns() == 0 then 0 else files.NextLevelRuns()
    }

    /** Merges the first runs of the level into one run of the next, or moves the last run there. */
    method MergeGroup(fanout: nat) returns (r: Outcome)
      requires Apart() && Stored() && merger.Idle()
      modifies files, merger, merger.pq, merger.pq.pq
      ensures r.Ok? <==> 1 <= fanout <= old(Unmerged())
      ensures r.Ok? ==> Stored() && merger.Idle() && (merger.pq.pq == old(merger.pq.pq) || fresh(merger.pq.pq))
      ensures r.Ok? ==> AllItems(files.runs) == old(AllItems(files.runs))
      ensures r.Ok? ==> files.RemainingRuns() == old(Unmerged()) - fanout && files.NextLevelRuns() == old(Merged()) + 1
      ensures r.Ok? ==> files.peak <= Max(old(files.peak), fanout + 1)
    {
      if fanout == 0 {
        return Raised(NoFanout);
      }
      if fanout == 1 && files.RemainingRuns() == 1 {
        r := files.MoveLastReaderToNextLevel();
        return r;
      }
      ghost var base := files.runs;
      ghost var output;
      r, output := CopyGroup(fanout);
      if r.Ok? {
        hide FileHandler.Valid, GoodRuns, Merger.Idle, AllItems, AllSorted;
        MergedRuns(base, fanout, output);
      }
    }

    method OpenGroup(fanout: nat) returns (r: Outcome)
      requires Apart() && files.Valid() && !files.writerOpen && files.readersOpen == 0 && fanout >= 1
      modifies files`nextLevelFileOffset, files`readers, files`readersOpen, files`peak,
        files`nextFileOffset, files`disk, files`writerOpen, files`runs
      modifies merger, merger.pq, merger.pq.pq
      ensures r.Ok? <==> fanout <= old(Unmerged())
      ensures r.Ok? ==> files.Valid() && files.writerOpen && files.readersOpen == fanout
      ensures r.Ok? ==> files.runs == old(files.runs) + [[]] && fanout <= old(|files.runs|)
      ensures r.Ok? ==> files.peak == Max(Max(old(files.peak), fanout), fanout + 1)
      ensures r.Ok? ==> files.RemainingRuns() == old(Unmerged()) && files.NextLevelRuns() == old(Merged()) + 1
      ensures r.Ok? ==> merger.Merging() && fresh(merger.pq.pq) && merger.runs == old(files.runs)[..fanout]
      ensures r.Ok? ==> forall i :: 0 <= i < fanout ==> merger.written[i] == 0
    {
      hide Merger.Merging, PriorityQueue.Safe, FileHandler.OnDisk, FileHandler.Reading;
      r := InitializeMerger(fanout);
      if r.Raised? {
        return r;
      }
      r := files.OpenNewWriter();
      assert r.Ok?;
    }

    method CloseGroup()
      requires files.Valid() && files.writerOpen && files.readersOpen >= 1
      modifies merger.pq, files`disk, files`fileOffset, files`readersOpen, files`runs, files`writerOpen
      ensures files.Valid() && !files.writerOpen && files.readersOpen == 0 && merger.Idle() && fresh(merger.pq.pq)
      ensures files.runs == old(files.runs[files.readersOpen..])
        && files.fileOffset == old(files.fileOffset + files.readersOpen)
    {
      var r := FreeMergerAndFiles();
      assert r.Ok?;
      r := files.CloseWriter();
      assert r.Ok?;
    }

    method CopyGroup(fanout: nat) returns (r: Outcome, ghost output: seq<Item>)
      requires Apart() && Stored() && fanout >= 1
      modifies files, merger, merger.pq, merger.pq.pq
      ensures r.Ok? <==> fanout <= old(Unmerged())
      ensures r.Ok? ==>
        && fanout <= old(|files.runs|)
        && Sorted(output) && multiset(output) == AllItems(old(files.runs)[..fanout])
      ensures r.Ok? ==> files.Valid() && !files.writerOpen && files.readersOpen == 0
      ensures r.Ok? ==>
        && files.runs == old(files.runs)[fanout..] + [output]
        && files.peak <= Max(old(files.peak), fanout + 1)
      ensures r.Ok? ==> files.RemainingRuns() == old(Unmerged()) - fanout && files.NextLevelRuns() == old(Merged()) + 1
      ensures r.Ok? ==> merger.Idle() && fresh(merger.pq.pq)
    {
      hide GoodRuns, AllSorted, AllItems, FileHandler.Valid, Merger.Merging, PriorityQueue.Safe, Merger.Idle, Sorted;
      output := [];
      ghost var base := files.runs;
      r := OpenGroup(fanout);
      if r.Raised? {
        return r, output;
      }
      GoodPart(base, 0, fanout);
      GoodIsSorted(base[..fanout]);
      output := WriteMerged(base);
      CloseGroup();
      assert files.runs == base[fanout..] + [output];
    }

    // ---------- The states

    ghost predicate Waiting()
      reads files, merger, merger.pq, merger.pq.pq
    {
      Stored() && files.RemainingRuns() == 0 && merger.Idle()
    }

    // After an item that did not fit, the buffer is empty and stays full, and more was pushed than is there.
    ghost predicate Forming()
      reads this, sorter`buffer, sorter`items, sorter`full, files, merger, merger.pq, merger.pq.pq
    {
      && state == State1 && !reportInternal && sorter.Valid() && Waiting()
      && (if sorter.full then sorter.items == 0 && items > |AllItems(files.runs)|
          else items == sorter.items + |AllItems(files.runs)|)
    }

    ghost predicate Internal()
      reads this`reportInternal, this`nextInternal, sorter`buffer, sorter`items, sorter.buffer
      reads files, merger, merger.pq, merger.pq.pq
    {
      && reportInternal && sorter.Valid() && Waiting() && files.runs == []
      && (if nextInternal.None? then sorter.items == 0
          else if sorter.items == 0 then nextInternal.value == 0 < sorter.buffer.Length
          else nextInternal.value < sorter.items && Sorted(sorter.Contents()))
    }

    // The next item is where the items of the buffer begin, but there are none.
    predicate Dangling()
      reads this`reportInternal, this`nextInternal, sorter`items
    {
      reportInternal && nextInternal.Some? && sorter.items == 0
    }

    ghost predicate Delivering()
      reads files, merger, merger.pq, merger.pq.pq
    {
      && Apart() && files.Valid() && !files.writerOpen && files.NextLevelRuns() == 0 && GoodRuns(files.runs)
      && files.readersOpen == |files.runs| && merger.runs == files.runs && merger.Merging() && !merger.Empty()
    }

    ghost predicate Reporting()
      reads files, merger, merger.pq, merger.pq.pq
    {
      if files.readersOpen == 0 then Waiting() else Delivering()
    }

    ghost predicate External()
      reads this`reportInternal, sorter`buffer, sorter`items, files, merger, merger.pq, merger.pq.pq
    {
      !reportInternal && sorter.Valid() && sorter.items == 0 && Reporting()
    }

    ghost predicate Valid()
      reads this, sorter`buffer, sorter`items, sorter`full, sorter.buffer, files, merger, merger.pq, merger.pq.pq
    {
      && Apart() && sorter.Valid() && Storable()
      && match state
         case Initial => Waiting() && files.runs == [] && items == 0 && !reportInternal
         case State1 => Forming()
         case _ => Internal() || External()
    }

    // The items in the run files that the merger has not yielded yet.
    ghost function Stock(): multiset<Item>
      requires Reporting()
      reads files, merger, merger.pq, merger.pq.pq
    {
      if files.readersOpen == 0 then AllItems(files.runs) else AllItems(Unwritten(merger.runs, merger.written))
    }

    // The items that were accepted and not yet pulled.
    ghost function Remaining(): multiset<Item>
      requires Valid()
      reads this, sorter`buffer, sorter`items, sorter`full, sorter.buffer, files, merger, merger.pq, merger.pq.pq
    {
      if state == Initial then multiset{}
      else if state == State1 then multiset(sorter.Contents()) + AllItems(files.runs)
      else if reportInternal then
        if nextInternal.Some? then multiset(sorter.Contents()[nextInternal.value..]) else multiset{}
      else Stock()
    }

    // ---------- Run formation

    /** Starts run formation, once, if the files and the memory seem to do for all phases. */
    method Begin() returns (r: Outcome)
      requires Valid()
      modifies this`state, sorter
      ensures Valid()
      ensures r == if old(state) != Initial then Raised(BadState)
                   else if CheckPhases(params).Some? then Raised(CheckPhases(params).value) else Ok
      ensures r.Raised? ==> unchanged(this) && unchanged(sorter)
      ensures r.Ok? ==>
        && state == State1 && Remaining() == multiset{}
        && fresh(sorter.buffer) && sorter.buffer.Length == BufferLength(params) && !sorter.full
    {
      if state != Initial {
        return Raised(BadState);
      }
      var error := CheckPhases(params);
      if error.Some? {
        return Raised(error.value);
      }
      state := State1;
      hide FileHandler.Valid, GoodRuns, Merger.Idle;
      sorter.Begin(BufferLength(params));
      return Ok;
    }

    // An item has been counted and is about to be stored.
    ghost predicate Pushing()
      reads this`state, this`reportInternal, this`items, sorter`buffer, sorter`items, sorter`full
      reads files, merger, merger.pq, merger.pq.pq
    {
      && state == State1 && !reportInternal && Apart() && sorter.Valid() && Waiting()
      && items > sorter.items + |AllItems(files.runs)|
      && (sorter.items > 0 || !sorter.full ==> items == sorter.items + |AllItems(files.runs)| + 1)
    }

    // Counts the item, which is pushed at once if it fits.
    method TryPush(item: Item, fits: bool) returns (ok: bool)
      requires Apart() && Forming() && Storable() && Keeps(files.codec, item)
      modifies this`items, sorter`items, sorter`full, sorter.buffer
      ensures items == old(items) + 1
      ensures ok <==> !old(sorter.full) && old(sorter.items) < sorter.buffer.Length && fits
      ensures sorter.Valid() && sorter.full == !ok && sorter.items == old(sorter.items) + if ok then 1 else 0
      ensures multiset(sorter.Contents()) + AllItems(files.runs)
        == old(multiset(sorter.Contents()) + AllItems(files.runs)) + if ok then multiset{item} else multiset{}
      ensures (if ok then Forming() else Pushing()) && Storable()
    {
      hide Waiting, AllItems;
      items := items + 1;
      ok := sorter.Push(item, fits);
    }

    // A full buffer is written out as a run, and then the item is tried once more.
    method PushAfterRun(item: Item, fitsAlone: bool) returns (ok: bool)
      requires Pushing() && sorter.full && Storable() && Keeps(files.codec, item)
      modifies sorter`items, sorter`full, sorter.buffer, files
      ensures ok <==> old(sorter.items) > 0 && fitsAlone
      ensures sorter.Valid() && Forming() && Storable()
      ensures sorter.full == !ok && (!ok ==> sorter.items == 0 && AllItems(files.runs) == Remaining())
      ensures Remaining() == old(multiset(sorter.Contents()) + AllItems(files.runs))
        + if ok then multiset{item} else multiset{}
      ensures files.peak <= Max(old(files.peak), 1)
    {
      hide FileHandler.Valid, GoodRuns, Merger.Idle, AllItems, Internal, External, Delivering, Sorted, Reporting, Stock;
      hide RunBuffer.Contents, KeepsAll;
      KeepsOne(files.codec, item);
      sorter.Counted();
      EndRun();
      sorter.Counted();
      ok := sorter.Push(item, fitsAlone);
      sorter.Counted();
      assert sorter.Contents() == if ok then [item] else [];
    }

    /**
     * Takes an item, writing out a run when the buffer is full. It fails when an empty buffer cannot take the item,
     * and always after that; what was accepted before is then in the run files.
     */
    method Push(item: Item, fits: bool, fitsAlone: bool) returns (r: Outcome)
      requires Valid() && Keeps(files.codec, item)
      modifies this`items, sorter`items, sorter`full, sorter.buffer, files
      ensures Valid()
      ensures old(state) != State1 ==>
        r == Raised(BadState) && unchanged(this) && unchanged(sorter) && unchanged(files) && unchanged(sorter.buffer)
      ensures old(state) == State1 ==>
        r == if (!old(sorter.full) && old(sorter.items) < sorter.buffer.Length && fits)
          || (old(sorter.items) > 0 && fitsAlone)
             then Ok else Raised(DoesNotFit)
      ensures old(state) == State1 ==> items == old(items) + 1 && sorter.full == r.Raised?
      ensures old(state) == State1 && !old(sorter.full) && old(sorter.items) < sorter.buffer.Length && fits ==>
        unchanged(files) && sorter.items == old(sorter.items) + 1
      ensures r.Ok? ==> Remaining() == old(Remaining()) + multiset{item}
      ensures r == Raised(DoesNotFit) ==> sorter.items == 0 && AllItems(files.runs) == Remaining() == old(Remaining())
      ensures files.peak <= Max(old(files.peak), 1)
    {
      hide Forming, Internal, External, Stock, Reporting, AllItems;
      if state != State1 {
        return Raised(BadState);
      }
      var ok := PushFormed(item, fits, fitsAlone);
      return if ok then Ok else Raised(DoesNotFit);
    }

    method PushFormed(item: Item, fits: bool, fitsAlone: bool) returns (ok: bool)
      requires Valid() && state == State1 && Keeps(files.codec, item)
      modifies this`items, sorter`items, sorter`full, sorter.buffer, files
      ensures sorter.Valid() && Forming() && Storable()
      ensures items == old(items) + 1 && sorter.full == !ok && files.peak <= Max(old(files.peak), 1)
      ensures ok <==>
        || (!old(sorter.full) && old(sorter.items) < sorter.buffer.Length && fits)
        || (old(sorter.items) > 0 && fitsAlone)
      ensures !old(sorter.full) && old(sorter.items) < sorter.buffer.Length && fits ==>
        unchanged(files) && sorter.items == old(sorter.items) + 1
      ensures Remaining() == old(Remaining()) + if ok then multiset{item} else multiset{}
      ensures !ok ==> sorter.items == 0 && AllItems(files.runs) == Remaining()
    {
      hide Forming, Pushing, Internal, External, Stock, Reporting, AllItems, KeepsAll, RunBuffer.Contents;
      ok := TryPush(item, fits);
      if !ok {
        assert multiset(sorter.Contents()) + AllItems(files.runs) == old(Remaining());
        ok := PushAfterRun(item, fitsAlone);
      }
    }

    // Pushes all items; from the first one that does not fit, none is accepted.
    method PushAll(input: seq<Item>, fits: seq<bool>, fitsAlone: seq<bool>) returns (accepted: nat)
      requires Valid() && state == State1 && !sorter.full && |fits| == |input| == |fitsAlone|
      requires KeepsAll(files.codec, multiset(input))
      modifies this`items, sorter`items, sorter`full, sorter.buffer, files
      ensures Valid() && accepted <= |input| && sorter.full == (accepted < |input|)
      ensures Remaining() == old(Remaining()) + multiset(input[..accepted])
      ensures sorter.buffer.Length > 0 && (forall i :: 0 <= i < |input| ==> fits[i] && fitsAlone[i]) ==>
        accepted == |input|
    {
      hide Valid, Remaining;
      accepted := 0;
      for i := 0 to |input|
        invariant Valid() && accepted <= i && sorter.full == (accepted < i)
        invariant Remaining() == old(Remaining()) + multiset(input[..accepted])
        invariant sorter.buffer.Length > 0 && (forall k :: 0 <= k < |input| ==> fits[k] && fitsAlone[k]) ==>
          accepted == i
        invariant sorter.full ==> sorter.items == 0
      {
        assert input[i] in multiset(input);
        var r := Push(input[i], fits[i], fitsAlone[i]);
        if r.Ok? {
          TakeOneMore(input, i);
          accepted := accepted + 1;
        }
      }
    }

    /** Chooses internal or external reporting. */
    method End(fitsInternal: bool, fitsShrunk: bool) returns (r: Outcome)
      requires Valid()
      modifies this`state, this`reportInternal, this`nextInternal, sorter, sorter.buffer, files
      ensures Valid()
      ensures old(state) != State1 ==> r == Raised(BadState) && unchanged(this) && unchanged(sorter) && unchanged(files)
      ensures old(state) == State1 ==> r == Ok && state == State2 && Unpulled() && Remaining() == old(Remaining())
      ensures r.Ok? ==>
        (Dangling() <==> old(sorter.full && Remaining() == multiset{} && sorter.buffer.Length > 0) && fitsInternal)
      ensures r.Ok? ==>
        (reportInternal <==> items == 0 || (old(files.NextLevelRuns()) == 0 && (fitsInternal || fitsShrunk)))
      ensures sorter.buffer == old(sorter.buffer) || fresh(sorter.buffer)
      ensures files.peak <= Max(old(files.peak), 1)
    {
      hide Internal, External, Forming, Stock, Reporting, KeepsAll, AllItems, RunBuffer.Contents;
      if state != State1 {
        return Raised(BadState);
      }
      Ending();
      if items == 0 || (files.NextLevelRuns() == 0 && (fitsInternal || fitsShrunk)) {
        EndInternally(!fitsInternal);
      } else {
        SomethingAccepted(fitsInternal);
        EndExternally();
      }
      return Ok;
    }

    // A full buffer is an empty one.
    lemma Ending()
      requires Valid() && state == State1
      ensures files.NextLevelRuns() >= 0 && (sorter.full ==> items > 0)
      ensures sorter.full && files.NextLevelRuns() == 0 ==> Remaining() == multiset{}
    {
      if sorter.full && files.NextLevelRuns() == 0 {
        NoRunFiles();
      }
    }

    method EndExternally()
      requires Valid() && state == State1
      modifies this`state, this`reportInternal, sorter, sorter.buffer, files
      ensures External() && Apart() && sorter.Valid() && Storable()
      ensures state == State2 && !reportInternal && Remaining() == old(Remaining())
      ensures fresh(sorter.buffer) && files.peak <= Max(old(files.peak), 1)
    {
      hide FileHandler.Valid, GoodRuns, Merger.Idle, AllItems, Internal, Delivering;
      EndRun();
      sorter.Free();
      reportInternal := false;
      state := State2;
    }

    method SortBuffer(shrink: bool)
      requires sorter.Valid()
      modifies sorter`buffer, sorter.buffer
      ensures sorter.Valid() && SortedPermutation(sorter.Contents(), old(multiset(sorter.Contents())))
      ensures sorter.buffer.Length == if shrink then sorter.items else old(sorter.buffer.Length)
      ensures sorter.buffer == old(sorter.buffer) || fresh(sorter.buffer)
    {
      sorter.Sort();
      if shrink {
        sorter.ShrinkBuffer();
      }
    }

    lemma SomethingAccepted(fitsInternal: bool)
      requires Valid() && state == State1 && !(files.NextLevelRuns() == 0 && fitsInternal)
      ensures Remaining() == multiset{} ==> !fitsInternal
    {
      if files.runs != [] {
        SomeItem(files.runs);
      }
    }

    // The buffer is freed when nothing was pushed, and otherwise sorted and perhaps shrunk. An empty buffer has no
    // beginning.
    method EndInternally(shrink: bool)
      requires Valid() && state == State1 && (items == 0 || files.NextLevelRuns() == 0)
      modifies this`state, this`reportInternal, this`nextInternal, sorter, sorter.buffer
      ensures Internal() && Apart() && sorter.Valid() && Storable()
      ensures reportInternal && state == State2 && Unpulled() && Remaining() == old(Remaining())
      ensures Dangling() <==> !shrink && old(sorter.full && sorter.buffer.Length > 0)
      ensures old(sorter.full) ==> old(Remaining()) == multiset{}
      ensures sorter.buffer == old(sorter.buffer) || fresh(sorter.buffer)
    {
      hide Waiting, Internal, External, Sorted, Delivering, Forming, AllItems, Stock, RunBuffer.Contents;
      InternalStart();
      reportInternal, state := true, State2;
      if items == 0 {
        FreeInternal();
      } else {
        SortInternal(shrink);
      }
    }

    method SortInternal(shrink: bool)
      requires Apart() && state == State2 && reportInternal && sorter.Valid() && Waiting() && files.runs == []
      requires Storable()
      modifies this`nextInternal, sorter`buffer, sorter.buffer
      ensures sorter.Valid() && Internal() && Storable()
      ensures Unpulled() && Remaining() == old(multiset(sorter.Contents()))
      ensures Dangling() <==> !shrink && sorter.items == 0 < old(sorter.buffer.Length)
      ensures sorter.buffer == old(sorter.buffer) || fresh(sorter.buffer)
    {
      hide Waiting, External, Sorted, Delivering, Forming, AllItems, Stock;
      SortBuffer(shrink);
      nextInternal := if sorter.buffer.Length > 0 then Some(0) else None;
      assert sorter.Contents()[0..] == sorter.Contents();
    }

    lemma InternalStart()
      requires Valid() && state == State1 && (items == 0 || files.NextLevelRuns() == 0)
      ensures Waiting() && files.runs == [] && sorter.Valid() && Remaining() == multiset(sorter.Contents())
      ensures sorter.items == 0 ==> Remaining() == multiset{}
      ensures items == 0 ==> sorter.items == 0 && !sorter.full
      ensures items > 0 ==> sorter.full == (sorter.items == 0)
    {
      NoRunFiles();
    }

    lemma NoRunFiles()
      requires Stored() && files.RemainingRuns() == 0
      requires files.NextLevelRuns() == 0 || AllItems(files.runs) == multiset{}
      ensures files.runs == [] && files.NextLevelRuns() == 0 && AllItems(files.runs) == multiset{}
    {
      if files.runs != [] {
        SomeItem(files.runs);
      }
    }

    // No item has been pulled, unless run files or the end of the buffer tell so.
    predicate Unpulled()
      reads this`reportInternal, this`nextInternal
    {
      !reportInternal || nextInternal.None? || nextInternal.value == 0
    }

    lemma NothingFormed()
      requires Valid() && state == State1 && Remaining() == multiset{}
      ensures sorter.items == 0 && files.NextLevelRuns() == 0
    {
      assert |multiset(sorter.Contents())| == sorter.items;
      NoRunFiles();
    }

    // Before the first pull in internal reporting, what remains is the buffer.
    lemma AllInBuffer()
      requires Valid() && (state == State2 || state == State3) && reportInternal && Unpulled()
      ensures sorter.Valid() && Remaining() == multiset(sorter.Contents())
    {
      assert sorter.Contents()[0..] == sorter.Contents();
    }

    /** Leaves internal reporting by writing the whole buffer as a run. */
    method Evacuate() returns (r: Outcome)
      requires Valid()
      modifies this`reportInternal, sorter, sorter.buffer, files
      ensures Valid()
      ensures r == if old(state) == Initial || old(state) == State1 then Raised(BadState) else Ok
      ensures r.Raised? ==> unchanged(this) && unchanged(sorter) && unchanged(files) && unchanged(sorter.buffer)
      ensures r.Ok? ==> !reportInternal
      ensures r.Ok? ==> Remaining() == if old(reportInternal) then old(multiset(sorter.Contents()))
        else old(Remaining())
      ensures r.Ok? ==> (Remaining() == old(Remaining()) <==> old(Unpulled()))
      ensures sorter.buffer == old(sorter.buffer) || fresh(sorter.buffer)
      ensures files.peak <= Max(old(files.peak), 1)
    {
      if state == Initial || state == State1 {
        return Raised(BadState);
      }
      if reportInternal {
        hide FileHandler.Valid, GoodRuns, Merger.Idle, Delivering;
        ghost var pulled := if nextInternal.Some? then nextInternal.value else 0;
        ghost var all := sorter.Contents();
        PulledPart(all, pulled);
        EndRun();
        sorter.Free();
        reportInternal := false;
      }
      return Ok;
    }

    lemma PulledPart(all: seq<Item>, pulled: nat)
      requires pulled <= |all|
      ensures multiset(all[pulled..]) == multiset(all) <==> pulled == 0
    {
      assert all == all[..pulled] + all[pulled..];
      assert |multiset(all)| == |all| && |multiset(all[pulled..])| == |all| - pulled;
    }

    // ---------- Merging

    /** One level: r runs become ceil(r / fanout), the last one moved rather than copied when it is alone. */
    method MergeLevel(fanout: nat) returns (r: Outcome)
      requires Apart() && Waiting() && fanout >= 2 && files.NextLevelRuns() >= 2
      modifies files, merger, merger.pq, merger.pq.pq
      ensures r.Ok? && Waiting() && (merger.pq.pq == old(merger.pq.pq) || fresh(merger.pq.pq))
      ensures AllItems(files.runs) == old(AllItems(files.runs))
      ensures files.NextLevelRuns() == Ceil(old(files.NextLevelRuns()), fanout)
      ensures files.peak <= Max(old(files.peak), fanout + 1)
    {
      hide FileHandler.Valid, GoodRuns, Merger.Idle, AllItems;
      if files.RemainingRuns() != 0 {
        return Raised(RunsRemain);
      }
      var total := files.NextLevelRuns();
      var remainingRuns := total;
      ghost var merges := 0;
      while remainingRuns > 0
        invariant Stored() && merger.Idle() && (merger.pq.pq == old(merger.pq.pq) || fresh(merger.pq.pq))
        invariant AllItems(files.runs) == old(AllItems(files.runs)) && files.peak <= Max(old(files.peak), fanout + 1)
        invariant 0 <= remainingRuns <= total
        invariant merges == 0 ==> remainingRuns == total == files.NextLevelRuns() && files.RemainingRuns() == 0
        invariant merges > 0 ==> remainingRuns == files.RemainingRuns() && files.NextLevelRuns() == merges
        invariant if remainingRuns > 0 then merges * fanout + remainingRuns == total
                  else merges >= 1 && (merges - 1) * fanout < total <= merges * fanout
      {
        var f := if fanout < remainingRuns then fanout else remainingRuns;
        r := MergeGroup(f);
        assert r.Ok?;
        remainingRuns := remainingRuns - f;
        MulNext(merges, fanout);
        merges := merges + 1;
        if remainingRuns != files.RemainingRuns() {
          return Raised(RunsRemain);
        }
      }
      CeilUnique(total, fanout, merges);
      return Ok;
    }

    /**
     * Merges levels until few enough runs are left, within the files of each phase, if there is memory for merging
     * the largest item; no consistency check can fail.
     */
    method MergeRuns(largestItem: nat) returns (r: Outcome)
      requires Valid()
      modifies this`state, files, merger, merger.pq, merger.pq.pq
      ensures Valid()
      ensures r == if old(state) != State2 then Raised(BadState)
                   else if !reportInternal && largestItem > 0 && !CanMerge(params, largestItem)
                     then Raised(NotEnoughMemory)
                   else Ok
      ensures r.Raised? ==> unchanged(this) && unchanged(files) && unchanged(merger)
      ensures r.Ok? ==> state == State3 && Remaining() == old(Remaining())
      ensures merger.pq.pq == old(merger.pq.pq) || fresh(merger.pq.pq)
      ensures r.Ok? && !reportInternal && largestItem > 0 && old(files.readersOpen) == 0 ==>
        && files.NextLevelRuns()
          == RunsLeft(old(files.NextLevelRuns()), Fanout(params, largestItem), FinalFanout(params, largestItem))
        && files.NextLevelRuns() < FilesOf(params.files3)
        && files.peak <= Max(old(files.peak), FilesOf(params.files2))
        && (files.peak <= old(files.peak)
          || (files.peak - 1) * (largestItem + params.blockSize) + params.blockSize <= params.memory2)
    {
      hide FileHandler.Valid, GoodRuns, Merger.Idle, AllItems, RunsLeft, Internal, External, Waiting, Delivering, Stock;
      hide Fanout, FinalFanout, KeepsAll, RunBuffer.Contents, TakesBytes;
      if state != State2 {
        return Raised(BadState);
      }
      if reportInternal || largestItem == 0 {
        state := State3;
        return Ok;
      }
      if !CanMerge(params, largestItem) {
        return Raised(NotEnoughMemory);
      }
      FanoutsWithinFiles(params, largestItem);
      ReportsExternally();
      FanoutInBytes(params, largestItem);
      r := MergeLevels(Fanout(params, largestItem), FinalFanout(params, largestItem));
      if files.peak > old(files.peak) {
        MulMonotone(files.peak - 1, Fanout(params, largestItem), largestItem + params.blockSize);
      }
      state := State3;
    }

    lemma ReportsExternally()
      requires Valid() && state == State2 && !reportInternal
      ensures External()
    {
    }

    method MergeLevels(fanout: nat, finalFanout: nat) returns (r: Outcome)
      requires Apart() && External() && fanout >= 2 && finalFanout >= 2
      modifies files, merger, merger.pq, merger.pq.pq
      ensures r.Ok? && External() && Stock() == old(Stock())
      ensures merger.pq.pq == old(merger.pq.pq) || fresh(merger.pq.pq)
      ensures old(files.readersOpen) != 0 ==>
        unchanged(files) && unchanged(merger) && unchanged(merger.pq) && unchanged(merger.pq.pq)
      ensures old(files.readersOpen) == 0 ==>
        && files.NextLevelRuns() == RunsLeft(old(files.NextLevelRuns()), fanout, finalFanout) <= finalFanout
        && files.peak <= Max(old(files.peak), fanout + 1)
    {
      if files.readersOpen != 0 {
        return Ok;  // the next level is empty once items are being delivered
      }
      hide FileHandler.Valid, GoodRuns, Merger.Idle, AllItems, RunsLeft;
      while files.NextLevelRuns() > finalFanout
        invariant Waiting() && (merger.pq.pq == old(merger.pq.pq) || fresh(merger.pq.pq))
        invariant AllItems(files.runs) == old(AllItems(files.runs)) && files.peak <= Max(old(files.peak), fanout + 1)
        invariant files.NextLevelRuns() >= 0
        invariant RunsLeft(files.NextLevelRuns(), fanout, finalFanout)
          == RunsLeft(old(files.NextLevelRuns()), fanout, finalFanout)
        decreases files.NextLevelRuns()
      {
        OneLevel(files.NextLevelRuns(), fanout, finalFanout);
        r := MergeLevel(fanout);
        assert r.Ok?;
      }
      EnoughLevels(files.NextLevelRuns(), fanout, finalFanout);
      return Ok;
    }

    // Evacuation may come before merging, after it, or both, as long as nothing has been pulled.
    method MergeAndEvacuate(largestItem: nat, evacuateFirst: bool, evacuateLast: bool) returns (r: Outcome)
      requires Valid() && state == State2 && Unpulled() && !Dangling()
      modifies this`state, this`reportInternal, sorter, sorter.buffer, files, merger, merger.pq, merger.pq.pq
      ensures Valid() && (r.Ok? ==> state == State3 && Remaining() == old(Remaining()) && !Dangling())
      ensures r.Raised? ==> r == Raised(NotEnoughMemory) && !CanMerge(params, largestItem)
      ensures sorter.buffer == old(sorter.buffer) || fresh(sorter.buffer)
      ensures merger.pq.pq == old(merger.pq.pq) || fresh(merger.pq.pq)
    {
      hide Valid, Remaining;
      if evacuateFirst {
        r := Evacuate();
      }
      r := MergeRuns(largestItem);
      if r.Ok? && evacuateLast {
        r := Evacuate();
      }
    }

    // ---------- Reporting

    predicate CanPull()
      reads this, files, merger, merger.pq
    {
      if reportInternal then nextInternal.Some?
      else if files.readersOpen == 0 then files.NextLevelRuns() > 0
      else !merger.Empty()
    }

    lemma NothingYet()
      requires Valid() && state == State1 && files.NextLevelRuns() == 0
      ensures !CanPull()
    {
    }

    // Before end() the buffered items cannot be pulled, and a dangling next item is none.
    ghost predicate Misleading()
      reads this, sorter`items, files
    {
      if state == State1 then files.runs == [] && sorter.items > 0 else Dangling()
    }

    /** CanPull tells whether items remain, except in exactly the misleading states. */
    lemma CanPullIffItemsRemain()
      requires Valid()
      ensures (CanPull() <==> Remaining() != multiset{}) <==> !Misleading()
    {
      if files.runs != [] {
        SomeItem(files.runs);
      }
      if state == State1 {
        assert |multiset(sorter.Contents())| == sorter.items;
      } else if reportInternal {
        if nextInternal.Some? && sorter.items > 0 {
          assert sorter.Contents()[nextInternal.value] in multiset(sorter.Contents()[nextInternal.value..]);
        }
      } else if files.readersOpen > 0 {
        DeliveringSome();
      }
    }

    lemma DeliveringSome()
      requires Delivering()
      ensures AllItems(Unwritten(merger.runs, merger.written)) != multiset{}
    {
      var e := merger.pq.pq[0];
      assert merger.pq.pq[..merger.pq.sz][0] == e && e in merger.pq.contents;
      assert IsHead(merger.runs, merger.written, |merger.runs|, e);
      UnwrittenAdvance(merger.runs, merger.written, e.run);
    }

    method PullInternal() returns (item: Item)
      requires Apart() && Internal() && Storable() && nextInternal.Some? && !Dangling()
      requires state == State2 || state == State3
      modifies this`nextInternal, sorter
      ensures sorter.Valid() && Internal() && Storable()
      ensures !Dangling() && (sorter.buffer == old(sorter.buffer) || fresh(sorter.buffer))
      ensures old(Remaining()) == Remaining() + multiset{item}
      ensures forall x :: x in Remaining() ==> item.key <= x.key
      ensures nextInternal.Some? ==> unchanged(sorter) && nextInternal.value == old(nextInternal.value) + 1
      ensures nextInternal.None? ==> Remaining() == multiset{}
    {
      hide Waiting, Internal, External, Sorted, Stock, Reporting, Forming, AllItems, RunBuffer.Contents, Remaining;
      var p := nextInternal.value;
      NextInternalItem();
      ghost var all := sorter.Contents();
      LeastFirst(all, p);
      FirstAndRest(all, p);
      item := sorter.buffer[p];
      nextInternal := Some(p + 1);
      if p + 1 == sorter.items {
        FreeInternal();
      } else {
        MoreInternal();
      }
    }

    lemma NextInternalItem()
      requires Apart() && Internal() && Storable() && nextInternal.Some? && !Dangling()
      requires state == State2 || state == State3
      ensures sorter.Valid() && Waiting() && files.runs == [] && reportInternal && nextInternal.value < sorter.items
      ensures |sorter.Contents()| == sorter.items && Sorted(sorter.Contents())
      ensures sorter.Contents()[nextInternal.value] == sorter.buffer[nextInternal.value]
      ensures Remaining() == multiset(sorter.Contents()[nextInternal.value..])
    {
    }

    lemma MoreInternal()
      requires Apart() && sorter.Valid() && Waiting() && files.runs == [] && reportInternal && nextInternal.Some?
      requires nextInternal.value < sorter.items && Sorted(sorter.Contents()) && (state == State2 || state == State3)
      requires Storable()
      ensures Internal() && !Dangling() && nextInternal.value < |sorter.Contents()|
      ensures Remaining() == multiset(sorter.Contents()[nextInternal.value..])
    {
    }

    // All items of the buffer have been pulled.
    method FreeInternal()
      requires Apart() && reportInternal && sorter.Valid() && Waiting() && files.runs == []
      requires state == State2 || state == State3
      modifies this`nextInternal, sorter
      ensures sorter.Valid() && Internal() && Storable() && fresh(sorter.buffer)
      ensures nextInternal.None? && Remaining() == multiset{}
    {
      hide Waiting, External, Sorted, Stock, Reporting, Forming, AllItems;
      sorter.Free();
      nextInternal := None;
    }

    // Opens all runs of the last level.
    method StartDelivery() returns (r: Outcome)
      requires Apart() && Waiting() && files.NextLevelRuns() > 0
      modifies files, merger, merger.pq, merger.pq.pq
      ensures r.Ok? && Delivering() && AllItems(Unwritten(merger.runs, merger.written)) == old(AllItems(files.runs))
      ensures fresh(merger.pq.pq)
    {
      hide GoodRuns, Merger.Merging, AllItems;
      r := InitializeMerger(files.NextLevelRuns());
      assert r.Ok?;
      assert merger.runs == files.runs;
      NothingWrittenYet(merger.runs, merger.written);
      NotEmptyAtFirst();
    }

    lemma NotEmptyAtFirst()
      requires GoodRuns(merger.runs) && merger.Merging() && forall i :: 0 <= i < |merger.runs| ==>
        merger.written[i] == 0
      ensures !merger.Empty() && Progress(merger.runs, merger.written)
    {
      var head := Entry(merger.runs[0][0], 0);
      assert IsHead(merger.runs, merger.written, |merger.runs|, head);
      assert merger.pq.contents[head] == 1;
    }

    method PullMerged() returns (item: Item)
      requires Apart() && Delivering()
      modifies files`readers, merger`written, merger.pq`sz, merger.pq`contents, merger.pq.pq
      ensures files.Valid() && merger.Merging()
      ensures Progress(old(merger.runs), old(merger.written))
      ensures old(AllItems(Unwritten(merger.runs, merger.written)))
        == AllItems(Unwritten(merger.runs, merger.written)) + multiset{item}
      ensures forall x :: x in AllItems(Unwritten(merger.runs, merger.written)) ==> item.key <= x.key
    {
      ghost var run;
      hide GoodRuns, AllItems, AllSorted, Unwritten, PriorityQueue.Safe, Heads,
        Merger.Follows, FileHandler.OnDisk, FileHandler.Reading;
      item, run := merger.Top();
      HeadsProgress(merger.pq.contents, merger.runs, merger.written);
      TakeLeast(merger.runs, merger.written, item, run);
      merger.Pop(item, run);
    }

    // After the last item the run files are deleted and the file handler starts over.
    method EndDelivery()
      requires Apart() && files.Valid() && files.readersOpen >= 1
      modifies files, merger.pq
      ensures AllItems(files.runs) == multiset{} && Waiting() && fresh(merger.pq.pq) && files.peak == old(files.peak)
    {
      var r := FreeMergerAndFiles();
      assert r.Ok?;
      files.Reset();
    }

    method PullExternal() returns (r: Outcome, item: Item)
      requires Apart() && Reporting() && !reportInternal && CanPull()
      modifies files, merger, merger.pq, merger.pq.pq
      ensures r.Ok? && Reporting() && (merger.pq.pq == old(merger.pq.pq) || fresh(merger.pq.pq))
      ensures old(Stock()) == Stock() + multiset{item}
      ensures forall x :: x in Stock() ==> item.key <= x.key
    {
      hide FileHandler.Valid, GoodRuns, Merger.Idle, AllItems, Merger.Merging;
      if files.readersOpen == 0 {
        if files.NextLevelRuns() == 0 {
          return Raised(NoRuns), Item(0, 0);
        }
        r := StartDelivery();
        assert r.Ok?;
      }
      item := PullMerged();
      StillOpen();
      if merger.Empty() {
        DeliveredAll();
        EndDelivery();
      }
      return Ok, item;
    }

    lemma StillOpen()
      requires Apart() && merger.Merging()
      ensures files.readersOpen >= 1
    {
    }

    lemma DeliveredAll()
      requires merger.Merging() && merger.Empty()
      ensures Progress(merger.runs, merger.written) && AllItems(Unwritten(merger.runs, merger.written)) == multiset{}
    {
      merger.EmptyMeansDone();
      AllWritten(merger.runs, merger.written);
    }

    /**
     * Yields a least item and removes it; fails exactly when CanPull is false. Before end() only the run files are
     * looked at, and a dangling next item is whatever the buffer holds.
     */
    method Pull() returns (r: Outcome, item: Item)
      requires Valid()
      modifies this`nextInternal, sorter, files, merger, merger.pq, merger.pq.pq
      ensures r == if old(CanPull()) then Ok else Raised(CannotPull)
      ensures r.Raised? ==> Valid() && unchanged(this) && unchanged(sorter) && unchanged(files) && unchanged(merger)
      ensures r.Raised? ==> unchanged(merger.pq) && unchanged(merger.pq.pq)
      ensures (old(state) == State2 || old(state) == State3) && !old(Dangling()) ==>
        && Valid() && !Dangling()
        && (r.Ok? ==>
          && old(Remaining()) == Remaining() + multiset{item}
          && forall x :: x in Remaining() ==> item.key <= x.key)
      ensures r.Ok? && old(reportInternal) && !old(Dangling()) && Valid() && Remaining() != multiset{} ==>
        && unchanged(sorter) && reportInternal && nextInternal.Some? && nextInternal.value > 0
      ensures old(state) == State1 && r.Ok? ==>
        && Reporting() && old(AllItems(files.runs)) == Stock() + multiset{item} && unchanged(sorter)
        && forall x :: x in Stock() ==> item.key <= x.key
      ensures old(Dangling()) ==>
        sorter.buffer == old(sorter.buffer) && sorter.buffer.Length > 0 && item == sorter.buffer[0] && CanPull()
      ensures merger.pq.pq == old(merger.pq.pq) || fresh(merger.pq.pq)
      ensures sorter.buffer == old(sorter.buffer) || fresh(sorter.buffer)
    {
      hide FileHandler.Valid, GoodRuns, Merger.Idle, AllItems, Delivering, Sorted, Unwritten, KeepsAll, Stock;
      hide RunBuffer.Contents, TakesBytes, Waiting, Forming, External, Reporting;
      if !CanPull() {
        return Raised(CannotPull), Item(0, 0);
      }
      if Dangling() {
        ReportsInternally();
        item := sorter.buffer[0];
        nextInternal := Some(1);
        return Ok, item;
      }
      if reportInternal {
        ReportsInternally();
        item := PullInternal();
        return Ok, item;
      }
      item := PullDelivered();
      r := Ok;
    }

    lemma ReportsInternally()
      requires Valid() && reportInternal
      ensures Internal() && (state == State2 || state == State3) && (Dangling() ==> sorter.buffer.Length > 0)
    {
    }

    // Before end() the items of the run files are delivered as well.
    method PullDelivered() returns (item: Item)
      requires Valid() && !reportInternal && CanPull()
      modifies files, merger, merger.pq, merger.pq.pq
      ensures state == State2 || state == State3 ==>
        && Valid() && old(Remaining()) == Remaining() + multiset{item}
        && forall x :: x in Remaining() ==> item.key <= x.key
      ensures state == State1 ==>
        && Reporting() && old(AllItems(files.runs)) == Stock() + multiset{item}
        && forall x :: x in Stock() ==> item.key <= x.key
      ensures merger.pq.pq == old(merger.pq.pq) || fresh(merger.pq.pq)
    {
      hide FileHandler.Valid, GoodRuns, Merger.Idle, AllItems, Delivering, Sorted, Unwritten, KeepsAll;
      hide RunBuffer.Contents, TakesBytes;
      var _, x := PullExternal();
      item := x;
    }

    /** Pulling until CanPull is false yields a sorted permutation of what remained, in every mode. */
    method PullAll() returns (output: seq<Item>)
      requires Valid() && (state == State2 || state == State3) && !Dangling()
      modifies this`nextInternal, sorter, files, merger, merger.pq, merger.pq.pq
      ensures Valid() && !CanPull() && Remaining() == multiset{}
      ensures SortedPermutation(output, old(Remaining()))
      ensures sorter.buffer == old(sorter.buffer) || fresh(sorter.buffer)
      ensures merger.pq.pq == old(merger.pq.pq) || fresh(merger.pq.pq)
    {
      output := [];
      ghost var left := Remaining();
      YieldedNothing(left);
      hide Valid, Remaining, CanPull, Yielded;
      CanPullIffItemsRemain();
      while CanPull()
        invariant Valid() && !Dangling() && (CanPull() <==> Remaining() != multiset{})
        invariant sorter.buffer == old(sorter.buffer) || fresh(sorter.buffer)
        invariant merger.pq.pq == old(merger.pq.pq) || fresh(merger.pq.pq)
        invariant Yielded(output, Remaining(), left)
        decreases |Remaining()|
      {
        output := PullNext(output, left);
      }
      YieldedAll(output, left);
    }

    method PullNext(output: seq<Item>, ghost all: multiset<Item>) returns (output': seq<Item>)
      requires Valid() && (state == State2 || state == State3) && !Dangling() && CanPull()
      requires Yielded(output, Remaining(), all)
      modifies this`nextInternal, sorter, files, merger, merger.pq, merger.pq.pq
      ensures Valid() && !Dangling() && (CanPull() <==> Remaining() != multiset{})
      ensures Yielded(output', Remaining(), all) && |Remaining()| < old(|Remaining()|)
      ensures sorter.buffer == old(sorter.buffer) || fresh(sorter.buffer)
      ensures merger.pq.pq == old(merger.pq.pq) || fresh(merger.pq.pq)
    {
      hide Valid, Remaining, CanPull, Yielded;
      ghost var before := Remaining();
      var r, item := Pull();
      YieldedNext(output, item, before, Remaining(), all);
      output' := output + [item];
      CanPullIffItemsRemain();
    }
  }

  /**
   * A whole sort: push everything, end, perhaps evacuate, merge, perhaps evacuate, pull everything. If an item does not
   * fit, those before it are sorted.
   */
  method SortItems(input: seq<Item>, minSize: nat, params: Parameters, fits: seq<bool>, fitsAlone: seq<bool>,
                   fitsInternal: bool, fitsShrunk: bool, evacuateFirst: bool, evacuateLast: bool,
                   largestItem: nat, codec: Codec) returns (r: Outcome, output: seq<Item>, accepted: nat)
    requires minSize >= 1 && |fits| == |input| == |fitsAlone|
    requires TakesBytes(codec.t) && KeepsAll(codec, multiset(input))
    ensures accepted <= |input|
    ensures r.Ok? ==> SortedPermutation(output, multiset(input[..accepted]))
    ensures CheckPhases(params).Some? ==> r == Raised(CheckPhases(params).value) && accepted == 0
    ensures CheckPhases(params).None? && r.Raised? ==>
      r == Raised(DoesNotFit) || (r == Raised(NotEnoughMemory) && !CanMerge(params, largestItem))
    ensures CheckPhases(params).None? ==> (r == Raised(DoesNotFit) <==> accepted == 0 < |input|)
    ensures CheckPhases(params).None? && BufferLength(params) > 0 ==>
      (forall i :: 0 <= i < |input| ==> fits[i] && fitsAlone[i]) ==> accepted == |input|
  {
    hide SerializationSorter.Valid, SerializationSorter.Remaining;
    output := [];
    accepted := 0;
    var s := new SerializationSorter(minSize, params, codec);
    r := s.Begin();
    if r.Raised? {
      return r, output, accepted;
    }
    accepted := s.PushAll(input, fits, fitsAlone);
    if accepted == 0 && |input| > 0 {
      return Raised(DoesNotFit), output, accepted;
    }
    assert accepted > 0 ==> input[0] in multiset(input[..accepted]);
    r := s.End(fitsInternal, fitsShrunk);
    r := s.MergeAndEvacuate(largestItem, evacuateFirst, evacuateLast);
    if r.Raised? {
      return r, output, accepted;
    }
    output := s.PullAll();
    return Ok, output, accepted;
  }

  /** An item is pulled from a sorter whose only item did not fit. */
  method NothingFits(x: Item, codec: Codec) returns (pulled: Outcome)
    requires TakesBytes(codec.t) && Keeps(codec, x)
    ensures pulled == Ok
  {
    var s := new SerializationSorter(1, Limits(3, 3, 100, 100, 100, 4, 4, 10), codec);
    BeginsIff(s.params);
    var r := s.Begin();
    r := s.Push(x, false, false);
    assert s.Remaining() == multiset{};
    r := s.End(true, false);
    var item;
    pulled, item := s.Pull();
  }

  method TwoItems(x: Item, y: Item, codec: Codec) returns (s: SerializationSorter)
    requires TakesBytes(codec.t) && Keeps(codec, x) && Keeps(codec, y)
    ensures fresh(s) && fresh(s.sorter) && fresh(s.sorter.buffer) && fresh(s.files)
    ensures fresh(s.merger) && fresh(s.merger.pq) && fresh(s.merger.pq.pq)
    ensures s.Valid() && s.state == State1 && s.files.NextLevelRuns() == 0 && !s.sorter.full
    ensures s.Remaining() == multiset{x, y}
  {
    hide SerializationSorter.Valid, SerializationSorter.Remaining;
    s := new SerializationSorter(1, Limits(3, 3, 100, 100, 100, 4, 4, 10), codec);
    BeginsIff(s.params);
    var r := s.Begin();
    s.NothingFormed();
    r := s.Push(x, true, true);
    r := s.Push(y, true, true);
  }

  /** Two items were pushed, and none can be pulled before end(). */
  method PulledTooEarly(x: Item, y: Item, codec: Codec) returns (r: Outcome, ghost remaining: multiset<Item>)
    requires TakesBytes(codec.t) && Keeps(codec, x) && Keeps(codec, y)
    ensures r == Raised(CannotPull) && remaining == multiset{x, y}
  {
    hide SerializationSorter.Valid, SerializationSorter.Remaining;
    var s := TwoItems(x, y, codec);
    s.NothingYet();
    var item;
    r, item := s.Pull();
    remaining := s.Remaining();
  }

  /** An item that was pulled before evacuating is pulled again. */
  method PulledTwice(x: Item, y: Item, codec: Codec) returns (first: Item, others: seq<Item>)
    requires TakesBytes(codec.t) && Keeps(codec, x) && Keeps(codec, y)
    ensures first in others && SortedPermutation(others, multiset{x, y})
  {
    hide SerializationSorter.Valid, SerializationSorter.Remaining;
    var s := TwoItems(x, y, codec);
    var r := s.End(true, true);
    s.AllInBuffer();
    s.CanPullIffItemsRemain();
    r, first := s.Pull();
    assert |s.Remaining() + multiset{first}| == 2;
    r := s.Evacuate();
    others := s.PullAll();
    assert first in multiset(others);
  }

  lemma OneLevel(runs: nat, fanout: nat, finalFanout: nat)
    requires fanout >= 2 && finalFanout >= 2 && runs > finalFanout
    ensures Ceil(runs, fanout) < runs
      && RunsLeft(Ceil(runs, fanout), fanout, finalFanout) == RunsLeft(runs, fanout, finalFanout)
  {
    LevelShrinks(runs, fanout);
  }

  lemma EnoughLevels(runs: nat, fanout: nat, finalFanout: nat)
    requires fanout >= 2 && finalFanout >= 2 && runs <= finalFanout
    ensures RunsLeft(runs, fanout, finalFanout) == runs
  {
  }
}
