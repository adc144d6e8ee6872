/** The k-way merge of open run files: merger of tpie/serialization_sorter.h. */
module RunMergers {
  import opened Order
  import opened InternalPriorityQueue
  import opened KWayMerge
  import opened FileHandlers
  import opened Serialization
  import opened RunFiles

  // Where a reader stands: its run's leading item is in the queue, and was read.
  function Ahead(run: seq<Item>, written: nat): nat {
    if written < |run| then written + 1 else |run|
  }

  // How far each reader has read when the first k runs have their leading item in the queue.
  ghost function ReadOf(runs: Runs, written: seq<nat>, k: nat): (read: seq<nat>)
    requires |written| == |runs|
    ensures |read| == |runs|
  {
    seq(|runs|, i requires 0 <= i < |runs| => if i < k then Ahead(runs[i], written[i]) else 0)
  }

  function ReadNext(run: seq<Item>, read: nat): nat {
    if read < |run| then read + 1 else read
  }

  lemma ReadFirst(runs: Runs, written: seq<nat>, k: nat)
    requires |written| == |runs| && k < |runs| && written[k] == 0
    ensures ReadOf(runs, written, k)[k] == 0
    ensures ReadOf(runs, written, k)[k := ReadNext(runs[k], 0)] == ReadOf(runs, written, k + 1)
  {
  }

  lemma ReadAnother(runs: Runs, written: seq<nat>, i: nat)
    requires |written| == |runs| && i < |runs| && written[i] < |runs[i]|
    ensures var read := ReadOf(runs, written, |runs|);
            && read[i] == written[i] + 1
            && read[i := ReadNext(runs[i], read[i])] == ReadOf(runs, written[i := written[i] + 1], |runs|)
  {
  }

  // The queue holds the leading items of the first k runs.
  ghost predicate Heads(heap: multiset<Entry>, runs: Runs, written: seq<nat>, k: nat) {
    Progress(runs, written) && k <= |runs| && HoldsHeads(heap, runs, written, k)
  }

  lemma FirstHeads(runs: Runs, written: seq<nat>)
    requires |written| == |runs| && forall i :: 0 <= i < |runs| ==> written[i] == 0
    ensures Heads(multiset{}, runs, written, 0)
  {
  }

  lemma MoreHeads(heap: multiset<Entry>, runs: Runs, written: seq<nat>, k: nat)
    requires Heads(heap, runs, written, k) && k < |runs| && |written| == |runs|
    ensures Heads(heap + NextEntry(runs[k], written[k], k), runs, written, k + 1)
  {
    HeadsGrow(heap, runs, written, k);
  }

  lemma NextHeads(heap: multiset<Entry>, runs: Runs, written: seq<nat>, i: nat)
    requires Heads(heap, runs, written, |runs|) && |written| == |runs| && i < |runs| && written[i] < |runs[i]|
    ensures Heads(heap - multiset{Entry(runs[i][written[i]], i)} + NextEntry(runs[i], written[i] + 1, i),
                  runs, written[i := written[i] + 1], |runs|)
  {
    HeadsAdvance(heap, runs, written, i);
  }

  class Merger {
    const files: FileHandler
    const pq: PriorityQueue
    ghost var runs: seq<seq<Item>>
    ghost var written: seq<nat>

    constructor (files: FileHandler)
      ensures this.files == files && fresh(pq) && fresh(pq.pq) && Idle()
    {
      this.files := files;
      pq := new PriorityQueue(0);
      runs, written := [], [];
    }

    ghost predicate Idle()
      reads pq, pq.pq
    {
      pq.Safe() && pq.sz == 0 && pq.contents == multiset{}
    }

    ghost predicate Follows(read: seq<nat>)
      reads this`runs, files`readers, files`readersOpen
    {
      && |read| == |runs| == files.readersOpen <= |files.readers| && KeepsRuns(files.codec, runs)
      && forall i :: 0 <= i < |runs| ==>
        read[i] <= |runs[i]| && files.readers[i] == LeftOf(files.codec, runs[i], read[i])
    }

    // `written` items of each run have been popped, and the queue holds the next one of each.
    ghost predicate Merging()
      reads this`runs, this`written, files`readers, files`readersOpen, pq, pq.pq
    {
      pq.Safe() && |written| == |runs| >= 1
      && Heads(pq.contents, runs, written, |runs|) && Follows(ReadOf(runs, written, |runs|))
    }

    function Empty(): bool
      reads pq
    {
      pq.sz == 0
    }

    method PushFrom(idx: nat, ghost read: seq<nat>)
      requires TakesBytes(files.codec.t) && files.Reading() && Follows(read) && idx < |read| == |runs|
      requires pq.Safe() && pq.sz < pq.pq.Length
      modifies files`readers, pq`sz, pq`contents, pq.pq
      ensures files.Reading() && Follows(read[idx := ReadNext(runs[idx], read[idx])])
      ensures pq.Safe() && pq.sz <= old(pq.sz) + 1
        && pq.contents == old(pq.contents) + NextEntry(runs[idx], read[idx], idx)
    {
      hide LeftOf, NextItem, KeepsRuns, ReadsFrom, TakesBytes, PriorityQueue.Safe;
      KeptHere(files.codec, runs, idx);
      BytesLeft(files.codec, runs[idx], read[idx]);
      var r, can := files.CanRead(idx);
      if can {
        ReadsNext(files.codec, runs[idx], read[idx]);
        var _, v := files.Read(idx);
        pq.Push(Entry(v, idx));
      }
    }

    /** Starts merging the runs that were just opened. */
    method Init(fanout: nat)
      requires files.Reading() && files.readersOpen == fanout >= 1
      requires TakesBytes(files.codec.t)
      requires forall i :: 0 <= i < fanout ==> files.readers[i] == RunBytes(files.codec, files.runs[i])
      modifies this, files`readers, pq, pq.pq
      ensures Merging() && files.Reading() && fresh(pq.pq)
      ensures runs == files.runs[..fanout] && (forall i :: 0 <= i < fanout ==> written[i] == 0)
    {
      hide Heads, PriorityQueue.Safe, HoldsHeads, NextEntry, ReadNext;
      pq.Resize(fanout);
      runs := files.runs[..fanout];
      written := seq(fanout, _ => 0);
      FirstHeads(runs, written);
      KeepsParts(files.codec, files.runs, fanout);
      forall i | 0 <= i < fanout ensures files.readers[i] == LeftOf(files.codec, runs[i], 0) {
        LeftAtFirst(files.codec, runs[i]);
      }
      PushLeading(fanout);
    }

    method PushLeading(fanout: nat)
      requires TakesBytes(files.codec.t)
      requires files.Reading() && |runs| == |written| == fanout && forall i :: 0 <= i < fanout ==> written[i] == 0
      requires pq.Safe() && pq.sz == 0 && pq.pq.Length == fanout
      requires Heads(pq.contents, runs, written, 0) && Follows(ReadOf(runs, written, 0))
      modifies files`readers, pq`sz, pq`contents, pq.pq
      ensures files.Reading() && pq.Safe()
      ensures Heads(pq.contents, runs, written, fanout) && Follows(ReadOf(runs, written, fanout))
    {
      hide Heads, Follows, PriorityQueue.Safe, FileHandler.Reading, HoldsHeads, ReadOf, ReadNext, NextEntry;
      for i := 0 to fanout
        modifies files`readers, pq`sz, pq`contents, pq.pq
        invariant pq.sz <= i && pq.Safe()
        invariant files.Reading() && Heads(pq.contents, runs, written, i) && Follows(ReadOf(runs, written, i))
      {
        MoreHeads(pq.contents, runs, written, i);
        ReadFirst(runs, written, i);
        PushFrom(i, ReadOf(runs, written, i));
      }
    }

    /** The leading item of a run, no larger than any other. */
    method Top() returns (item: Item, ghost run: nat)
      requires Merging() && !Empty()
      ensures run < |runs| && written[run] < |runs[run]| && item == runs[run][written[run]]
      ensures pq.pq[0] == Entry(item, run) && Keeps(files.codec, item)
      ensures forall j :: 0 <= j < |runs| && written[j] < |runs[j]| ==> item.key <= runs[j][written[j]].key
    {
      var e := pq.Top();
      item, run := e.item, e.run;
      LeastHead(pq.contents, runs, written, run, item);
    }

    lemma WithinQueue()
      requires pq.Safe()
      ensures pq.sz <= pq.pq.Length
    {
    }

    method Pop(ghost item: Item, ghost run: nat)
      requires TakesBytes(files.codec.t) && Merging() && !Empty() && files.Reading() && pq.pq[0] == Entry(item, run)
      requires run < |runs| && written[run] < |runs[run]| && item == runs[run][written[run]]
      modifies this`written, files`readers, pq`sz, pq`contents, pq.pq
      ensures Merging() && files.Reading() && written == old(written)[run := old(written)[run] + 1]
    {
      hide Heads, Follows, HoldsHeads, Progress, PriorityQueue.Safe, FileHandler.Reading, ReadOf, ReadNext, NextEntry;
      WithinQueue();
      var idx := pq.pq[0].run;
      ghost var heap, advanced, read := pq.contents, written[run := written[run] + 1], ReadOf(runs, written, |runs|);
      NextHeads(heap, runs, written, run);
      ReadAnother(runs, written, run);
      pq.Pop();
      assert pq.contents == heap - multiset{Entry(item, run)};
      PushFrom(idx, read);
      assert Heads(pq.contents, runs, advanced, |runs|);
      written := advanced;
    }

    /** An empty queue means that every run has been written out. */
    lemma EmptyMeansDone()
      requires Merging() && Empty()
      ensures HoldsHeads(multiset{}, runs, written, |runs|)
    {
      assert |pq.contents| == 0;
    }

    method Free()
      modifies pq
      ensures Idle() && fresh(pq.pq)
    {
      pq.Resize(0);
    }
  }
}
