/** What a k-way merge keeps: which items of each run are written, and which one leads it. */
module KWayMerge {
  import opened Order
  import opened InternalPriorityQueue

  type Runs = seq<seq<Item>>

  ghost predicate Progress(runs: Runs, written: seq<nat>) {
    |written| == |runs| && forall i :: 0 <= i < |runs| ==> written[i] <= |runs[i]|
  }

  // Whether an entry is the leading item of an unfinished run among the first k.
  ghost predicate IsHead(runs: Runs, written: seq<nat>, k: nat, e: Entry)
    requires Progress(runs, written) && k <= |runs|
  {
    e.run < k && written[e.run] < |runs[e.run]| && e.item == runs[e.run][written[e.run]]
  }

  // The heap holds the leading item of each unfinished run once, and nothing else.
  ghost predicate HoldsHeads(heap: multiset<Entry>, runs: Runs, written: seq<nat>, k: nat)
    requires Progress(runs, written) && k <= |runs|
  {
    forall e :: heap[e] == if IsHead(runs, written, k, e) then 1 else 0
  }

  // The items already written of the first k runs.
  ghost function Written(runs: Runs, written: seq<nat>, k: nat): multiset<Item>
    requires Progress(runs, written) && k <= |runs|
  {
    if k == 0 then multiset{} else Written(runs, written, k - 1) + multiset(runs[k - 1][..written[k - 1]])
  }

  ghost predicate AllSorted(runs: Runs) {
    forall i :: 0 <= i < |runs| ==> Sorted(runs[i])
  }

  // The output is what was written of the runs, and it is in order when the runs are.
  ghost predicate MergeState(runs: Runs, written: seq<nat>, output: seq<Item>) {
    && Progress(runs, written)
    && multiset(output) == Written(runs, written, |runs|)
    && (AllSorted(runs) ==> Sorted(output) && NothingTooLarge(runs, written, output))
  }

  ghost predicate NothingTooLarge(runs: Runs, written: seq<nat>, output: seq<Item>)
    requires Progress(runs, written)
  {
    forall i, j :: 0 <= i < |runs| && written[i] < |runs[i]| && 0 <= j < |output|
      ==> output[j].key <= runs[i][written[i]].key
  }

  ghost function NextEntry(run: seq<Item>, w: nat, i: nat): multiset<Entry> {
    if w < |run| then multiset{Entry(run[w], i)} else multiset{}
  }

  lemma NoHeads(runs: Runs, written: seq<nat>)
    requires Progress(runs, written)
    ensures HoldsHeads(multiset{}, runs, written, 0)
  {
  }

  lemma HeadsGrow(heap: multiset<Entry>, runs: Runs, written: seq<nat>, k: nat)
    requires Progress(runs, written) && k < |runs| && HoldsHeads(heap, runs, written, k)
    ensures HoldsHeads(heap + NextEntry(runs[k], written[k], k), runs, written, k + 1)
  {
  }

  /** Replacing a run's head by its next item, if there is one, keeps the heads. */
  lemma HeadsAdvance(heap: multiset<Entry>, runs: Runs, written: seq<nat>, i: nat)
    requires Progress(runs, written) && HoldsHeads(heap, runs, written, |runs|)
    requires i < |runs| && written[i] < |runs[i]|
    ensures var written' := written[i := written[i] + 1];
            HoldsHeads(heap - multiset{Entry(runs[i][written[i]], i)} + NextEntry(runs[i], written'[i], i),
              runs, written', |runs|)
  {
    assert IsHead(runs, written, |runs|, Entry(runs[i][written[i]], i));
  }

  lemma {:induction false} WrittenElsewhere(runs: Runs, written: seq<nat>, k: nat, i: nat)
    requires Progress(runs, written) && k <= i < |runs| && written[i] < |runs[i]|
    ensures Written(runs, written[i := written[i] + 1], k) == Written(runs, written, k)
  {
    if k > 0 {
      WrittenElsewhere(runs, written, k - 1, i);
    }
  }

  lemma {:induction false} WrittenAdvance(runs: Runs, written: seq<nat>, k: nat, i: nat)
    requires Progress(runs, written) && i < k <= |runs| && written[i] < |runs[i]|
    ensures Written(runs, written[i := written[i] + 1], k) == Written(runs, written, k) + multiset{runs[i][written[i]]}
  {
    if i == k - 1 {
      WrittenElsewhere(runs, written, k - 1, i);
      TakeOneMore(runs[i], written[i]);
    } else {
      WrittenAdvance(runs, written, k - 1, i);
    }
  }

  /** Writing a least head and moving to the next item of its run keeps the merge state. */
  lemma MergeStep(runs: Runs, written: seq<nat>, output: seq<Item>, i: nat)
    requires MergeState(runs, written, output)
    requires i < |runs| && written[i] < |runs[i]|
    requires forall j :: 0 <= j < |runs| && written[j] < |runs[j]| ==>
      runs[i][written[i]].key <= runs[j][written[j]].key
    ensures MergeState(runs, written[i := written[i] + 1], output + [runs[i][written[i]]])
  {
    WrittenAdvance(runs, written, |runs|, i);
    var written', output' := written[i := written[i] + 1], output + [runs[i][written[i]]];
    if AllSorted(runs) {
      forall k, j | 0 <= k < |runs| && written'[k] < |runs[k]| && 0 <= j < |output'|
        ensures output'[j].key <= runs[k][written'[k]].key
      {
        assert runs[k][written[k]].key <= runs[k][written'[k]].key;
      }
    }
  }

  lemma {:induction false} NothingWritten(runs: Runs, written: seq<nat>, k: nat)
    requires Progress(runs, written) && k <= |runs|
    requires forall i :: 0 <= i < |runs| ==> written[i] == 0
    ensures Written(runs, written, k) == multiset{}
  {
    if k > 0 {
      NothingWritten(runs, written, k - 1);
    }
  }

  lemma MergeStart(runs: Runs, written: seq<nat>)
    requires |written| == |runs| && forall i :: 0 <= i < |runs| ==> written[i] == 0
    ensures Progress(runs, written) && MergeState(runs, written, [])
  {
    NothingWritten(runs, written, |runs|);
  }

  lemma {:induction false} EverythingWritten(runs: Runs, written: seq<nat>, k: nat)
    requires Progress(runs, written) && k <= |runs|
    requires forall i :: 0 <= i < |runs| ==> written[i] == |runs[i]|
    ensures Written(runs, written, k) == AllItems(runs[..k])
  {
    if k > 0 {
      EverythingWritten(runs, written, k - 1);
      AllItemsNext(runs, k - 1);
      assert runs[k - 1][..|runs[k - 1]|] == runs[k - 1];
    }
  }

  /** When no head is left, the output is a permutation of the runs, sorted if they are. */
  lemma MergeDone(runs: Runs, written: seq<nat>, output: seq<Item>)
    requires MergeState(runs, written, output)
    requires HoldsHeads(multiset{}, runs, written, |runs|)
    ensures multiset(output) == AllItems(runs)
    ensures AllSorted(runs) ==> Sorted(output)
    ensures forall i :: 0 <= i < |runs| ==> written[i] == |runs[i]|
  {
    forall i | 0 <= i < |runs| ensures written[i] == |runs[i]| {
      var head := Entry(if written[i] < |runs[i]| then runs[i][written[i]] else Item(0, 0), i);
      assert !IsHead(runs, written, |runs|, head);
    }
    EverythingWritten(runs, written, |runs|);
    assert runs[..|runs|] == runs;
  }

  /** No more is written than there is. */
  lemma {:induction false} WrittenBounded(runs: Runs, written: seq<nat>, k: nat)
    requires Progress(runs, written) && k <= |runs|
    ensures |Written(runs, written, k)| <= |AllItems(runs[..k])|
  {
    if k > 0 {
      WrittenBounded(runs, written, k - 1);
      AllItemsNext(runs, k - 1);
    }
  }

  lemma MergedBounded(runs: Runs, written: seq<nat>, output: seq<Item>)
    requires MergeState(runs, written, output)
    ensures |output| <= |AllItems(runs)|
  {
    WrittenBounded(runs, written, |runs|);
    assert |multiset(output)| == |output|;
    assert runs[..|runs|] == runs;
  }

  /** A least entry of the heap is a head that no other head is below. */
  lemma LeastHead(heap: multiset<Entry>, runs: Runs, written: seq<nat>, i: nat, item: Item)
    requires Progress(runs, written) && HoldsHeads(heap, runs, written, |runs|)
    requires Entry(item, i) in heap
    requires forall e :: e in heap ==> item.key <= e.item.key
    ensures i < |runs| && written[i] < |runs[i]| && item == runs[i][written[i]]
    ensures forall j :: 0 <= j < |runs| && written[j] < |runs[j]| ==> item.key <= runs[j][written[j]].key
  {
    forall j | 0 <= j < |runs| && written[j] < |runs[j]| ensures item.key <= runs[j][written[j]].key {
      assert IsHead(runs, written, |runs|, Entry(runs[j][written[j]], j));
    }
  }
}
