/** The k-way merge of tpie/merge_sorted_runs.h. */
module SortedRuns {
  import opened Options
  import opened Order
  import opened InternalPriorityQueue
  import opened FileStreams
  import opened MergeHeaps
  import opened KWayMerge

  // How many of a stream's remaining items one merge takes. A cut-off of -1 means all of them;
  // the first item is taken before the cut-off is looked at.
  function Quota(cutoff: int, remaining: nat): (q: nat)
    ensures q <= remaining
    ensures cutoff == -1 ==> q == remaining
    ensures cutoff >= 1 ==> q == if cutoff < remaining then cutoff else remaining
  {
    if cutoff == -1 then remaining
    else if cutoff <= 1 then if remaining < 1 then remaining else 1
    else if remaining < cutoff then remaining else cutoff
  }

  // The items one merge takes from a stream, and the stream after it.
  function Taken(s: Stream, cutoff: int): seq<Item>
    requires s.Valid()
  {
    s.items[s.pos..s.pos + Quota(cutoff, s.Remaining())]
  }

  function Rest(s: Stream, cutoff: int): Stream
    requires s.Valid()
  {
    s.(pos := s.pos + Quota(cutoff, s.Remaining()))
  }

  ghost predicate ValidStreams(streams: seq<Stream>) {
    forall i :: 0 <= i < |streams| ==> streams[i].Valid()
  }

  ghost function TakenRuns(streams: seq<Stream>, cutoff: int): (runs: Runs)
    requires ValidStreams(streams)
    ensures |runs| == |streams|
    ensures forall i :: 0 <= i < |streams| ==> runs[i] == Taken(streams[i], cutoff)
  {
    seq(|streams|, i requires 0 <= i < |streams| => Taken(streams[i], cutoff))
  }

  // How many items of a run have been read when w of them are written: the leading item too.
  function Fetched(w: nat, length: nat): nat {
    if w < length then w + 1 else length
  }

  // What the merge keeps about a stream: its position, its leading item and its read count.
  ghost predicate Leading(start: Stream, now: Stream, run: seq<Item>, w: nat, inObject: Option<Item>, nread: int) {
    && now == start.(pos := start.pos + Fetched(w, |run|))
    && (w < |run| ==> inObject == Some(run[w]) && nread == w + 1)
  }

  ghost predicate Cursors(start: seq<Stream>, cutoff: int, written: seq<nat>, streams: seq<Stream>,
                          inObjects: seq<Option<Item>>, nread: seq<int>)
    requires ValidStreams(start)
  {
    && |inObjects| == |nread| == |streams| == |written| == |start|
    && forall k :: 0 <= k < |start| ==>
      Leading(start[k], streams[k], Taken(start[k], cutoff), written[k], inObjects[k], nread[k])
  }

  // Before anything is written, the leading item is the one the stream could read first.
  lemma LeadingFirst(s: Stream, cutoff: int)
    requires s.Valid()
    ensures s.CanRead() ==>
      && Leading(s, s.(pos := s.pos + 1), Taken(s, cutoff), 0, Some(s.items[s.pos]), 1)
      && |Taken(s, cutoff)| >= 1 && Taken(s, cutoff)[0] == s.items[s.pos]
    ensures !s.CanRead() ==> Leading(s, s, Taken(s, cutoff), 0, None, 1) && Taken(s, cutoff) == []
  {
  }

  /** Reads the first item of each stream into the heap. */
  method ReadLeading(start: seq<Stream>, cutoff: int, heap: MergeHeap, ghost zero: seq<nat>)
    returns (streams: seq<Stream>, inObjects: seq<Option<Item>>, nread: seq<int>)
    requires ValidStreams(start)
    requires |zero| == |start| && forall k :: 0 <= k < |zero| ==> zero[k] == 0
    requires heap.Valid() && heap.Contents() == multiset{} && heap.SizeOfHeap() == 0 && |start| <= heap.Capacity()
    modifies heap.pq`sz, heap.pq`contents, heap.pq.pq
    ensures heap.Valid() && HoldsHeads(heap.Contents(), TakenRuns(start, cutoff), zero, |start|)
    ensures Cursors(start, cutoff, zero, streams, inObjects, nread)
  {
    hide Leading, Taken, HoldsHeads, NextEntry, PriorityQueue.Valid;
    ghost var runs := TakenRuns(start, cutoff);
    NoHeads(runs, zero);
    streams, inObjects, nread := start, seq(|start|, _ => None), seq(|start|, _ => 0);
    for i := 0 to |start|
      invariant heap.Valid() && heap.SizeOfHeap() <= i
      invariant HoldsHeads(heap.Contents(), runs, zero, i)
      invariant |inObjects| == |nread| == |streams| == |start|
      invariant forall k :: 0 <= k < i ==> Leading(start[k], streams[k], runs[k], 0, inObjects[k], nread[k])
      invariant forall k :: i <= k < |start| ==> streams[k] == start[k]
    {
      HeadsGrow(heap.Contents(), runs, zero, i);
      var now, inObject := ReadFirst(streams[i], cutoff, heap, i);
      streams, inObjects, nread := streams[i := now], inObjects[i := inObject], nread[i := 1];
    }
  }

  // The first item of stream i, if it has one, goes into the heap.
  method ReadFirst(stream: Stream, ghost cutoff: int, heap: MergeHeap, i: nat)
    returns (now: Stream, inObject: Option<Item>)
    requires stream.Valid() && heap.Valid() && heap.SizeOfHeap() < heap.Capacity()
    modifies heap.pq`sz, heap.pq`contents, heap.pq.pq
    ensures heap.Valid() && heap.SizeOfHeap() <= old(heap.SizeOfHeap()) + 1
    ensures heap.Contents() == old(heap.Contents()) + NextEntry(Taken(stream, cutoff), 0, i)
    ensures Leading(stream, now, Taken(stream, cutoff), 0, inObject, 1)
  {
    LeadingFirst(stream, cutoff);
    now, inObject := stream, None;
    if stream.CanRead() {
      now, inObject := stream.(pos := stream.pos + 1), Some(stream.items[stream.pos]);
      heap.Insert(stream.items[stream.pos], i);
    }
  }

  /** The next item of the stream just written from, unless the cut-off or its end is reached. */
  method FetchNext(ghost start: Stream, stream: Stream, cutoff: int, ghost w: nat, ghost inObject: Option<Item>,
      nread: int)
    returns (now: Stream, next: Option<Item>)
    requires start.Valid() && w < |Taken(start, cutoff)|
    requires Leading(start, stream, Taken(start, cutoff), w, inObject, nread)
    ensures next == if w + 1 < |Taken(start, cutoff)| then Some(Taken(start, cutoff)[w + 1]) else None
    ensures Leading(start, now, Taken(start, cutoff), w + 1, next, nread + 1)
  {
    now, next := stream, None;
    if !(cutoff != -1 && nread >= cutoff) {
      if stream.CanRead() {
        next := Some(stream.items[stream.pos]);
        now := stream.(pos := stream.pos + 1);
      }
    }
  }

  lemma CursorAt(start: seq<Stream>, cutoff: int, written: seq<nat>, streams: seq<Stream>,
                 inObjects: seq<Option<Item>>, nread: seq<int>, i: nat)
    requires ValidStreams(start) && Cursors(start, cutoff, written, streams, inObjects, nread)
    requires i < |start| && written[i] < |Taken(start[i], cutoff)|
    ensures |inObjects| == |nread| == |streams| == |written| == |start| && start[i].Valid()
    ensures Leading(start[i], streams[i], Taken(start[i], cutoff), written[i], inObjects[i], nread[i])
    ensures inObjects[i] == Some(Taken(start[i], cutoff)[written[i]])
  {
  }

  lemma CursorMoves(start: seq<Stream>, cutoff: int, written: seq<nat>, streams: seq<Stream>,
                    inObjects: seq<Option<Item>>, nread: seq<int>, i: nat, stream: Stream, next: Option<Item>)
    requires ValidStreams(start) && Cursors(start, cutoff, written, streams, inObjects, nread) && i < |start|
    requires Leading(start[i], stream, Taken(start[i], cutoff), written[i] + 1, next, nread[i] + 1)
    ensures Cursors(start, cutoff, written[i := written[i] + 1],
                    streams[i := stream], inObjects[i := next], nread[i := nread[i] + 1])
  {
  }

  lemma CursorsDone(start: seq<Stream>, cutoff: int, written: seq<nat>, streams: seq<Stream>,
                    inObjects: seq<Option<Item>>, nread: seq<int>)
    requires ValidStreams(start) && Cursors(start, cutoff, written, streams, inObjects, nread)
    requires forall i :: 0 <= i < |start| ==> written[i] == |Taken(start[i], cutoff)|
    ensures |streams| == |start| && forall k :: 0 <= k < |start| ==> streams[k] == Rest(start[k], cutoff)
  {
  }

  /** One round of the merge: the least head is written, and its run moves on. */
  method MergeOne(start: seq<Stream>, cutoff: int, streams: seq<Stream>, inObjects: seq<Option<Item>>, nread: seq<int>,
                  out: FileStream, heap: MergeHeap, ghost written: seq<nat>, ghost merged: seq<Item>)
    returns (streams': seq<Stream>, inObjects': seq<Option<Item>>, nread': seq<int>,
             ghost written': seq<nat>, ghost item: Item)
    requires ValidStreams(start) && out.s.Valid() && heap.Safe() && heap.SizeOfHeap() > 0
    requires Cursors(start, cutoff, written, streams, inObjects, nread)
    requires Progress(TakenRuns(start, cutoff), written) && MergeState(TakenRuns(start, cutoff), written, merged)
    requires HoldsHeads(heap.Contents(), TakenRuns(start, cutoff), written, |start|)
    modifies out, heap.pq`sz, heap.pq`contents, heap.pq.pq
    ensures heap.Safe() && out.s == old(out.s).Write([item])
    ensures Cursors(start, cutoff, written', streams', inObjects', nread')
    ensures Progress(TakenRuns(start, cutoff), written')
      && MergeState(TakenRuns(start, cutoff), written', merged + [item])
    ensures HoldsHeads(heap.Contents(), TakenRuns(start, cutoff), written', |start|)
  {
    hide MergeState, HoldsHeads, Cursors;
    ghost var runs := TakenRuns(start, cutoff);
    var i;
    i, item := heap.GetMinRunId();
    LeastHead(heap.Contents(), runs, written, i, item);
    MergeStep(runs, written, merged, i);
    HeadsAdvance(heap.Contents(), runs, written, i);
    CursorAt(start, cutoff, written, streams, inObjects, nread, i);
    out.Write(inObjects[i].value);
    var stream, next := FetchNext(start[i], streams[i], cutoff, written[i], inObjects[i], nread[i]);
    CursorMoves(start, cutoff, written, streams, inObjects, nread, i, stream, next);
    heap.DeleteMinAndInsert(next);
    streams', inObjects', nread' := streams[i := stream], inObjects[i := next], nread[i := nread[i] + 1];
    written' := written[i := written[i] + 1];
  }

  /** Merges the runs the streams stand at, each cut off after `cutoff` items, onto the output. */
  method MergeSortedRuns(start: seq<Stream>, out: FileStream, heap: MergeHeap, cutoff: int)
    returns (streams: seq<Stream>, ghost merged: seq<Item>)
    requires ValidStreams(start) && out.s.Valid()
    requires heap.Valid() && heap.Contents() == multiset{} && heap.SizeOfHeap() == 0 && |start| <= heap.Capacity()
    modifies out, heap.pq`sz, heap.pq`contents, heap.pq.pq
    ensures heap.Valid() && heap.Contents() == multiset{} && heap.SizeOfHeap() == 0
    ensures out.s == old(out.s).Write(merged)
    ensures multiset(merged) == AllItems(TakenRuns(start, cutoff))
    ensures AllSorted(TakenRuns(start, cutoff)) ==> Sorted(merged)
    ensures |streams| == |start| && forall k :: 0 <= k < |start| ==> streams[k] == Rest(start[k], cutoff)
  {
    hide MergeState, HoldsHeads, Cursors, AllSorted;
    ghost var written := seq(|start|, _ => 0);
    merged := [];
    MergeStart(TakenRuns(start, cutoff), written);
    var inObjects, nread;
    streams, inObjects, nread := ReadLeading(start, cutoff, heap, written);
    heap.Initialize();
    heap.EmptyIff();
    WriteNothing(out.s);
    while heap.SizeOfHeap() > 0
      invariant heap.Safe() && (heap.SizeOfHeap() == 0 <==> heap.Contents() == multiset{})
      invariant out.s == old(out.s).Write(merged) && out.s.Valid()
      invariant Cursors(start, cutoff, written, streams, inObjects, nread)
      invariant Progress(TakenRuns(start, cutoff), written) && MergeState(TakenRuns(start, cutoff), written, merged)
      invariant HoldsHeads(heap.Contents(), TakenRuns(start, cutoff), written, |start|)
      invariant |merged| <= |AllItems(TakenRuns(start, cutoff))|
      decreases |AllItems(TakenRuns(start, cutoff))| - |merged|
    {
      ghost var item;
      streams, inObjects, nread, written, item := MergeOne(start, cutoff, streams, inObjects, nread, out, heap,
          written, merged);
      WriteMore(old(out.s), merged, [item]);
      merged := merged + [item];
      MergedBounded(TakenRuns(start, cutoff), written, merged);
      heap.EmptyIff();
    }
    MergeDone(TakenRuns(start, cutoff), written, merged);
    CursorsDone(start, cutoff, written, streams, inObjects, nread);
  }
}
