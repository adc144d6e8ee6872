/** How runs are packed into the files of one merge level, and what one level does to them. */
module MergeLevels {
  import opened Arithmetic
  import opened Order
  import opened FileStreams
  import KWayMerge
  import opened SortedRuns

  type RunList = seq<seq<Item>>

  // How many of n runs the file f of `arity` files gets: the extra runs go to the last files.
  function RunsIn(arity: nat, n: nat, f: nat): nat
    requires arity >= 1
  {
    n / arity + if f + n % arity >= arity then 1 else 0
  }

  // How many runs the files before f have together.
  function RunsBefore(arity: nat, n: nat, f: nat): nat
    requires arity >= 1
  {
    if f == 0 then 0 else RunsBefore(arity, n, f - 1) + RunsIn(arity, n, f - 1)
  }

  lemma {:induction false} RunsBeforeIs(arity: nat, n: nat, f: nat)
    requires arity >= 1 && f <= arity
    ensures RunsBefore(arity, n, f) == f * (n / arity) + if f + n % arity >= arity then f + n % arity - arity else 0
  {
    if f > 0 {
      RunsBeforeIs(arity, n, f - 1);
      assert f * (n / arity) == (f - 1) * (n / arity) + n / arity;
    }
  }

  /** The files hold exactly the n runs. */
  lemma AllRunsPlaced(arity: nat, n: nat)
    requires arity >= 1
    ensures RunsBefore(arity, n, arity) == n
  {
    RunsBeforeIs(arity, n, arity);
    assert arity * (n / arity) + n % arity == n;
  }

  lemma {:induction false} RunsBeforeMonotone(arity: nat, n: nat, f: nat, g: nat)
    requires arity >= 1 && f <= g
    ensures RunsBefore(arity, n, f) <= RunsBefore(arity, n, g)
    decreases g
  {
    if f < g {
      RunsBeforeMonotone(arity, n, f, g - 1);
    }
  }

  lemma PlacedWithin(arity: nat, n: nat, f: nat)
    requires arity >= 1 && f < arity
    ensures RunsBefore(arity, n, f) + RunsIn(arity, n, f) == RunsBefore(arity, n, f + 1) <= n
  {
    RunsBeforeMonotone(arity, n, f + 1, arity);
    AllRunsPlaced(arity, n);
  }

  // The runs file f holds.
  ghost function FileRuns(runs: RunList, arity: nat, f: nat): (r: RunList)
    requires arity >= 1 && f < arity
    ensures |r| == RunsIn(arity, |runs|, f)
    ensures forall j :: 0 <= j < |r| ==>
      RunsBefore(arity, |runs|, f) + j < |runs| && r[j] == runs[RunsBefore(arity, |runs|, f) + j]
  {
    PlacedWithin(arity, |runs|, f);
    runs[RunsBefore(arity, |runs|, f)..RunsBefore(arity, |runs|, f + 1)]
  }

  lemma FileRunIs(runs: RunList, arity: nat, f: nat, j: nat)
    requires arity >= 1 && f < arity && j < RunsIn(arity, |runs|, f)
    ensures RunsBefore(arity, |runs|, f) + j < |runs|
    ensures FileRuns(runs, arity, f)[j] == runs[RunsBefore(arity, |runs|, f) + j]
  {
    PlacedWithin(arity, |runs|, f);
  }

  // A run of a level: in order, and of full length unless it is the very last one.
  ghost predicate GoodRun(run: seq<Item>, length: nat, isLast: bool) {
    Sorted(run) && 1 <= |run| <= length && (!isLast ==> |run| == length)
  }

  ghost predicate GoodRuns(runs: RunList, length: nat) {
    forall k :: 0 <= k < |runs| ==> GoodRun(runs[k], length, k == |runs| - 1)
  }

  // File f holds its share of the n runs, back to back, as far as they are written.
  ghost predicate FilePacked(files: RunList, off: nat, runs: RunList, arity: nat, n: nat, f: nat) {
    && arity >= 1 && off + f < |files|
    && RunsBefore(arity, n, f) <= RunsBefore(arity, n, f + 1) <= |runs|
    && files[off + f] == Flatten(runs[RunsBefore(arity, n, f)..RunsBefore(arity, n, f + 1)])
  }

  ghost predicate PackedUpTo(files: RunList, off: nat, runs: RunList, arity: nat, n: nat, k: nat) {
    forall f :: 0 <= f < k ==> FilePacked(files, off, runs, arity, n, f)
  }

  /** One merge level: `arity` files in which the runs lie back to back, without any marks. */
  ghost predicate Level(files: RunList, off: nat, runs: RunList, arity: nat, length: nat) {
    && arity >= 1 && |runs| >= 1 && length >= 1 && off + arity <= |files|
    && GoodRuns(runs, length) && PackedUpTo(files, off, runs, arity, |runs|, arity)
  }

  lemma FileManyRuns(files: RunList, off: nat, runs: RunList, runs': RunList, arity: nat, n: nat, f: nat)
    requires FilePacked(files, off, runs, arity, n, f) && runs <= runs'
    ensures FilePacked(files, off, runs', arity, n, f)
  {
    var i, j := RunsBefore(arity, n, f), RunsBefore(arity, n, f + 1);
    assert runs'[i..j] == runs[i..j];
  }

  // The next file gets all the runs that were written since the file before it.
  lemma PackedExtend(files: RunList, off: nat, runs: RunList, runs': RunList, arity: nat, n: nat, k: nat)
    requires PackedUpTo(files, off, runs, arity, n, k) && runs <= runs'
    requires arity >= 1 && off + k < |files|
    requires RunsBefore(arity, n, k) == |runs| && RunsBefore(arity, n, k + 1) == |runs'|
    ensures PackedUpTo(files[off + k := Flatten(runs'[|runs|..])], off, runs', arity, n, k + 1)
  {
    var files' := files[off + k := Flatten(runs'[|runs|..])];
    assert runs'[|runs|..|runs'|] == runs'[|runs|..];
    forall f | 0 <= f < k + 1 ensures FilePacked(files', off, runs', arity, n, f) {
      if f < k {
        assert FilePacked(files, off, runs, arity, n, f);
        FileManyRuns(files, off, runs, runs', arity, n, f);
      }
    }
  }

  lemma PackedSame(files: RunList, files': RunList, off: nat, runs: RunList, arity: nat, n: nat, k: nat)
    requires PackedUpTo(files, off, runs, arity, n, k) && |files'| == |files|
    requires forall i :: off <= i < off + k && i < |files| ==> files'[i] == files[i]
    ensures PackedUpTo(files', off, runs, arity, n, k)
  {
    forall f | 0 <= f < k ensures FilePacked(files', off, runs, arity, n, f) {
      assert FilePacked(files, off, runs, arity, n, f);
    }
  }

  lemma NothingPacked(files: RunList, off: nat, runs: RunList, arity: nat, n: nat)
    ensures PackedUpTo(files, off, runs, arity, n, 0)
  {
  }

  lemma LevelIs(files: RunList, off: nat, runs: RunList, arity: nat, length: nat)
    requires arity >= 1 && |runs| >= 1 && length >= 1 && off + arity <= |files|
    requires GoodRuns(runs, length) && PackedUpTo(files, off, runs, arity, |runs|, arity)
    ensures Level(files, off, runs, arity, length)
  {
  }

  // Files that get no run stay empty.
  lemma {:induction false} PackedEmpty(files: RunList, off: nat, arity: nat, n: nat, k: nat)
    requires arity >= 1 && off + k <= |files|
    requires k + n % arity <= arity && (k > 0 ==> n < arity)
    requires forall i :: off <= i < off + k ==> files[i] == []
    ensures PackedUpTo(files, off, [], arity, n, k) && RunsBefore(arity, n, k) == 0
  {
    if k > 0 {
      PackedEmpty(files, off, arity, n, k - 1);
      assert n / arity == 0;
      assert FilePacked(files, off, [], arity, n, k - 1);
    }
  }

  lemma {:induction false} RunsTotal(runs: RunList, length: nat)
    requires |runs| >= 1 && GoodRuns(runs, length)
    ensures (|runs| - 1) * length < |AllItems(runs)| <= |runs| * length
  {
    var k := |runs| - 1;
    FullRunsTotal(runs[..k], length);
    assert runs == runs[..k] + [runs[k]];
    AllItemsAppend(runs[..k], runs[k]);
    assert |multiset(runs[k])| == |runs[k]|;
    assert GoodRun(runs[k], length, true);
    assert |runs| * length == k * length + length;
  }

  lemma {:induction false} FullRunsTotal(runs: RunList, length: nat)
    requires forall k :: 0 <= k < |runs| ==> |runs[k]| == length
    ensures |AllItems(runs)| == |runs| * length
  {
    if runs != [] {
      FullRunsTotal(runs[1..], length);
      assert |multiset(runs[0])| == length;
      MulNext(|runs| - 1, length);
    }
  }

  /** At every level the number of runs is the number of items over the run length, rounded up. */
  lemma RunCount(runs: RunList, length: nat)
    requires |runs| >= 1 && length >= 1 && GoodRuns(runs, length)
    ensures |runs| == Ceil(|AllItems(runs)|, length)
  {
    RunsTotal(runs, length);
    CeilUnique(|AllItems(runs)|, length, |runs|);
  }

  // ---------- One round of a level merges one run from each file that has one left

  // How many files take part in round r: all, except in the last round when files have extra runs.
  function RunsMerged(arity: nat, n: nat, r: nat): (m: nat)
    requires arity >= 1
  {
    if r + 1 == Ceil(n, arity) && n % arity > 0 then n % arity else arity
  }

  /** The files that still have a run in round r are exactly the last RunsMerged ones. */
  lemma TakesPart(arity: nat, n: nat, f: nat, r: nat)
    requires arity >= 1 && n >= 1 && f < arity && r < Ceil(n, arity)
    ensures 1 <= RunsMerged(arity, n, r) <= arity
    ensures r < RunsIn(arity, n, f) <==> f >= arity - RunsMerged(arity, n, r)
    ensures r >= RunsIn(arity, n, f) ==> r == RunsIn(arity, n, f)
  {
    CeilDivision(n, arity);
  }

  ghost function StreamAt(runs: RunList, arity: nat, f: nat, r: nat): Stream
    requires arity >= 1 && f < arity
  {
    var rs := FileRuns(runs, arity, f);
    Stream(Flatten(rs), |Flatten(rs[..Min(r, |rs|)])|)
  }

  ghost predicate StreamsAt(streams: seq<Stream>, runs: RunList, arity: nat, r: nat)
    requires arity >= 1
  {
    |streams| == arity && forall f :: 0 <= f < arity ==> streams[f] == StreamAt(runs, arity, f, r)
  }

  // The runs merged in round r.
  ghost function RoundRuns(runs: RunList, arity: nat, r: nat): (rr: RunList)
    requires arity >= 1 && r < Ceil(|runs|, arity) && |runs| >= 1
    ensures |rr| == RunsMerged(arity, |runs|, r)
  {
    var m := RunsMerged(arity, |runs|, r);
    seq(m, k requires 0 <= k < m =>
      TakesPart(arity, |runs|, arity - m + k, r);
      FileRuns(runs, arity, arity - m + k)[r])
  }

  // A stream at the start of a run, cut off after a run's length, gives exactly that run.
  lemma TakeRun(rs: RunList, r: nat, length: nat)
    requires r < |rs| && length >= 1 && |rs[r]| <= length && (|rs[r]| < length ==> r == |rs| - 1)
    ensures var s := Stream(Flatten(rs), |Flatten(rs[..r])|);
            && s.Valid()
            && Taken(s, length) == rs[r]
            && Rest(s, length) == Stream(Flatten(rs), |Flatten(rs[..r + 1])|)
  {
    var before, after := Flatten(rs[..r]), Flatten(rs[r + 1..]);
    assert rs == (rs[..r] + [rs[r]]) + rs[r + 1..];
    assert rs[..r + 1] == rs[..r] + [rs[r]];
    FlattenAppend(rs[..r], rs[r]);
    FlattenConcat(rs[..r + 1], rs[r + 1..]);
    assert Flatten(rs) == before + rs[r] + after;
  }

  lemma RunsInLast(arity: nat, n: nat)
    requires arity >= 1 && n >= 1
    ensures RunsIn(arity, n, arity - 1) == Ceil(n, arity)
    ensures RunsBefore(arity, n, arity - 1) + Ceil(n, arity) == n
  {
    CeilDivision(n, arity);
    AllRunsPlaced(arity, n);
  }

  /** The very last run is the last one of the last file. */
  lemma LastRunIsLast(arity: nat, n: nat, f: nat, j: nat)
    requires arity >= 1 && n >= 1 && f < arity && j < RunsIn(arity, n, f)
    ensures RunsBefore(arity, n, f) + j < n
    ensures RunsBefore(arity, n, f) + j + 1 == n <==> f == arity - 1 && j == RunsIn(arity, n, f) - 1
  {
    hide Ceil, RunsIn, RunsBefore;
    PlacedWithin(arity, n, f);
    RunsInLast(arity, n);
    assert Ceil(n, arity) >= 1 by { CeilBounds(n, arity); }
    if f < arity - 1 {
      RunsBeforeMonotone(arity, n, f + 1, arity - 1);
    }
  }

  // A run of round r is of full length, unless the round is the last one.
  lemma RoundRunLength(runs: RunList, arity: nat, length: nat, f: nat, r: nat)
    requires arity >= 1 && |runs| >= 1 && f < arity && GoodRuns(runs, length)
    requires r < Ceil(|runs|, arity) && r < |FileRuns(runs, arity, f)|
    ensures var run := FileRuns(runs, arity, f)[r];
            && Sorted(run) && 1 <= |run| <= length
            && (|run| < length ==> r == |FileRuns(runs, arity, f)| - 1 == Ceil(|runs|, arity) - 1)
  {
    hide Ceil, RunsBefore, Sorted;
    var k := RunsBefore(arity, |runs|, f) + r;
    FileRunIs(runs, arity, f, r);
    LastRunIsLast(arity, |runs|, f, r);
    assert GoodRun(runs[k], length, k == |runs| - 1);
    RunsInLast(arity, |runs|);
  }

  lemma StreamTakesRun(runs: RunList, arity: nat, length: nat, f: nat, r: nat)
    requires arity >= 1 && |runs| >= 1 && length >= 1 && f < arity && GoodRuns(runs, length)
    requires r < Ceil(|runs|, arity)
    ensures var s := StreamAt(runs, arity, f, r);
            && s.Valid()
            && (r < |FileRuns(runs, arity, f)| ==>
                  Taken(s, length) == FileRuns(runs, arity, f)[r] && Rest(s, length) == StreamAt(runs, arity, f, r + 1))
            && (r >= |FileRuns(runs, arity, f)| ==> s == StreamAt(runs, arity, f, r + 1))
  {
    var rs := FileRuns(runs, arity, f);
    if r < |rs| {
      RoundRunLength(runs, arity, length, f, r);
      TakeRun(rs, r, length);
    } else {
      assert rs[..|rs|] == rs;
    }
  }

  lemma StreamInRound(runs: RunList, arity: nat, length: nat, f: nat, r: nat)
    requires arity >= 1 && |runs| >= 1 && length >= 1 && f < arity && GoodRuns(runs, length)
    requires r < Ceil(|runs|, arity)
    ensures var first := arity - RunsMerged(arity, |runs|, r);
            var s := StreamAt(runs, arity, f, r);
            && s.Valid() && first >= 0
            && (f >= first ==>
              && Taken(s, length) == RoundRuns(runs, arity, r)[f - first]
              && Rest(s, length) == StreamAt(runs, arity, f, r + 1))
            && (f < first ==> s == StreamAt(runs, arity, f, r + 1))
  {
    hide StreamAt, Ceil;
    TakesPart(arity, |runs|, f, r);
    StreamTakesRun(runs, arity, length, f, r);
  }

  /** In every round the merged streams stand at their next run, and the cut-off takes just that. */
  lemma RoundIsAligned(runs: RunList, arity: nat, length: nat, r: nat, streams: seq<Stream>)
    requires arity >= 1 && |runs| >= 1 && length >= 1 && GoodRuns(runs, length)
    requires r < Ceil(|runs|, arity) && StreamsAt(streams, runs, arity, r)
    requires RunsMerged(arity, |runs|, r) <= arity
    ensures var part := streams[arity - RunsMerged(arity, |runs|, r)..];
            ValidStreams(part) && TakenRuns(part, length) == RoundRuns(runs, arity, r)
  {
    hide StreamAt, Taken, GoodRuns, Ceil, RunsMerged, RoundRuns;
    var first := arity - RunsMerged(arity, |runs|, r);
    var part, rr := streams[first..], RoundRuns(runs, arity, r);
    forall k | 0 <= k < |part|
      ensures part[k].Valid() && Taken(part[k], length) == rr[k]
    {
      StreamInRound(runs, arity, length, first + k, r);
    }
  }

  lemma RoundAdvances(runs: RunList, arity: nat, length: nat, r: nat, streams: seq<Stream>, part: seq<Stream>)
    requires arity >= 1 && |runs| >= 1 && length >= 1 && GoodRuns(runs, length)
    requires r < Ceil(|runs|, arity) && StreamsAt(streams, runs, arity, r)
    requires |part| <= arity && |part| == RunsMerged(arity, |runs|, r)
    requires |streams| == arity && ValidStreams(streams[arity - |part|..arity])
    requires forall k :: 0 <= k < |part| ==> part[k] == Rest(streams[arity - |part|..arity][k], length)
    ensures StreamsAt(streams[..arity - |part|] + part, runs, arity, r + 1)
  {
    hide StreamAt, Rest, GoodRuns, Ceil, RunsMerged, RoundRuns;
    var first := arity - |part|;
    var next := streams[..first] + part;
    forall f | 0 <= f < arity ensures next[f] == StreamAt(runs, arity, f, r + 1) {
      StreamInRound(runs, arity, length, f, r);
      if f >= first {
        assert next[f] == part[f - first] == Rest(streams[first..arity][f - first], length);
      }
    }
  }

  // ---------- What a level does to the items

  lemma {:induction false} ItemsBounds(runs: RunList, length: nat)
    requires forall k :: 0 <= k < |runs| ==> 1 <= |runs[k]| <= length
    ensures |runs| <= |AllItems(runs)| <= |runs| * length
  {
    if runs != [] {
      ItemsBounds(runs[1..], length);
      assert |multiset(runs[0])| == |runs[0]|;
      MulNext(|runs| - 1, length);
    }
  }

  /** Merging the runs of a round gives a good run of the next level. */
  lemma MergedRunIsGood(runs: RunList, arity: nat, length: nat, r: nat, merged: seq<Item>)
    requires arity >= 1 && |runs| >= 1 && length >= 1 && GoodRuns(runs, length)
    requires r < Ceil(|runs|, arity)
    requires multiset(merged) == AllItems(RoundRuns(runs, arity, r))
    requires KWayMerge.AllSorted(RoundRuns(runs, arity, r)) ==> Sorted(merged)
    ensures GoodRun(merged, arity * length, r + 1 == Ceil(|runs|, arity))
  {
    var rr := RoundRuns(runs, arity, r);
    TakesPart(arity, |runs|, arity - 1, r);
    forall k | 0 <= k < |rr|
      ensures Sorted(rr[k]) && 1 <= |rr[k]| <= length && (r + 1 < Ceil(|runs|, arity) ==> |rr[k]| == length)
    {
      TakesPart(arity, |runs|, arity - |rr| + k, r);
      RoundRunLength(runs, arity, length, arity - |rr| + k, r);
    }
    ItemsBounds(rr, length);
    MulMonotone(|rr|, arity, length);
    assert |multiset(merged)| == |merged|;
    if r + 1 < Ceil(|runs|, arity) {
      FullRunsTotal(rr, length);
    }
  }

  // The items of file f that are read after r rounds.
  ghost function ReadOf(runs: RunList, arity: nat, r: nat, f: nat): multiset<Item>
    requires arity >= 1 && f < arity
  {
    var rs := FileRuns(runs, arity, f);
    AllItems(rs[..Min(r, |rs|)])
  }

  // The items of the first k files that are read after r rounds.
  ghost function ReadItems(runs: RunList, arity: nat, r: nat, k: nat): multiset<Item>
    requires arity >= 1 && k <= arity
  {
    if k == 0 then multiset{} else ReadItems(runs, arity, r, k - 1) + ReadOf(runs, arity, r, k - 1)
  }

  lemma {:induction false} NothingRead(runs: RunList, arity: nat, k: nat)
    requires arity >= 1 && k <= arity
    ensures ReadItems(runs, arity, 0, k) == multiset{}
  {
    if k > 0 {
      NothingRead(runs, arity, k - 1);
    }
  }

  // A file that takes part in a round has one more run read by it, and another none.
  lemma RoundReadsOne(runs: RunList, arity: nat, r: nat, f: nat)
    requires arity >= 1 && f < arity && |runs| >= 1 && r < Ceil(|runs|, arity)
    ensures var first := arity - RunsMerged(arity, |runs|, r);
            && (f < first ==> ReadOf(runs, arity, r + 1, f) == ReadOf(runs, arity, r, f))
            && (f >= first ==>
                  ReadOf(runs, arity, r + 1, f) == ReadOf(runs, arity, r, f)
                    + multiset(RoundRuns(runs, arity, r)[f - first]))
  {
    hide AllItems;
    var rs := FileRuns(runs, arity, f);
    TakesPart(arity, |runs|, f, r);
    if r < |rs| {
      AllItemsNext(rs, r);
    }
  }

  lemma {:induction false} RoundSkips(runs: RunList, arity: nat, r: nat, k: nat)
    requires arity >= 1 && |runs| >= 1 && r < Ceil(|runs|, arity) && k <= arity - RunsMerged(arity, |runs|, r)
    ensures ReadItems(runs, arity, r + 1, k) == ReadItems(runs, arity, r, k)
  {
    if k > 0 {
      RoundSkips(runs, arity, r, k - 1);
      RoundReadsOne(runs, arity, r, k - 1);
    }
  }

  lemma {:induction false} RoundReads(runs: RunList, arity: nat, r: nat, k: nat)
    requires arity >= 1 && |runs| >= 1 && r < Ceil(|runs|, arity) && k <= |RoundRuns(runs, arity, r)| <= arity
    ensures var first := arity - RunsMerged(arity, |runs|, r);
            ReadItems(runs, arity, r + 1, first + k) == ReadItems(runs, arity, r, first + k)
              + AllItems(RoundRuns(runs, arity, r)[..k])
  {
    hide AllItems, RoundRuns, ReadOf;
    var first := arity - RunsMerged(arity, |runs|, r);
    if k == 0 {
      RoundSkips(runs, arity, r, first);
      NoItems(RoundRuns(runs, arity, r));
    } else {
      RoundReads(runs, arity, r, k - 1);
      RoundReadsOne(runs, arity, r, first + k - 1);
      AllItemsNext(RoundRuns(runs, arity, r), k - 1);
    }
  }

  lemma RoundReadsAll(runs: RunList, arity: nat, r: nat)
    requires arity >= 1 && |runs| >= 1 && r < Ceil(|runs|, arity)
    ensures ReadItems(runs, arity, r + 1, arity) == ReadItems(runs, arity, r, arity)
      + AllItems(RoundRuns(runs, arity, r))
  {
    hide AllItems, RoundRuns, ReadOf, ReadItems;
    var rr := RoundRuns(runs, arity, r);
    TakesPart(arity, |runs|, arity - 1, r);
    RoundReads(runs, arity, r, |rr|);
    assert rr[..|rr|] == rr;
  }

  lemma EverythingReadOf(runs: RunList, arity: nat, f: nat)
    requires arity >= 1 && f < arity && |runs| >= 1
    ensures ReadOf(runs, arity, Ceil(|runs|, arity), f) == AllItems(FileRuns(runs, arity, f))
  {
    hide AllItems;
    var rs := FileRuns(runs, arity, f);
    CeilDivision(|runs|, arity);
    assert rs[..|rs|] == rs;
  }

  /** After the last round every file is read to its end. */
  lemma {:induction false} EverythingRead(runs: RunList, arity: nat, k: nat)
    requires arity >= 1 && k <= arity && |runs| >= 1
    ensures RunsBefore(arity, |runs|, k) <= |runs|
    ensures ReadItems(runs, arity, Ceil(|runs|, arity), k) == AllItems(runs[..RunsBefore(arity, |runs|, k)])
  {
    hide AllItems, ReadOf, Ceil;
    if k == 0 {
      NoItems(runs);
    } else {
      EverythingRead(runs, arity, k - 1);
      PlacedWithin(arity, |runs|, k - 1);
      EverythingReadOf(runs, arity, k - 1);
      assert FileRuns(runs, arity, k - 1) == runs[RunsBefore(arity, |runs|, k - 1)..RunsBefore(arity, |runs|, k)];
      AllItemsSplit(runs, RunsBefore(arity, |runs|, k - 1), RunsBefore(arity, |runs|, k));
    }
  }

  lemma LevelReadsAll(runs: RunList, arity: nat)
    requires arity >= 1 && |runs| >= 1
    ensures ReadItems(runs, arity, Ceil(|runs|, arity), arity) == AllItems(runs)
  {
    EverythingRead(runs, arity, arity);
    AllRunsPlaced(arity, |runs|);
    assert runs[..|runs|] == runs;
  }

  // ---------- The state between two rounds of a level

  ghost predicate LevelProgress(runs: RunList, arity: nat, length: nat, r: nat, streams: seq<Stream>, merged: RunList) {
    && arity >= 1 && |runs| >= 1 && length >= 1 && r <= Ceil(|runs|, arity)
    && GoodRuns(runs, length)
    && StreamsAt(streams, runs, arity, r)
    && |merged| == r
    && (forall k :: 0 <= k < r ==> GoodRun(merged[k], arity * length, k + 1 == Ceil(|runs|, arity)))
    && AllItems(merged) == ReadItems(runs, arity, r, arity)
  }

  lemma LevelStart(files: RunList, off: nat, runs: RunList, arity: nat, length: nat, streams: seq<Stream>)
    requires Level(files, off, runs, arity, length)
    requires |streams| == arity && forall f :: 0 <= f < arity ==> streams[f] == Stream(files[off + f], 0)
    ensures LevelProgress(runs, arity, length, 0, streams, [])
  {
    NothingRead(runs, arity, arity);
    forall f | 0 <= f < arity ensures streams[f] == StreamAt(runs, arity, f, 0) {
      assert FilePacked(files, off, runs, arity, |runs|, f);
    }
  }

  lemma ReadyForRound(runs: RunList, arity: nat, length: nat, r: nat, streams: seq<Stream>, merged: RunList)
    requires arity >= 1 && LevelProgress(runs, arity, length, r, streams, merged) && r < Ceil(|runs|, arity)
    ensures |streams| == arity && 1 <= RunsMerged(arity, |runs|, r) <= arity
    ensures var part := streams[arity - RunsMerged(arity, |runs|, r)..arity];
            ValidStreams(part) && TakenRuns(part, length) == RoundRuns(runs, arity, r)
  {
    hide AllItems, ReadItems, TakenRuns, RoundRuns, GoodRuns;
    TakesPart(arity, |runs|, 0, r);
    RoundIsAligned(runs, arity, length, r, streams);
    var first := arity - RunsMerged(arity, |runs|, r);
    assert streams[first..] == streams[first..arity];
  }

  lemma LevelRound(runs: RunList, arity: nat, length: nat, r: nat, streams: seq<Stream>, merged: RunList,
                   part: seq<Stream>, run: seq<Item>)
    requires arity >= 1 && LevelProgress(runs, arity, length, r, streams, merged) && r < Ceil(|runs|, arity)
    requires |part| <= arity == |streams| && |part| == RunsMerged(arity, |runs|, r)
    requires |streams| == arity && ValidStreams(streams[arity - |part|..arity])
    requires forall k :: 0 <= k < |part| ==> part[k] == Rest(streams[arity - |part|..arity][k], length)
    requires multiset(run) == AllItems(RoundRuns(runs, arity, r))
    requires KWayMerge.AllSorted(RoundRuns(runs, arity, r)) ==> Sorted(run)
    ensures LevelProgress(runs, arity, length, r + 1, streams[..arity - |part|] + part, merged + [run])
  {
    hide StreamsAt, ReadItems, AllItems, RoundRuns, Sorted, KWayMerge.AllSorted;
    RoundAdvances(runs, arity, length, r, streams, part);
    MergedRunIsGood(runs, arity, length, r, run);
    RoundReadsAll(runs, arity, r);
    AllItemsAppend(merged, run);
  }

  lemma StreamExhausted(runs: RunList, arity: nat, f: nat)
    requires arity >= 1 && |runs| >= 1 && f < arity
    ensures !StreamAt(runs, arity, f, Ceil(|runs|, arity)).CanRead()
  {
    var rs := FileRuns(runs, arity, f);
    CeilDivision(|runs|, arity);
    assert rs[..|rs|] == rs;
  }

  /** After the last round the merged runs are the next level's runs, and the streams are exhausted. */
  lemma LevelEnd(runs: RunList, arity: nat, length: nat, streams: seq<Stream>, merged: RunList)
    requires arity >= 1 && LevelProgress(runs, arity, length, Ceil(|runs|, arity), streams, merged)
    ensures |merged| >= 1 && GoodRuns(merged, arity * length)
    ensures AllItems(merged) == AllItems(runs)
    ensures |streams| == arity && forall f :: 0 <= f < arity ==> !streams[f].CanRead()
  {
    hide AllItems, ReadItems, StreamAt, GoodRun;
    LevelReadsAll(runs, arity);
    assert Ceil(|runs|, arity) >= 1 by { CeilBounds(|runs|, arity); }
    forall f | 0 <= f < arity ensures !streams[f].CanRead() {
      StreamExhausted(runs, arity, f);
    }
  }

  /** When no more runs than files are left, the last files hold one run each. */
  lemma FinalFiles(files: RunList, off: nat, runs: RunList, arity: nat, length: nat, k: nat)
    requires Level(files, off, runs, arity, length) && k < |runs| <= arity
    ensures files[off + arity - |runs| + k] == runs[k]
  {
    var f, n := arity - |runs| + k, |runs|;
    RunsBeforeIs(arity, n, f);
    RunsBeforeIs(arity, n, f + 1);
    if n == arity {
      DivUnique(n, arity, 1, 0);
    } else {
      DivUnique(n, arity, 0, n);
    }
    assert FilePacked(files, off, runs, arity, n, f);
    assert RunsBefore(arity, n, f) == k && RunsBefore(arity, n, f + 1) == k + 1;
    assert runs[k..k + 1] == [runs[k]];
    assert Flatten([runs[k]]) == runs[k] + Flatten([]);
  }

  lemma FinalIsAligned(files: RunList, off: nat, runs: RunList, arity: nat, length: nat, streams: seq<Stream>)
    requires Level(files, off, runs, arity, length) && |streams| == |runs| <= arity
    requires forall k :: 0 <= k < |runs| ==> streams[k] == Stream(files[off + arity - |runs| + k], 0)
    ensures ValidStreams(streams) && TakenRuns(streams, -1) == runs
    ensures forall k :: 0 <= k < |runs| ==> Sorted(runs[k])
  {
    forall k | 0 <= k < |runs|
      ensures streams[k].Valid() && Taken(streams[k], -1) == runs[k] && Sorted(runs[k])
    {
      FinalFiles(files, off, runs, arity, length, k);
      assert GoodRun(runs[k], length, k == |runs| - 1);
    }
  }
}
