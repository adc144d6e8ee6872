/** The partitioning and the job body of tpie/parallel_sort.h, run by one thread. */
module ParallelSort {
  import opened Order

  // Everything in s[lo..p) is at most s[p], and everything in s(p..hi) is at least s[p].
  ghost predicate SplitAt(s: seq<Item>, lo: nat, p: nat, hi: nat)
    requires lo <= p < hi <= |s|
  {
    && (forall k :: lo <= k < p ==> s[k].key <= s[p].key)
    && (forall k :: p < k < hi ==> s[p].key <= s[k].key)
  }

  // s is t with the items of [lo, hi) rearranged.
  ghost predicate Rearranged(s: seq<Item>, t: seq<Item>, lo: nat, hi: nat)
    requires lo <= hi <= |s|
  {
    && |t| == |s|
    && multiset(s[lo..hi]) == multiset(t[lo..hi])
    && (forall k :: 0 <= k < lo || hi <= k < |s| ==> s[k] == t[k])
  }

  lemma SwapRearranges(s: seq<Item>, lo: nat, hi: nat, i: nat, j: nat)
    requires lo <= i < hi <= |s| && lo <= j < hi
    ensures Rearranged(s[i := s[j]][j := s[i]], s, lo, hi)
  {
    var t := s[i := s[j]][j := s[i]];
    var part := s[lo..hi];
    assert t[lo..hi] == part[i - lo := part[j - lo]][j - lo := part[i - lo]];
  }

  lemma RearrangedItself(s: seq<Item>, lo: nat, hi: nat)
    requires lo <= hi <= |s|
    ensures Rearranged(s, s, lo, hi)
  {
  }

  lemma RearrangedTransitive(s: seq<Item>, t: seq<Item>, u: seq<Item>, lo: nat, hi: nat)
    requires lo <= hi <= |s| && Rearranged(s, t, lo, hi) && Rearranged(t, u, lo, hi)
    ensures Rearranged(s, u, lo, hi)
  {
  }

  lemma RearrangedWithin(s: seq<Item>, t: seq<Item>, lo: nat, l: nat, h: nat, hi: nat)
    requires lo <= l <= h <= hi <= |s| && Rearranged(s, t, l, h)
    ensures Rearranged(s, t, lo, hi)
  {
    assert s[lo..hi] == s[lo..l] + s[l..h] + s[h..hi];
    assert t[lo..hi] == t[lo..l] + t[l..h] + t[h..hi];
    assert s[lo..l] == t[lo..l] && s[h..hi] == t[h..hi];
  }

  method IterSwap(a: array<Item>, i: nat, j: nat, ghost lo: nat, ghost hi: nat)
    requires lo <= i < hi <= a.Length && lo <= j < hi
    modifies a
    ensures a[..] == old(a[..][i := a[j]][j := a[i]])
    ensures a[i] == old(a[j]) && a[j] == old(a[i])
    ensures forall k :: 0 <= k < a.Length && k != i && k != j ==> a[k] == old(a[k])
    ensures Rearranged(a[..], old(a[..]), lo, hi)
  {
    SwapRearranges(a[..], lo, hi, i, j);
    a[i], a[j] := a[j], a[i];
  }

  // Putting the pivot at p, where the small items end, splits the segment.
  lemma PivotPlaced(s: seq<Item>, lo: nat, p: nat, hi: nat)
    requires lo <= p < hi <= |s|
    requires forall k :: lo <= k <= p ==> s[k].key <= s[lo].key
    requires forall k :: p < k < hi ==> s[lo].key <= s[k].key
    ensures SplitAt(s[p := s[lo]][lo := s[p]], lo, p, hi)
  {
  }

  /** The last item before `end` that is not above the pivot; the item at `first` is one. */
  method ScanDown(a: array<Item>, pivot: nat, first: nat, end: nat) returns (last: nat)
    requires pivot <= first < end <= a.Length && !Less(a[pivot], a[first])
    ensures first <= last < end && !Less(a[pivot], a[last])
    ensures forall k :: last < k < end ==> Less(a[pivot], a[k])
  {
    last := end - 1;
    while Less(a[pivot], a[last])
      invariant first <= last < end
      invariant forall k :: last < k < end ==> Less(a[pivot], a[k])
      decreases last
    {
      last := last - 1;
    }
  }

  /** The next item after `start` that is not below the pivot, or `last` if there is none before it. */
  method ScanUp(a: array<Item>, pivot: nat, start: nat, last: nat) returns (first: nat)
    requires start <= last < a.Length && pivot < a.Length
    ensures start <= first <= last
    ensures forall k :: start < k < first ==> Less(a[k], a[pivot])
    ensures first != last ==> start < first && !Less(a[first], a[pivot])
  {
    first := start;
    while true
      invariant start <= first <= last
      invariant forall k :: start < k <= first ==> Less(a[k], a[pivot])
      decreases last - first
    {
      if first == last {
        break;
      }
      first := first + 1;
      if !Less(a[first], a[pivot]) {
        break;
      }
    }
  }

  /** Textbook partitioning of a[lo..hi) with the item at lo as the pivot. */
  method UnguardedPartition(a: array<Item>, lo: nat, hi: nat) returns (p: nat)
    requires lo < hi <= a.Length
    modifies a
    ensures lo <= p < hi
    ensures SplitAt(a[..], lo, p, hi) && a[p] == old(a[lo])
    ensures Rearranged(a[..], old(a[..]), lo, hi)
  {
    hide Rearranged, SplitAt;
    RearrangedItself(a[..], lo, hi);
    var pivot, first, last := lo, lo, hi;
    while true
      invariant lo <= first < last <= hi
      invariant a[pivot] == old(a[lo])
      invariant forall k :: lo <= k <= first ==> !Less(a[pivot], a[k])
      invariant forall k :: last <= k < hi ==> !Less(a[k], a[pivot])
      invariant Rearranged(a[..], old(a[..]), lo, hi)
      decreases last - first
    {
      last := ScanDown(a, pivot, first, last);
      first := ScanUp(a, pivot, first, last);
      if first == last {
        break;
      }
      ghost var was := a[..];
      IterSwap(a, first, last, lo, hi);
      RearrangedTransitive(a[..], was, old(a[..]), lo, hi);
    }
    ghost var was := a[..];
    PivotPlaced(was, lo, last, hi);
    IterSwap(a, last, pivot, lo, hi);
    RearrangedTransitive(a[..], was, old(a[..]), lo, hi);
    p := last;
  }

  // The middle one of three items, by index.
  function Median(a: array<Item>, i: nat, j: nat, k: nat): (m: nat)
    reads a
    requires i < a.Length && j < a.Length && k < a.Length
    ensures m == i || m == j || m == k
    ensures !(Less(a[m], a[i]) && Less(a[m], a[j])) && !(Less(a[m], a[i]) && Less(a[m], a[k]))
      && !(Less(a[m], a[j]) && Less(a[m], a[k]))
    ensures !(Less(a[i], a[m]) && Less(a[j], a[m])) && !(Less(a[i], a[m]) && Less(a[k], a[m]))
      && !(Less(a[j], a[m]) && Less(a[k], a[m]))
  {
    if Less(a[i], a[j]) then
      if Less(a[j], a[k]) then j else if Less(a[i], a[k]) then k else i
    else
      if Less(a[i], a[k]) then i else if Less(a[j], a[k]) then k else j
  }

  /** The pseudo-median of nine: always an index of the segment, whatever its length. */
  function PickPivot(a: array<Item>, lo: nat, hi: nat): (p: nat)
    reads a
    requires lo <= hi <= a.Length
    ensures lo < hi ==> lo <= p < hi
    ensures lo == hi ==> p == lo
  {
    if lo == hi then lo
    else
      var step := (hi - lo) / 8;
      Median(a, Median(a, lo, lo + step, lo + step * 2),
             Median(a, lo + step * 3, lo + step * 4, lo + step * 5),
             Median(a, lo + step * 6, lo + step * 7, hi - 1))
  }

  // The nine positions that are looked at, which coincide in a short segment.
  function Sampled(lo: nat, hi: nat): (s: seq<nat>)
    requires lo < hi
    ensures |s| == 9 && forall i :: 0 <= i < 9 ==> lo <= s[i] < hi
  {
    var step := (hi - lo) / 8;
    [lo, lo + step, lo + step * 2, lo + step * 3, lo + step * 4, lo + step * 5, lo + step * 6, lo + step * 7, hi - 1]
  }

  /** The samples run from one end to the other at equal distances, and are all different from nine items on. */
  lemma SamplesAreSpread(lo: nat, hi: nat)
    requires lo < hi
    ensures var s := Sampled(lo, hi);
            && s[0] == lo && s[8] == hi - 1
            && (forall i :: 1 <= i < 8 ==> s[i] - s[i - 1] == (hi - lo) / 8)
            && (hi - lo >= 9 ==> forall i, j :: 0 <= i < j < 9 ==> s[i] < s[j])
  {
  }

  ghost function SampledKeys(a: array<Item>, lo: nat, hi: nat): (keys: seq<int>)
    requires lo < hi <= a.Length
    reads a
    ensures |keys| == 9
  {
    var s := Sampled(lo, hi);
    [a[s[0]].key, a[s[1]].key, a[s[2]].key, a[s[3]].key, a[s[4]].key,
      a[s[5]].key, a[s[6]].key, a[s[7]].key, a[s[8]].key]
  }

  ghost function AtMost(keys: seq<int>, m: int): set<int> {
    set i | 0 <= i < |keys| && keys[i] <= m
  }

  ghost function AtLeast(keys: seq<int>, m: int): set<int> {
    set i | 0 <= i < |keys| && m <= keys[i]
  }

  // At least two of the three are not above m, and at least two are not below it.
  ghost predicate InTheMiddle(x: int, y: int, z: int, m: int) {
    TwoAtMost(x, y, z, m) && TwoAtMost(-x, -y, -z, -m)
  }

  ghost predicate TwoAtMost(x: int, y: int, z: int, m: int) {
    (x <= m && y <= m) || (x <= m && z <= m) || (y <= m && z <= m)
  }

  lemma MedianIsInTheMiddle(a: array<Item>, i: nat, j: nat, k: nat)
    requires i < a.Length && j < a.Length && k < a.Length
    ensures InTheMiddle(a[i].key, a[j].key, a[k].key, a[Median(a, i, j, k)].key)
  {
  }

  /** At least four of the nine sampled items are not above the pivot, and at least four are not below it. */
  lemma PivotIsInTheMiddle(a: array<Item>, lo: nat, hi: nat)
    requires lo < hi <= a.Length
    ensures var keys, pivot := SampledKeys(a, lo, hi), a[PickPivot(a, lo, hi)].key;
            |AtMost(keys, pivot)| >= 4 && |AtLeast(keys, pivot)| >= 4
  {
    var s, keys, p := Sampled(lo, hi), SampledKeys(a, lo, hi), PickPivot(a, lo, hi);
    var m1, m2, m3 := Median(a, s[0], s[1], s[2]), Median(a, s[3], s[4], s[5]), Median(a, s[6], s[7], s[8]);
    assert p == Median(a, m1, m2, m3);
    MedianIsInTheMiddle(a, s[0], s[1], s[2]);
    MedianIsInTheMiddle(a, s[3], s[4], s[5]);
    MedianIsInTheMiddle(a, s[6], s[7], s[8]);
    MedianIsInTheMiddle(a, m1, m2, m3);
    hide Median, InTheMiddle;
    MedianOfMedians(keys, a[m1].key, a[m2].key, a[m3].key, a[p].key);
  }

  lemma MedianOfMedians(keys: seq<int>, m1: int, m2: int, m3: int, m: int)
    requires |keys| == 9 && InTheMiddle(m1, m2, m3, m)
    requires InTheMiddle(keys[0], keys[1], keys[2], m1) && InTheMiddle(keys[3], keys[4], keys[5], m2)
    requires InTheMiddle(keys[6], keys[7], keys[8], m3)
    ensures |AtMost(keys, m)| >= 4 && |AtLeast(keys, m)| >= 4
  {
    FourAtMost(keys, m1, m2, m3, m);
    var mirrored := [-keys[0], -keys[1], -keys[2], -keys[3], -keys[4], -keys[5], -keys[6], -keys[7], -keys[8]];
    FourAtMost(mirrored, -m1, -m2, -m3, -m);
    assert AtMost(mirrored, -m) == AtLeast(keys, m);
  }

  lemma FourAtMost(keys: seq<int>, m1: int, m2: int, m3: int, m: int)
    requires |keys| == 9 && TwoAtMost(m1, m2, m3, m)
    requires TwoAtMost(keys[0], keys[1], keys[2], m1) && TwoAtMost(keys[3], keys[4], keys[5], m2)
    requires TwoAtMost(keys[6], keys[7], keys[8], m3)
    ensures |AtMost(keys, m)| >= 4
  {
    var i, j := TwoOf(keys, if m1 <= m then 0 else 3, m);
    var k, l := TwoOf(keys, if m3 <= m then 6 else 3, m);
    SubsetSize({i, j, k, l}, AtMost(keys, m));
  }

  lemma TwoOf(keys: seq<int>, b: nat, m: int) returns (i: nat, j: nat)
    requires b + 3 <= |keys| && TwoAtMost(keys[b], keys[b + 1], keys[b + 2], m)
    ensures b <= i < j < b + 3 && keys[i] <= m && keys[j] <= m
  {
    i := if keys[b] <= m then b else b + 1;
    j := if keys[b + 2] <= m then b + 2 else b + 1;
  }

  method Partition(a: array<Item>, lo: nat, hi: nat) returns (p: nat)
    requires lo < hi <= a.Length
    modifies a
    ensures lo <= p < hi && SplitAt(a[..], lo, p, hi)
    ensures Rearranged(a[..], old(a[..]), lo, hi)
  {
    IterSwap(a, PickPivot(a, lo, hi), lo, lo, hi);
    ghost var was := a[..];
    p := UnguardedPartition(a, lo, hi);
    RearrangedTransitive(a[..], was, old(a[..]), lo, hi);
  }

  // The standard library's sort, as the insertion sort of a sequence.
  function Insert(x: Item, s: seq<Item>): seq<Item> {
    if s != [] && Less(s[0], x) then [s[0]] + Insert(x, s[1..]) else [x] + s
  }

  function StdSorted(s: seq<Item>): seq<Item> {
    if s == [] then [] else Insert(s[0], StdSorted(s[1..]))
  }

  lemma {:induction false} InsertItems(x: Item, s: seq<Item>)
    ensures multiset(Insert(x, s)) == multiset(s) + multiset{x}
  {
    if s != [] && Less(s[0], x) {
      InsertItems(x, s[1..]);
      assert s == [s[0]] + s[1..];
    }
  }

  lemma {:induction false} InsertSorted(x: Item, s: seq<Item>)
    requires Sorted(s)
    ensures Sorted(Insert(x, s))
  {
    if s != [] && Less(s[0], x) {
      var r := Insert(x, s[1..]);
      InsertSorted(x, s[1..]);
      InsertItems(x, s[1..]);
      forall k | 0 <= k < |r| ensures s[0].key <= r[k].key {
        assert r[k] in multiset(r);
      }
    }
  }

  lemma {:induction false} StdSortedSorts(s: seq<Item>)
    ensures SortedPermutation(StdSorted(s), multiset(s))
  {
    if s != [] {
      StdSortedSorts(s[1..]);
      InsertItems(s[0], StdSorted(s[1..]));
      InsertSorted(s[0], StdSorted(s[1..]));
      assert s == [s[0]] + s[1..];
    }
  }

  ghost predicate SortedBetween(s: seq<Item>, lo: nat, hi: nat)
    requires lo <= hi <= |s|
  {
    forall i, j :: lo <= i <= j < hi ==> s[i].key <= s[j].key
  }

  lemma SortedCopy(s: seq<Item>, t: seq<Item>, r: seq<Item>, lo: nat, hi: nat)
    requires lo <= hi <= |s| == |t| && |r| == hi - lo
    requires SortedPermutation(r, multiset(t[lo..hi]))
    requires forall k :: lo <= k < hi ==> s[k] == r[k - lo]
    requires forall k :: 0 <= k < lo || hi <= k < |s| ==> s[k] == t[k]
    ensures Rearranged(s, t, lo, hi) && SortedBetween(s, lo, hi)
  {
    assert s[lo..hi] == r;
  }

  method StdSort(a: array<Item>, lo: nat, hi: nat)
    requires lo <= hi <= a.Length
    modifies a
    ensures SortedBetween(a[..], lo, hi)
    ensures Rearranged(a[..], old(a[..]), lo, hi)
  {
    ghost var was := a[..];
    var segment := a[lo..hi];
    var s := StdSorted(segment);
    StdSortedSorts(segment);
    assert |multiset(s)| == |multiset(segment)|;
    for i := lo to hi
      invariant forall k :: lo <= k < i ==> a[k] == s[k - lo]
      invariant forall k :: 0 <= k < lo || hi <= k < a.Length ==> a[k] == was[k]
    {
      a[i] := s[i - lo];
    }
    SortedCopy(a[..], was, s, lo, hi);
  }

  // The items before lo are in order, and none of them is above an item of [lo, hi).
  ghost predicate Settled(s: seq<Item>, start: nat, lo: nat, hi: nat)
    requires start <= lo <= hi <= |s|
  {
    && SortedBetween(s, start, lo)
    && (forall i, j :: start <= i < lo <= j < hi ==> s[i].key <= s[j].key)
  }

  lemma SettledRearranged(s: seq<Item>, t: seq<Item>, start: nat, lo: nat, hi: nat)
    requires start <= lo <= hi <= |s| && Rearranged(s, t, lo, hi) && Settled(t, start, lo, hi)
    ensures Settled(s, start, lo, hi)
  {
    forall i, j | start <= i < lo <= j < hi ensures s[i].key <= s[j].key {
      assert s[lo..hi][j - lo] in multiset(t[lo..hi]);
      var k :| 0 <= k < hi - lo && t[lo..hi][k] == s[j];
      assert t[lo + k] == s[j];
    }
  }

  lemma SplitRearranged(s: seq<Item>, t: seq<Item>, lo: nat, p: nat, hi: nat)
    requires lo <= p < hi <= |t| && SplitAt(t, lo, p, hi) && |s| == |t| && Rearranged(s, t, lo, p)
    ensures SplitAt(s, lo, p, hi)
  {
    forall k | lo <= k < p ensures s[k].key <= s[p].key {
      assert s[lo..p][k - lo] in multiset(t[lo..p]);
      var j :| 0 <= j < p - lo && t[lo..p][j] == s[k];
      assert t[lo + j] == s[k];
    }
  }

  lemma SettledSplit(s: seq<Item>, start: nat, lo: nat, p: nat, hi: nat)
    requires start <= lo <= p < hi <= |s|
    requires Settled(s, start, lo, hi) && SplitAt(s, lo, p, hi) && SortedBetween(s, lo, p)
    ensures Settled(s, start, p + 1, hi)
  {
    forall i, j | start <= i < p + 1 <= j < hi ensures s[i].key <= s[j].key {
      assert i <= p && (i < lo || s[i].key <= s[p].key);
    }
  }

  /** The job body: partition, sort the left part in a child run at once, and go on to the right. */
  method QsortJob(a: array<Item>, start: nat, hi: nat, minSize: nat)
    requires start <= hi <= a.Length && minSize >= 1
    modifies a
    ensures SortedBetween(a[..], start, hi)
    ensures Rearranged(a[..], old(a[..]), start, hi)
    decreases hi - start
  {
    hide Rearranged, SplitAt, Settled, SortedBetween;
    var lo := start;
    RearrangedItself(a[..], start, hi);
    SettledStart(a[..], start, hi);
    while hi - lo >= minSize
      invariant start <= lo <= hi
      invariant Settled(a[..], start, lo, hi)
      invariant Rearranged(a[..], old(a[..]), start, hi)
    {
      ghost var before := a[..];
      var pivot := Partition(a, lo, hi);
      ghost var split := a[..];
      QsortJob(a, lo, pivot, minSize);
      JobStep(before, split, a[..], start, lo, pivot, hi);
      RearrangedTransitive(a[..], before, old(a[..]), start, hi);
      lo := pivot + 1;
    }
    ghost var before := a[..];
    StdSort(a, lo, hi);
    JobEnd(before, a[..], start, lo, hi);
    RearrangedTransitive(a[..], before, old(a[..]), start, hi);
  }

  lemma SettledStart(s: seq<Item>, start: nat, hi: nat)
    requires start <= hi <= |s|
    ensures Settled(s, start, start, hi)
  {
  }

  lemma JobStep(before: seq<Item>, split: seq<Item>, after: seq<Item>, start: nat, lo: nat, p: nat, hi: nat)
    requires start <= lo <= p < hi <= |before| == |split| == |after|
    requires Settled(before, start, lo, hi)
    requires Rearranged(split, before, lo, hi) && SplitAt(split, lo, p, hi)
    requires Rearranged(after, split, lo, p) && SortedBetween(after, lo, p)
    ensures Settled(after, start, p + 1, hi) && Rearranged(after, before, start, hi)
  {
    SettledRearranged(split, before, start, lo, hi);
    RearrangedWithin(after, split, lo, lo, p, hi);
    SettledRearranged(after, split, start, lo, hi);
    SplitRearranged(after, split, lo, p, hi);
    SettledSplit(after, start, lo, p, hi);
    RearrangedTransitive(after, split, before, lo, hi);
    RearrangedWithin(after, before, start, lo, hi, hi);
  }

  lemma JobEnd(before: seq<Item>, after: seq<Item>, start: nat, lo: nat, hi: nat)
    requires start <= lo <= hi <= |before| == |after|
    requires Settled(before, start, lo, hi)
    requires Rearranged(after, before, lo, hi) && SortedBetween(after, lo, hi)
    ensures SortedBetween(after, start, hi) && Rearranged(after, before, start, hi)
  {
    SettledRearranged(after, before, start, lo, hi);
    RearrangedWithin(after, before, start, lo, hi, hi);
  }

  /** parallel_sort on the whole of an array. */
  method ParallelSort(a: array<Item>, minSize: nat)
    requires minSize >= 1
    modifies a
    ensures SortedPermutation(a[..], multiset(old(a[..])))
  {
    QsortJob(a, 0, a.Length, minSize);
    assert a[..][0..a.Length] == a[..] && old(a[..])[0..a.Length] == old(a[..]);
  }
}
