/** The binary heap of tpie/util.h and tpie/internal_priority_queue.h. */
module InternalPriorityQueue {
  import opened Order

  // An element of the merge heap: an item together with the run it came from.
  datatype Entry = Entry(item: Item, run: nat)

  predicate LessEntry(x: Entry, y: Entry) {
    Less(x.item, y.item)
  }

  // The order the heap algorithms are run with: the arguments swapped, so that a heap whose root
  // is a maximum keeps the least element at the root.
  predicate Swapped(x: Entry, y: Entry) {
    LessEntry(y, x)
  }

  ghost predicate HeapEdge(s: seq<Entry>, j: nat)
    requires 1 <= j < |s|
  {
    !Swapped(s[(j - 1) / 2], s[j])
  }

  // The heap order, except at the edges from `hole` to its children.
  ghost predicate HeapBelow(s: seq<Entry>, hole: int) {
    && (forall j :: 1 <= j < |s| && (j - 1) / 2 != hole ==> HeapEdge(s, j))
    && (1 <= hole ==> forall j :: 1 <= j < |s| && (j - 1) / 2 == hole ==> !Swapped(s[(hole - 1) / 2], s[j]))
  }

  // The heap order, except at the edge from `leaf` to its parent.
  ghost predicate HeapAbove(s: seq<Entry>, leaf: int) {
    && (forall j :: 1 <= j < |s| && j != leaf ==> HeapEdge(s, j))
    && (1 <= leaf ==> forall j :: 1 <= j < |s| && (j - 1) / 2 == leaf ==> !Swapped(s[(leaf - 1) / 2], s[j]))
  }

  ghost predicate Heap(s: seq<Entry>) {
    forall j :: 1 <= j < |s| ==> HeapEdge(s, j)
  }

  lemma {:induction false} RootIsMinimum(s: seq<Entry>, j: nat)
    requires Heap(s) && j < |s|
    ensures !LessEntry(s[j], s[0])
    decreases j
  {
    if j > 0 {
      assert HeapEdge(s, j);
      RootIsMinimum(s, (j - 1) / 2);
    }
  }

  lemma SwapKeepsItems(s: seq<Entry>, i: nat, j: nat)
    requires i < |s| && j < |s|
    ensures multiset(s[i := s[j]][j := s[i]]) == multiset(s)
  {
  }

  // Whatever replaces the root of a heap, the order can only be broken below it.
  lemma NewRoot(s: seq<Entry>, t: seq<Entry>)
    requires Heap(s) && |t| <= |s|
    requires forall j :: 1 <= j < |t| ==> t[j] == s[j]
    ensures HeapBelow(t, 0)
  {
    forall j | 1 <= j < |t| && (j - 1) / 2 != 0 ensures HeapEdge(t, j) {
      assert HeapEdge(s, j);
    }
  }

  method Swap(a: array<Entry>, n: nat, i: nat, j: nat)
    requires i < n <= a.Length && j < n
    modifies a
    ensures a[..n] == old(a[..n][i := a[j]][j := a[i]])
    ensures a[n..] == old(a[n..])
    ensures multiset(a[..n]) == multiset(old(a[..n]))
  {
    SwapKeepsItems(a[..n], i, j);
    a[i], a[j] := a[j], a[i];
  }

  // One exchange of a parent with its lesser child moves the hole down and keeps the rest.
  lemma SiftDownStep(s: seq<Entry>, i: nat, c: nat)
    requires i < |s| && c < |s| && 1 <= c && (c - 1) / 2 == i
    requires HeapBelow(s, i)
    requires Swapped(s[i], s[c])
    requires forall j :: 1 <= j < |s| && (j - 1) / 2 == i ==> !Swapped(s[c], s[j])
    ensures HeapBelow(s[c := s[i]][i := s[c]], c)
  {
    var t := s[c := s[i]][i := s[c]];
    forall j | 1 <= j < |t| && (j - 1) / 2 != c
      ensures HeapEdge(t, j)
    {
      if (j - 1) / 2 != i && j != i {
        assert HeapEdge(s, j);
      }
    }
    forall j | 1 <= j < |t| && (j - 1) / 2 == c
      ensures !Swapped(t[(c - 1) / 2], t[j])
    {
      assert HeapEdge(s, j);
    }
  }

  lemma SiftUpStep(s: seq<Entry>, i: nat)
    requires 1 <= i < |s|
    requires HeapAbove(s, i)
    requires Swapped(s[(i - 1) / 2], s[i])
    ensures HeapAbove(s[i := s[(i - 1) / 2]][(i - 1) / 2 := s[i]], (i - 1) / 2)
  {
    var p := (i - 1) / 2;
    var t := s[i := s[p]][p := s[i]];
    forall j | 1 <= j < |t| && j != p
      ensures HeapEdge(t, j)
    {
      if j != i {
        assert HeapEdge(s, j);
      }
    }
    forall j | 1 <= j < |t| && (j - 1) / 2 == p && 1 <= p
      ensures !Swapped(t[(p - 1) / 2], t[j])
    {
      assert HeapEdge(s, p);
      if j != i {
        assert HeapEdge(s, j);
      }
    }
  }

  lemma SiftDownDone(s: seq<Entry>, i: nat)
    requires HeapBelow(s, i)
    requires forall j :: 1 <= j < |s| && (j - 1) / 2 == i ==> !Swapped(s[i], s[j])
    ensures Heap(s)
  {
    forall j | 1 <= j < |s| ensures HeapEdge(s, j) {
      if (j - 1) / 2 == i {
        assert !Swapped(s[i], s[j]);
      }
    }
  }

  method SwapDown(a: array<Entry>, n: nat, i: nat, c: nat)
    requires i < n <= a.Length && 1 <= c < n && (c - 1) / 2 == i
    requires HeapBelow(a[..n], i)
    requires Swapped(a[i], a[c])
    requires c % 2 == 0 ==> !Swapped(a[c], a[c - 1])
    requires c % 2 == 1 && c + 1 < n ==> !Swapped(a[c], a[c + 1])
    modifies a
    ensures HeapBelow(a[..n], c)
    ensures multiset(a[..n]) == multiset(old(a[..n]))
    ensures a[n..] == old(a[n..])
  {
    SiftDownStep(a[..n], i, c);
    Swap(a, n, c, i);
  }

  /** Restores the heap order of a[..n] after its root has been replaced by some other element. */
  method PopAndPushHeap(a: array<Entry>, n: nat)
    requires n <= a.Length
    requires HeapBelow(a[..n], 0)
    modifies a
    ensures Heap(a[..n])
    ensures multiset(a[..n]) == multiset(old(a[..n]))
    ensures a[n..] == old(a[n..])
  {
    hide HeapBelow, Heap;
    var i := 0;
    while true
      invariant i == 0 || i < n
      invariant HeapBelow(a[..n], i)
      invariant multiset(a[..n]) == multiset(old(a[..n]))
      invariant a[n..] == old(a[n..])
      decreases n - i
    {
      var c := 2 * i + 1;
      if c + 1 >= n {
        if c < n && Swapped(a[i], a[c]) {
          SwapDown(a, n, i, c);
          SiftDownDone(a[..n], c);
        } else {
          SiftDownDone(a[..n], i);
        }
        break;
      }
      if Swapped(a[c + 1], a[c]) {
        if Swapped(a[i], a[c]) {
          SwapDown(a, n, i, c);
          i := c;
        } else {
          SiftDownDone(a[..n], i);
          break;
        }
      } else {
        if Swapped(a[i], a[c + 1]) {
          SwapDown(a, n, i, c + 1);
          i := c + 1;
        } else {
          SiftDownDone(a[..n], i);
          break;
        }
      }
    }
  }

  // Rearranging a prefix rearranges every longer prefix.
  lemma LongerPrefix(before: seq<Entry>, after: seq<Entry>, tail: seq<Entry>, longBefore: seq<Entry>,
      longAfter: seq<Entry>)
    requires |before| == |after| <= |longBefore| == |longAfter| <= |before + tail|
    requires multiset(before) == multiset(after)
    requires longBefore == (before + tail)[..|longBefore|] && longAfter == (after + tail)[..|longBefore|]
    ensures multiset(longBefore) == multiset(longAfter)
  {
    var rest := tail[..|longBefore| - |before|];
    assert longBefore == before + rest && longAfter == after + rest;
  }

  /** The standard library's push_heap: the last element of a[..n] joins the heap before it. */
  method PushHeap(a: array<Entry>, n: nat)
    requires 1 <= n <= a.Length
    requires Heap(a[..n - 1])
    modifies a
    ensures Heap(a[..n])
    ensures multiset(a[..n]) == multiset(old(a[..n]))
    ensures a[n..] == old(a[n..])
  {
    var i := n - 1;
    assert HeapAbove(a[..n], i) by {
      forall j | 1 <= j < n && j != n - 1 ensures HeapEdge(a[..n], j) {
        assert HeapEdge(a[..n - 1], j);
      }
    }
    while i > 0 && Swapped(a[(i - 1) / 2], a[i])
      invariant 0 <= i < n
      invariant HeapAbove(a[..n], i)
      invariant multiset(a[..n]) == multiset(old(a[..n]))
      invariant a[n..] == old(a[n..])
    {
      SiftUpStep(a[..n], i);
      Swap(a, n, i, (i - 1) / 2);
      i := (i - 1) / 2;
    }
  }

  /** The standard library's make_heap, by repeated insertion. */
  method MakeHeap(a: array<Entry>, n: nat)
    requires n <= a.Length
    modifies a
    ensures Heap(a[..n])
    ensures multiset(a[..n]) == multiset(old(a[..n]))
  {
    for k := 0 to n
      invariant Heap(a[..k])
      invariant multiset(a[..n]) == multiset(old(a[..n]))
    {
      hide Heap;
      ghost var before, tail, all := a[..k + 1], a[k + 1..], a[..n];
      PushHeap(a, k + 1);
      LongerPrefix(before, a[..k + 1], tail, all, a[..n]);
    }
  }

  lemma PopRoot(s: seq<Entry>, t: seq<Entry>, u: seq<Entry>)
    requires Heap(s) && |s| >= 1
    requires t == s[0 := s[|s| - 1]][|s| - 1 := s[0]] && u == t[..|s| - 1]
    ensures HeapBelow(u, 0)
    ensures multiset(u) == multiset(s) - multiset{s[0]}
  {
    NewRoot(s, t[..|s| - 1]);
    SwapKeepsItems(s, 0, |s| - 1);
    assert t == t[..|s| - 1] + [s[0]];
  }

  method RootBehind(a: array<Entry>, n: nat)
    requires 1 <= n <= a.Length
    requires Heap(a[..n])
    modifies a
    ensures HeapBelow(a[..n - 1], 0)
    ensures multiset(a[..n - 1]) == multiset(old(a[..n])) - multiset{old(a[0])}
  {
    hide HeapBelow, Heap;
    ghost var s := a[..n];
    Swap(a, n, 0, n - 1);
    PopRoot(s, a[..n], a[..n-1]);
  }

  /** The standard library's pop_heap moves the root behind the heap. */
  method PopHeap(a: array<Entry>, n: nat)
    requires 1 <= n <= a.Length
    requires Heap(a[..n])
    modifies a
    ensures Heap(a[..n - 1])
    ensures multiset(a[..n - 1]) == multiset(old(a[..n])) - multiset{old(a[0])}
  {
    RootBehind(a, n);
    PopAndPushHeap(a, n - 1);
  }

  class PriorityQueue {
    var pq: array<Entry>
    var sz: nat
    ghost var contents: multiset<Entry>

    ghost predicate Valid()
      reads this, pq
    {
      sz <= pq.Length && contents == multiset(pq[..sz])
    }

    // The queue is safe when no unsafe push is waiting for MakeSafe.
    ghost predicate Safe()
      reads this, pq
    {
      Valid() && Heap(pq[..sz])
    }

    constructor (maxSize: nat)
      ensures Safe() && fresh(pq) && pq.Length == maxSize && sz == 0 && contents == multiset{}
    {
      pq := new Entry[maxSize](_ => Entry(Item(0, 0), 0));
      sz := 0;
      contents := multiset{};
    }

    method UnsafePush(v: Entry)
      requires Valid() && sz < pq.Length
      modifies this`sz, this`contents, pq
      ensures Valid() && pq[..sz] == old(pq[..sz]) + [v] && sz == old(sz) + 1
      ensures contents == old(contents) + multiset{v}
    {
      pq[sz] := v;
      sz := sz + 1;
      contents := contents + multiset{v};
      assert pq[..sz] == old(pq[..sz]) + [v];
    }

    method MakeSafe()
      requires Valid()
      modifies pq
      ensures Safe()
    {
      MakeHeap(pq, sz);
    }

    method Push(v: Entry)
      requires Safe() && sz < pq.Length
      modifies this`sz, this`contents, pq
      ensures Safe() && sz == old(sz) + 1 && contents == old(contents) + multiset{v}
    {
      UnsafePush(v);
      assert pq[..sz - 1] == old(pq[..sz]);
      PushHeap(pq, sz);
    }

    /** The least element, for any queue that is safe. */
    method Top() returns (e: Entry)
      requires Safe() && sz > 0
      ensures e == pq[0] && e in contents
      ensures forall x :: x in contents ==> !LessEntry(x, e)
    {
      e := pq[0];
      forall x | x in contents ensures !LessEntry(x, e) {
        var j :| 0 <= j < sz && pq[..sz][j] == x;
        RootIsMinimum(pq[..sz], j);
      }
    }

    method Pop()
      requires Safe() && sz > 0
      modifies this`sz, this`contents, pq
      ensures Safe() && sz == old(sz) - 1 && contents == old(contents - multiset{pq[0]})
    {
      contents := contents - multiset{pq[0]};
      PopHeap(pq, sz);
      sz := sz - 1;
    }

    method PopAndPush(v: Entry)
      requires Safe() && sz > 0
      modifies this`contents, pq
      ensures Safe() && contents == old(contents - multiset{pq[0]}) + multiset{v}
    {
      ghost var was := pq[..sz];
      contents := contents - multiset{pq[0]} + multiset{v};
      pq[0] := v;
      assert pq[..sz] == was[0 := v];
      NewRoot(was, pq[..sz]);
      PopAndPushHeap(pq, sz);
    }

    method Resize(s: nat)
      modifies this
      ensures Safe() && fresh(pq) && pq.Length == s && sz == 0 && contents == multiset{}
    {
      sz := 0;
      contents := multiset{};
      pq := new Entry[s](_ => Entry(Item(0, 0), 0));
    }
  }
}
