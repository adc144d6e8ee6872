/** The merge heap of tpie/mergeheap.h: the leading item of each run, labelled with its run. */
module MergeHeaps {
  import opened Options
  import opened Order
  import opened InternalPriorityQueue

  class MergeHeap {
    const pq: PriorityQueue

    ghost predicate Valid()
      reads this, pq, pq.pq
    {
      pq.Valid()
    }

    ghost predicate Safe()
      reads this, pq, pq.pq
    {
      pq.Safe()
    }

    ghost function Contents(): multiset<Entry>
      reads this, pq
    {
      pq.contents
    }

    ghost function Capacity(): nat
      reads this, pq
    {
      pq.pq.Length
    }

    constructor ()
      ensures Safe() && fresh(pq) && fresh(pq.pq) && SizeOfHeap() == 0 && Contents() == multiset{}
    {
      pq := new PriorityQueue(0);
    }

    function SizeOfHeap(): nat
      reads this, pq
    {
      pq.sz
    }

    method Allocate(size: nat)
      modifies pq
      ensures Safe() && fresh(pq.pq) && Capacity() == size && SizeOfHeap() == 0 && Contents() == multiset{}
    {
      pq.Resize(size);
    }

    method Insert(item: Item, run: nat)
      requires Valid() && SizeOfHeap() < Capacity()
      modifies pq`sz, pq`contents, pq.pq
      ensures Valid() && SizeOfHeap() == old(SizeOfHeap()) + 1
      ensures Contents() == old(Contents()) + multiset{Entry(item, run)}
    {
      pq.UnsafePush(Entry(item, run));
    }

    method Initialize()
      requires Valid()
      modifies pq.pq
      ensures Safe()
    {
      pq.MakeSafe();
    }

    method GetMinRunId() returns (run: nat, ghost item: Item)
      requires Safe() && SizeOfHeap() > 0
      ensures run == pq.pq[0].run && item == pq.pq[0].item && Entry(item, run) in Contents()
      ensures forall x :: x in Contents() ==> item.key <= x.item.key
    {
      var e := pq.Top();
      run, item := e.run, e.item;
    }

    /** Replaces the least entry by the next item of its run, or removes it at the run's end. */
    method DeleteMinAndInsert(next: Option<Item>)
      requires Safe() && SizeOfHeap() > 0
      modifies pq`sz, pq`contents, pq.pq
      ensures Safe()
      ensures Contents() == old(Contents() - multiset{pq.pq[0]})
                          + if next.Some? then multiset{Entry(next.value, old(pq.pq[0].run))} else multiset{}
    {
      if next.Some? {
        var top := pq.Top();
        pq.PopAndPush(Entry(next.value, top.run));
      } else {
        pq.Pop();
      }
    }

    lemma EmptyIff()
      requires Valid()
      ensures SizeOfHeap() == 0 <==> Contents() == multiset{}
    {
      assert |pq.contents| == pq.sz;
    }
  }
}
