/** The buffer of a run being formed: internal_sort of tpie/serialization_sorter.h. */
module RunBuffers {
  import opened Order
  import PS = ParallelSort

  class RunBuffer {
    var buffer: array<Item>
    var items: nat
    var full: bool
    const minSize: nat  // below this, parallel_sort does not split further

    ghost predicate Valid()
      reads this`buffer, this`items
    {
      items <= buffer.Length && minSize >= 1
    }

    ghost function Contents(): seq<Item>
      requires Valid()
      reads this`buffer, this`items, buffer
    {
      buffer[..items]
    }

    lemma Counted()
      requires Valid()
      ensures |multiset(Contents())| == |Contents()| == items
    {
    }

    constructor (minSize: nat)
      requires minSize >= 1
      ensures Valid() && fresh(buffer) && items == 0 && !full
    {
      this.minSize := minSize;
      buffer := new Item[0];
      items, full := 0, false;
    }

    method Begin(size: nat)
      requires Valid()
      modifies this
      ensures Valid() && fresh(buffer) && buffer.Length == size && items == 0 && !full
    {
      buffer := new Item[size](_ => Item(0, 0));
      items, full := 0, false;
    }

    /** Takes the item if the buffer is not full and the item fits; once full, always full. */
    method Push(item: Item, fits: bool) returns (ok: bool)
      requires Valid()
      modifies this`items, this`full, buffer
      ensures Valid() && full == !ok
      ensures ok <==> !old(full) && old(items) < buffer.Length && fits
      ensures Contents() == if ok then old(Contents()) + [item] else old(Contents())
    {
      if full {
        return false;
      }
      if items == buffer.Length {
        full := true;
        return false;
      }
      if !fits {
        full := true;
        return false;
      }
      buffer[items] := item;
      items := items + 1;
      return true;
    }

    method Sort()
      requires Valid()
      modifies buffer
      ensures Valid() && SortedPermutation(Contents(), old(multiset(Contents())))
    {
      PS.QsortJob(buffer, 0, items, minSize);
      assert buffer[..][0..items] == buffer[..items];
    }

    method ShrinkBuffer()
      requires Valid()
      modifies this`buffer
      ensures Valid() && fresh(buffer) && Contents() == old(Contents()) && buffer.Length == items
    {
      var old' := buffer;
      buffer := new Item[items](i requires 0 <= i < items && items <= old'.Length reads this, old' => old'[i]);
      assert buffer[..items] == old'[..items];
    }

    method Reset()
      requires Valid()
      modifies this`items, this`full
      ensures Valid() && items == 0 && !full
    {
      items, full := 0, false;
    }

    method Free()
      requires Valid()
      modifies this`items, this`full, this`buffer
      ensures Valid() && items == 0 && !full && fresh(buffer) && buffer.Length == 0
    {
      Reset();
      buffer := new Item[0];
    }
  }
}
