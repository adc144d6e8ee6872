/** The in-memory sorter of tpie/internal_sort.h: one memory load of a stream to another stream. */
module InternalSort {
  import opened Options
  import opened Order
  import opened FileStreams
  import PS = ParallelSort

  datatype InternalError = BufferOverfull | NoBuffer | EndOfStream

  class InternalSorter {
    var itemArray: array<Item>
    const minSize: nat

    constructor (minSize: nat)
      requires minSize >= 1
      ensures fresh(itemArray) && itemArray.Length == 0 && this.minSize == minSize
    {
      itemArray := new Item[0];
      this.minSize := minSize;
    }

    method Allocate(nItems: nat)
      modifies this
      ensures fresh(itemArray) && itemArray.Length == nItems
    {
      itemArray := new Item[nItems](_ => Item(0, 0));
    }

    method Deallocate()
      modifies this
      ensures fresh(itemArray) && itemArray.Length == 0
    {
      itemArray := new Item[0];
    }

    // A read beyond the end of the stream raises.
    method ReadItems(inStr: FileStream, nItems: nat) returns (ok: bool)
      requires inStr.s.Valid() && nItems <= itemArray.Length
      modifies inStr, itemArray
      ensures ok <==> nItems <= old(inStr.s.Remaining())
      ensures inStr.s == old(inStr.s).(pos := if ok then old(inStr.s.pos) + nItems else |old(inStr.s.items)|)
      ensures ok ==> itemArray[..nItems] == old(inStr.s.items)[old(inStr.s.pos)..][..nItems]
    {
      ghost var start := inStr.s;
      for i := 0 to nItems
        invariant i <= start.Remaining() && inStr.s == start.(pos := start.pos + i)
        invariant forall k :: 0 <= k < i ==> itemArray[k] == start.items[start.pos + k]
      {
        if !inStr.s.CanRead() {
          return false;
        }
        itemArray[i] := inStr.Read();
      }
      ok := true;
    }

    method WriteItems(outStr: FileStream, nItems: nat)
      requires outStr.s.Valid() && nItems <= itemArray.Length
      modifies outStr
      ensures outStr.s == old(outStr.s).Write(itemArray[..nItems]) && outStr.s.Valid()
    {
      WriteNothing(outStr.s);
      for i := 0 to nItems
        invariant outStr.s == old(outStr.s).Write(itemArray[..i]) && outStr.s.Valid()
      {
        WriteMore(old(outStr.s), itemArray[..i], [itemArray[i]]);
        assert itemArray[..i + 1] == itemArray[..i] + [itemArray[i]];
        outStr.Write(itemArray[i]);
      }
    }

    /** Sorts nItems from one stream's position to the other's; a stream sorted onto itself is emptied first. */
    method Sort(inStr: FileStream, outStr: FileStream, nItems: nat)
      returns (error: Option<InternalError>, ghost run: seq<Item>)
      requires inStr.s.Valid() && outStr.s.Valid() && minSize >= 1
      modifies inStr, outStr, itemArray
      ensures error == if nItems > itemArray.Length then Some(BufferOverfull)
                       else if itemArray.Length == 0 then Some(NoBuffer)
                       else if nItems > old(inStr.s.Remaining()) then Some(EndOfStream) else None
      ensures error.Some? ==> inStr.s.items == old(inStr.s.items) && (inStr != outStr ==> outStr.s == old(outStr.s))
      ensures error.Some? ==>
        inStr.s.pos == if error == Some(EndOfStream) then |inStr.s.items| else old(inStr.s.pos)
      ensures error.None? ==> |run| == nItems
      ensures error.None? ==> SortedPermutation(run, multiset(old(inStr.s.items)[old(inStr.s.pos)..][..nItems]))
      ensures error.None? && inStr != outStr ==>
        inStr.s == old(inStr.s).(pos := old(inStr.s.pos) + nItems) && outStr.s == old(outStr.s).Write(run)
      ensures error.None? && inStr == outStr ==> outStr.s == Stream(run, nItems)
    {
      if nItems > itemArray.Length {
        return Some(BufferOverfull), [];
      }
      if itemArray.Length == 0 {
        return Some(NoBuffer), [];
      }
      var ok := ReadItems(inStr, nItems);
      if !ok {
        return Some(EndOfStream), [];
      }
      PS.QsortJob(itemArray, 0, nItems, minSize);
      run := itemArray[..nItems];
      assert itemArray[..][0..nItems] == run;
      if inStr == outStr {
        inStr.Truncate(0);
        inStr.Seek(0);
      }
      WriteItems(outStr, nItems);
      error := None;
    }
  }
}
