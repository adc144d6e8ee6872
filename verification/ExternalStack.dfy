/** The LIFO stack of tpie/stack.h: a stream up to its position, and a buffer on top of it. */
module ExternalStack {
  import opened Options
  import opened Order
  import opened FileStreams

  class Stack {
    const stream: FileStream
    const buffer: array<Item>
    var bufferItems: nat

    ghost predicate Valid()
      reads this, stream
    {
      stream.s.Valid() && bufferItems <= buffer.Length && buffer.Length >= 1
    }

    // From the bottom to the top. What is left of the stream behind its position is not on the stack.
    ghost function Contents(): seq<Item>
      requires Valid()
      reads this, stream, buffer
    {
      stream.s.items[..stream.s.pos] + buffer[..bufferItems]
    }

    /** Opens a stack that a file holds already. */
    constructor (content: seq<Item>, bufferSize: nat)
      requires bufferSize >= 1
      ensures Valid() && fresh(stream) && fresh(buffer) && Contents() == content
    {
      stream := new FileStream(content);
      buffer := new Item[bufferSize](_ => Item(0, 0));
      bufferItems := 0;
      new;
      stream.Seek(|content|);
    }

    function Size(): nat
      reads this, stream
    {
      stream.s.pos + bufferItems
    }

    lemma SizeIsLength()
      requires Valid()
      ensures Size() == |Contents()|
    {
    }

    // The popped end of the stream is cut off before the buffer is written behind the rest.
    method EmptyBuffer()
      requires Valid()
      modifies this, stream
      ensures Valid() && bufferItems == 0 && Contents() == old(Contents())
    {
      if bufferItems == 0 {
        return;
      }
      ghost var all := Contents();
      stream.Truncate(stream.s.pos);
      for i := 0 to bufferItems
        modifies stream
        invariant stream.s == Stream(all[..old(stream.s.pos) + i], old(stream.s.pos) + i)
      {
        stream.Write(buffer[i]);
      }
      bufferItems := 0;
    }

    method Push(x: Item)
      requires Valid()
      modifies this, stream, buffer
      ensures Valid() && Contents() == old(Contents()) + [x]
    {
      ghost var all := Contents();
      if buffer.Length == bufferItems {
        EmptyBuffer();
      }
      buffer[bufferItems] := x;
      bufferItems := bufferItems + 1;
      assert Contents() == all + [x];
    }

    /** Removes and returns the newest item; None, the out-of-file exception, exactly when there is none. */
    method Pop() returns (x: Option<Item>)
      requires Valid()
      modifies this, stream
      ensures Valid()
      ensures old(Contents()) == [] ==> x == None && Contents() == []
      ensures old(Contents()) != [] ==> x.Some? && Contents() + [x.value] == old(Contents())
    {
      ghost var all := Contents();
      if bufferItems > 0 {
        bufferItems := bufferItems - 1;
        assert Contents() + [buffer[bufferItems]] == all;
        return Some(buffer[bufferItems]);
      }
      x := stream.ReadBack();
      if x.Some? {
        assert Contents() + [x.value] == all;
      }
    }

    /** The newest item; nothing is removed. */
    method Top() returns (x: Option<Item>)
      requires Valid()
      modifies stream, buffer
      ensures Valid() && Contents() == old(Contents())
      ensures x == if Contents() == [] then None else Some(Contents()[|Contents()| - 1])
    {
      if bufferItems > 0 {
        return Some(buffer[bufferItems - 1]);
      }
      x := stream.ReadBack();
      if x.Some? {
        buffer[0] := x.value;
        var _ := stream.Read();
      }
    }

    /** Closing leaves exactly the stack in the file. */
    method Close()
      requires Valid()
      modifies this, stream
      ensures stream.s.items == old(Contents())
    {
      EmptyBuffer();
      stream.Truncate(stream.s.pos);
    }
  }
}
