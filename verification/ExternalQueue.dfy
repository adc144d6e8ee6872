/** The FIFO queue of tpie/queue.h, and the circular queue of tpie/internal_queue.h in its middle. */
module ExternalQueue {
  import opened Options
  import opened Arithmetic
  import opened Order
  import opened FileStreams

  // The n elements that follow the first one around the circle.
  ghost function Around(s: seq<Item>, first: nat, n: nat): (items: seq<Item>)
    requires n <= |s|
    ensures |items| == n
  {
    seq(n, i requires 0 <= i < n => s[(first + i) % |s|])
  }

  // Fewer than n steps around the circle lead to a different place.
  lemma DifferentPlaces(i: nat, j: nat, n: nat)
    requires i < j < i + n
    ensures i % n != j % n
  {
    var q, r, d := i / n, i % n, j - i;
    assert i == q * n + r;
    if r + d < n {
      DivUnique(j, n, q, r + d);
    } else {
      MulNext(q, n);
      DivUnique(j, n, q + 1, r + d - n);
    }
  }

  lemma AroundMore(s: seq<Item>, first: nat, n: nat, x: Item)
    requires n < |s|
    ensures Around(s[(first + n) % |s| := x], first, n + 1) == Around(s, first, n) + [x]
  {
    var before, after := Around(s, first, n), Around(s[(first + n) % |s| := x], first, n + 1);
    forall i: nat | i < n ensures after[i] == before[i] {
      DifferentPlaces(first + i, first + n, |s|);
    }
  }

  lemma AroundLess(s: seq<Item>, first: nat, n: nat)
    requires 1 <= n <= |s|
    ensures Around(s, first + 1, n - 1) == Around(s, first, n)[1..]
    ensures Around(s, first, n)[0] == s[first % |s|]
  {
    var before, after := Around(s, first, n), Around(s, first + 1, n - 1);
    forall i | 0 <= i < n - 1 ensures after[i] == before[i + 1] {
      assert first + 1 + i == first + (i + 1);
    }
  }

  class InternalQueue {
    const elements: array<Item>
    var first: nat
    var last: nat

    ghost predicate Valid()
      reads this
    {
      first <= last <= first + elements.Length
    }

    // The elements from the oldest to the newest, wherever the circle starts.
    ghost function Contents(): (items: seq<Item>)
      requires Valid()
      reads this, elements
      ensures |items| == last - first
    {
      Around(elements[..], first, last - first)
    }

    constructor (size: nat)
      ensures Valid() && fresh(elements) && elements.Length == size && Contents() == [] && first == last == 0
    {
      elements := new Item[size](_ => Item(0, 0));
      first, last := 0, 0;
    }

    predicate Empty()
      reads this
    {
      first == last
    }

    predicate Full()
      reads this
    {
      last - first == elements.Length
    }

    method Front() returns (x: Item)
      requires Valid() && !Empty()
      ensures x == Contents()[0]
    {
      AroundLess(elements[..], first, last - first);
      x := elements[first % elements.Length];
    }

    /** Adds an element behind the others; on a full circle it replaces the first one, which is not noticed. */
    method Push(x: Item)
      requires Valid() && elements.Length > 0
      modifies this`last, elements
      ensures last == old(last) + 1 && elements[..] == old(elements[..])[old(last) % elements.Length := x]
      ensures Valid() <==> !old(Full())
      ensures Valid() ==> Contents() == old(Contents()) + [x]
    {
      if !Full() {
        AroundMore(elements[..], first, last - first, x);
      }
      elements[last % elements.Length] := x;
      last := last + 1;
    }

    /** Removes the first element; on an empty circle this is not noticed. */
    method Pop()
      requires Valid()
      modifies this`first
      ensures first == old(first) + 1
      ensures Valid() <==> !old(Empty())
      ensures Valid() ==> Contents() == old(Contents())[1..]
    {
      if !Empty() {
        AroundLess(elements[..], first, last - first);
      }
      first := first + 1;
    }
  }

  /** Items wait in the unread part of the pop stream, then in the center queue, then in the push stream. */
  class Queue {
    const queueA: FileStream
    const queueB: FileStream
    const centerQueue: InternalQueue
    var currentQueue: bool
    var size: int

    function PushQueue(): FileStream
      reads this`currentQueue
    {
      if currentQueue then queueA else queueB
    }

    function PopQueue(): FileStream
      reads this`currentQueue
    {
      if currentQueue then queueB else queueA
    }

    ghost function Contents(): seq<Item>
      requires centerQueue.Valid() && PopQueue().s.Valid()
      reads this`currentQueue, queueA, queueB, centerQueue, centerQueue.elements
    {
      PopQueue().s.items[PopQueue().s.pos..] + centerQueue.Contents() + PushQueue().s.items
    }

    ghost predicate Shape()
      reads this`currentQueue, queueA, queueB, centerQueue
    {
      && queueA != queueB && centerQueue.Valid() && PopQueue().s.Valid()
      && PushQueue().s.pos == |PushQueue().s.items|
    }

    ghost predicate Valid()
      reads this, queueA, queueB, centerQueue, centerQueue.elements
    {
      Shape() && size == |Contents()|
    }

    constructor (blockItems: nat)
      ensures Valid() && fresh(queueA) && fresh(queueB) && fresh(centerQueue) && fresh(centerQueue.elements)
      ensures Contents() == [] && size == 0
    {
      queueA := new FileStream([]);
      queueB := new FileStream([]);
      centerQueue := new InternalQueue(blockItems);
      currentQueue := true;
      size := 0;
    }

    predicate Empty()
      reads this
    {
      size == 0
    }

    /** Adds an item at the back, which is the center queue while it has room and nothing is behind it. */
    method Push(x: Item)
      requires Valid()
      modifies this`size, queueA, queueB, centerQueue`last, centerQueue.elements
      ensures Valid() && Contents() == old(Contents()) + [x]
    {
      ghost var front, back := PopQueue().s.items[PopQueue().s.pos..], PushQueue().s.items;
      if |PushQueue().s.items| == 0 && !centerQueue.Full() {
        ghost var center := centerQueue.Contents();
        centerQueue.Push(x);
        assert front + (center + [x]) + back == front + center + back + [x];
      } else {
        PushQueue().Write(x);
        assert PushQueue().s.items == back + [x];
      }
      size := size + 1;
    }

    // What was the push stream is read from its beginning, and the exhausted pop stream is emptied.
    method SwapFileStreams()
      requires Shape() && !PopQueue().s.CanRead() && centerQueue.Empty()
      modifies this`currentQueue, queueA, queueB
      ensures Shape() && Contents() == old(Contents())
      ensures PopQueue().s == Stream(old(PushQueue().s.items), 0) && PushQueue().s == Stream([], 0)
    {
      currentQueue := !currentQueue;
      PopQueue().Seek(0);
      PushQueue().Truncate(0);
    }

    /**
     * Removes and returns the oldest item; None, the end-of-stream exception, exactly when there is none, but by then
     * the size is off by one.
     */
    method Pop() returns (x: Option<Item>)
      requires Valid()
      modifies this, queueA, queueB, centerQueue`first
      ensures old(Contents()) != [] ==> Valid() && x.Some? && [x.value] + Contents() == old(Contents())
      ensures old(Contents()) == [] ==> x == None && Shape() && Contents() == [] && size == -1
    {
      size := size - 1;
      if PopQueue().s.CanRead() {
        x := PopFromStream();
      } else if !centerQueue.Empty() {
        x := PopFromCenter();
      } else {
        SwapFileStreams();
        if !PopQueue().s.CanRead() {
          return None;
        }
        x := PopFromStream();
      }
    }

    method PopFromCenter() returns (x: Option<Item>)
      requires Shape() && !PopQueue().s.CanRead() && !centerQueue.Empty()
      modifies centerQueue`first
      ensures Shape() && x.Some? && [x.value] + Contents() == old(Contents())
    {
      ghost var center, back := centerQueue.Contents(), PushQueue().s.items;
      var y := centerQueue.Front();
      centerQueue.Pop();
      assert [y] + center[1..] + back == center + back;
      return Some(y);
    }

    method PopFromStream() returns (x: Option<Item>)
      requires Shape() && PopQueue().s.CanRead()
      modifies queueA, queueB
      ensures Shape() && x.Some? && [x.value] + Contents() == old(Contents())
    {
      ghost var s, rest := PopQueue().s, centerQueue.Contents() + PushQueue().s.items;
      var y := PopQueue().Read();
      assert [y] + s.items[s.pos + 1..] == s.items[s.pos..];
      assert [y] + (s.items[s.pos + 1..] + rest) == s.items[s.pos..] + rest;
      return Some(y);
    }

    /** The oldest item, and None, the end-of-stream exception, exactly when there is none; nothing is removed. */
    method Front() returns (x: Option<Item>)
      requires Valid()
      modifies this`currentQueue, queueA, queueB
      ensures Valid() && Contents() == old(Contents())
      ensures x == if Contents() == [] then None else Some(Contents()[0])
    {
      if PopQueue().s.CanRead() {
        return Some(PopQueue().s.items[PopQueue().s.pos]);
      }
      if !centerQueue.Empty() {
        var y := centerQueue.Front();
        return Some(y);
      }
      SwapFileStreams();
      if !PopQueue().s.CanRead() {
        return None;
      }
      return Some(PopQueue().s.items[PopQueue().s.pos]);
    }
  }

  /** A second item in a circle of one takes the place of the first, and the circle holds more than it can. */
  method PushedTooMany(x: Item, y: Item) returns (front: Item, last: nat, size: nat)
    ensures front == y && last > size
  {
    var q := new InternalQueue(1);
    q.Push(x);
    q.Push(y);
    return q.elements[q.first % q.elements.Length], q.last - q.first, q.elements.Length;
  }

  /** A pop from an empty circle puts its beginning behind its end. */
  method PoppedTooMany() returns (first: nat, last: nat)
    ensures first > last
  {
    var q := new InternalQueue(1);
    q.Pop();
    return q.first, q.last;
  }

  /** Popping a new queue leaves it with less than nothing. */
  method PoppingNothing() returns (x: Option<Item>, size: int)
    ensures x == None && size == -1
  {
    var q := new Queue(1);
    x := q.Pop();
    size := q.size;
  }
}
