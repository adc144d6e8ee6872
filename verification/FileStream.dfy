/** A TPIE file stream: a sequence of items and a position in it. */
module FileStreams {
  import opened Options
  import opened Order

  // The items after writing xs at position pos: existing items are overwritten, and the
  // sequence grows when the end is reached.
  function Overwrite(items: seq<Item>, pos: nat, xs: seq<Item>): seq<Item>
    requires pos <= |items|
  {
    items[..pos] + xs + if pos + |xs| < |items| then items[pos + |xs|..] else []
  }

  /** Just the items from the position on are replaced, and items are added only behind the end. */
  lemma OverwriteAt(items: seq<Item>, pos: nat, xs: seq<Item>, k: nat)
    requires pos <= |items|
    ensures |Overwrite(items, pos, xs)| == if pos + |xs| < |items| then |items| else pos + |xs|
    ensures k < |Overwrite(items, pos, xs)| ==>
      Overwrite(items, pos, xs)[k] == if pos <= k < pos + |xs| then xs[k - pos] else items[k]
  {
  }

  lemma OverwriteMore(items: seq<Item>, pos: nat, xs: seq<Item>, ys: seq<Item>)
    requires pos <= |items|
    ensures pos + |xs| <= |Overwrite(items, pos, xs)|
    ensures Overwrite(Overwrite(items, pos, xs), pos + |xs|, ys) == Overwrite(items, pos, xs + ys)
  {
  }

  // The state of a stream.
  datatype Stream = Stream(items: seq<Item>, pos: nat) {
    ghost predicate Valid() {
      pos <= |items|
    }

    predicate CanRead() {
      pos < |items|
    }

    function Remaining(): nat
      requires Valid()
    {
      |items| - pos
    }

    function Write(xs: seq<Item>): Stream
      requires Valid()
    {
      Stream(Overwrite(items, pos, xs), pos + |xs|)
    }
  }

  lemma WriteMore(s: Stream, xs: seq<Item>, ys: seq<Item>)
    requires s.Valid()
    ensures s.Write(xs).Valid() && s.Write(xs).Write(ys) == s.Write(xs + ys) && s.Write(xs + ys).Valid()
  {
    OverwriteMore(s.items, s.pos, xs, ys);
  }

  lemma WriteNothing(s: Stream)
    requires s.Valid()
    ensures s.Write([]) == s
  {
  }

  // A stream object: streams that are not owned by one pointer may be the same object.
  class FileStream {
    var s: Stream

    constructor (content: seq<Item>)
      ensures s == Stream(content, 0)
    {
      s := Stream(content, 0);
    }

    method Read() returns (x: Item)
      requires s.CanRead()
      modifies this
      ensures x == old(s.items[s.pos]) && s == old(s.(pos := s.pos + 1))
    {
      x := s.items[s.pos];
      s := s.(pos := s.pos + 1);
    }

    /** Reads the item before the position; None, the out-of-file exception, at the beginning. */
    method ReadBack() returns (x: Option<Item>)
      requires s.Valid()
      modifies this
      ensures x == if old(s.pos) == 0 then None else Some(old(s.items)[old(s.pos) - 1])
      ensures s == if old(s.pos) == 0 then old(s) else old(s).(pos := old(s.pos) - 1)
    {
      if s.pos == 0 {
        return None;
      }
      s := s.(pos := s.pos - 1);
      x := Some(s.items[s.pos]);
    }

    method Write(x: Item)
      requires s.Valid()
      modifies this
      ensures s == old(s).Write([x]) && s.Valid()
    {
      s := Stream(if s.pos < |s.items| then s.items[s.pos := x] else s.items + [x], s.pos + 1);
    }

    method Seek(offset: nat)
      requires offset <= |s.items|
      modifies this
      ensures s == old(s).(pos := offset)
    {
      s := s.(pos := offset);
    }

    // A stream that was beyond the new end is moved back to it.
    method Truncate(size: nat)
      requires s.Valid() && size <= |s.items|
      modifies this
      ensures s == Stream(old(s.items)[..size], if old(s.pos) <= size then old(s.pos) else size)
    {
      s := Stream(s.items[..size], if s.pos <= size then s.pos else size);
    }
  }
}
