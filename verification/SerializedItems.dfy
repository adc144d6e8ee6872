/** Values written to and read from the block-structured streams. */
module SerializedItems {
  import opened Options
  import opened Order
  import opened Bytes
  import opened Serialization
  import opened SerializationStreams
  import opened RunFiles

  method WriteValue(w: Writer, v: Value, t: Type)
    requires w.Valid() && HasType(v, t)
    modifies w`index, w.base, w.block
    ensures w.Valid() && w.Contents() == old(w.Contents()) + Serialize(v, t)
  {
    var writes := Writes(v, t);
    for i := 0 to |writes|
      invariant w.Valid() && w.Contents() == old(w.Contents()) + Flatten(writes[..i])
    {
      w.Write(writes[i]);
      assert writes[..i + 1] == writes[..i] + [writes[i]];
      FlattenAppend(writes[..i], writes[i]);
    }
    assert writes[..|writes|] == writes;
  }

  method WriteValueReverse(w: ReverseWriter, v: Value, t: Type)
    requires w.Valid() && HasType(v, t) && w.serializationBuffer == []
    modifies w`index, w`serializationBuffer, w.base, w.block
    ensures w.Valid() && w.serializationBuffer == []
    ensures w.Contents() == old(w.Contents()) + Reversed(Serialize(v, t))
  {
    var writes := Writes(v, t);
    for i := 0 to |writes|
      modifies w`serializationBuffer
      invariant w.serializationBuffer == Flatten(writes[..i])
    {
      w.Write(writes[i]);
      assert writes[..i + 1] == writes[..i] + [writes[i]];
      FlattenAppend(writes[..i], writes[i]);
    }
    assert writes[..|writes|] == writes;
    w.EndItem();
  }

  // Reading has done what the pure function says.
  ghost predicate Reads<T>(r: Reader, o: Option<T>, past: nat, expected: Option<Read<T>>)
    requires r.Valid()
    reads r, r.block
  {
    && (o.Some? <==> expected.Some?)
    && (o.None? ==> r.Unread() == [])
    && (o.Some? ==> o.value == expected.value.value && r.Unread() == expected.value.rest && r.past == past)
  }

  /** Reads a value of the given type from the stream, as Unserialize does from its unread bytes. */
  method ReadValue(r: Reader, t: Type) returns (o: Option<Value>)
    requires r.Valid()
    modifies r, r.block
    ensures r.Valid() && r.block == old(r.block)
    ensures Reads(r, o, old(r.past), Unserialize(t, old(r.Unread())))
    decreases t, 1, 0
  {
    hide Reader.Valid;
    ghost var input := r.Unread();
    match t
    case Trivial(width) =>
      var bytes := r.Read(width);
      if bytes.None? {
        return None;
      }
      return Some(Plain(bytes.value));
    case Pair(first, second) =>
      var a := ReadValue(r, first);
      if a.None? {
        return None;
      }
      var b := ReadValue(r, second);
      if b.None? {
        return None;
      }
      return Some(Both(a.value, b.value));
    case Tuple(elements) =>
      var items := ReadTuple(r, elements, |elements|, t);
      return Wrapped(items);
    case Array(length, element) =>
      var items := ReadArray(r, element, length);
      return Wrapped(items);
    case Vector(element) =>
      var size := r.Read(SIZE_WIDTH);
      if size.None? {
        return None;
      }
      var items := ReadArray(r, element, FromLittleEndian(size.value));
      return Wrapped(items);
  }

  function Wrapped(items: Option<seq<Value>>): Option<Value> {
    if items.None? then None else Some(Many(items.value))
  }

  method ReadTuple(r: Reader, elements: seq<Type>, k: nat, ghost t: Type) returns (o: Option<seq<Value>>)
    requires r.Valid() && t == Tuple(elements) && k <= |elements|
    modifies r, r.block
    ensures r.Valid() && r.block == old(r.block)
    ensures Reads(r, o, old(r.past), UnserializeTuple(elements, k, old(r.Unread()), t))
    decreases t, 0, k
  {
    hide Reader.Valid;
    if k == 0 {
      return Some([]);
    }
    var a := ReadTuple(r, elements, k - 1, t);
    if a.None? {
      return None;
    }
    var b := ReadValue(r, elements[k - 1]);
    if b.None? {
      return None;
    }
    return Some(a.value + [b.value]);
  }

  method ReadArray(r: Reader, element: Type, n: nat) returns (o: Option<seq<Value>>)
    requires r.Valid()
    modifies r, r.block
    ensures r.Valid() && r.block == old(r.block)
    ensures Reads(r, o, old(r.past), UnserializeArray(element, n, old(r.Unread())))
    decreases element, 3, 0
  {
    hide Reader.Valid;
    if element.Trivial? {
      var memory := r.Read(n * element.width);
      if memory.None? {
        return None;
      }
      return Some(Elements(memory.value, n, element.width));
    }
    o := ReadEach(r, element, n);
  }

  // Some items have been read in front of the others.
  function After(items: seq<Value>, r: Option<Read<seq<Value>>>): Option<Read<seq<Value>>> {
    if r.None? then None else Some(Read(items + r.value.value, r.value.rest))
  }

  lemma OneMoreRead(items: seq<Value>, element: Type, n: nat, input: seq<Byte>)
    requires n > 0
    ensures Unserialize(element, input).None? ==> UnserializeEach(element, n, input).None?
    ensures Unserialize(element, input).Some? ==>
      var a := Unserialize(element, input).value;
      After(items, UnserializeEach(element, n, input))
        == After(items + [a.value], UnserializeEach(element, n - 1, a.rest))
  {
    if Unserialize(element, input).Some? {
      var a := Unserialize(element, input).value;
      var b := UnserializeEach(element, n - 1, a.rest);
      if b.Some? {
        assert items + ([a.value] + b.value.value) == items + [a.value] + b.value.value;
      }
    }
  }

  method ReadEach(r: Reader, element: Type, n: nat) returns (o: Option<seq<Value>>)
    requires r.Valid()
    modifies r, r.block
    ensures r.Valid() && r.block == old(r.block)
    ensures Reads(r, o, old(r.past), UnserializeEach(element, n, old(r.Unread())))
    decreases element, 2, 0
  {
    hide Reader.Valid, Reader.Unread, After, UnserializeEach, Unserialize;
    ghost var all := UnserializeEach(element, n, r.Unread());
    var items := [];
    FirstRead(all);
    for i := 0 to n
      invariant r.Valid() && r.block == old(r.block) && r.past == old(r.past)
      invariant all == After(items, UnserializeEach(element, n - i, r.Unread()))
    {
      OneMoreRead(items, element, n - i, r.Unread());
      var a := ReadValue(r, element);
      if a.None? {
        NoneRead(items);
        return None;
      }
      items := items + [a.value];
    }
    LastRead(items, element, r.Unread());
    return Some(items);
  }

  lemma FirstRead(all: Option<Read<seq<Value>>>)
    ensures After([], all) == all
  {
    if all.Some? {
      assert [] + all.value.value == all.value.value;
    }
  }

  lemma NoneRead(items: seq<Value>)
    ensures After(items, None) == None
  {
  }

  lemma LastRead(items: seq<Value>, element: Type, input: seq<Byte>)
    ensures After(items, UnserializeEach(element, 0, input)) == Some(Read(items, input))
  {
    assert items + [] == items;
  }

  // ---------- Whole streams

  ghost predicate AllTyped(values: seq<Value>, types: seq<Type>) {
    |values| == |types| && forall i :: 0 <= i < |values| ==> HasType(values[i], types[i])
  }

  // The bytes of each value.
  ghost function Encoded(values: seq<Value>, types: seq<Type>): (r: seq<seq<Byte>>)
    requires AllTyped(values, types)
    ensures |r| == |values| && forall i :: 0 <= i < |r| ==> r[i] == Serialize(values[i], types[i])
  {
    seq(|values|, i requires 0 <= i < |values| => Serialize(values[i], types[i]))
  }

  lemma FlattenNext(parts: seq<seq<Byte>>, i: nat)
    requires i < |parts|
    ensures Flatten(parts[..i + 1]) == Flatten(parts[..i]) + parts[i]
  {
    assert parts[..i + 1] == parts[..i] + [parts[i]];
    FlattenAppend(parts[..i], parts[i]);
  }

  // What follows the first i parts.
  ghost function Onwards(parts: seq<seq<Byte>>, i: nat): seq<Byte>
    requires i <= |parts|
    decreases |parts| - i
  {
    if i == |parts| then [] else parts[i] + Onwards(parts, i + 1)
  }

  lemma {:induction false} OnwardsIsFlat(parts: seq<seq<Byte>>, i: nat)
    requires i <= |parts|
    ensures Onwards(parts, i) == Flatten(parts[i..])
    decreases |parts| - i
  {
    if i < |parts| {
      OnwardsIsFlat(parts, i + 1);
      assert parts[i..][1..] == parts[i + 1..];
    }
  }

  lemma OneMore(values: seq<Value>, i: nat)
    requires i < |values|
    ensures values[..i + 1] == values[..i] + [values[i]]
  {
  }

  lemma OnwardsNext(parts: seq<seq<Byte>>, i: nat)
    requires i < |parts|
    ensures Onwards(parts, i) == parts[i] + Onwards(parts, i + 1) && Onwards(parts, |parts|) == []
  {
  }

  method WriteAll(values: seq<Value>, types: seq<Type>, blockSize: nat) returns (file: File)
    requires blockSize >= 1 && AllTyped(values, types)
    ensures var bytes := Flatten(Encoded(values, types)); file == File(Written(|bytes|, true, false), bytes)
  {
    var w := new Writer(blockSize);
    ghost var parts := Encoded(values, types);
    hide Writer.Valid, Writer.Contents;
    for i := 0 to |values|
      invariant fresh(w) && fresh(w.base) && fresh(w.block) && w.Valid() && w.Contents() == Flatten(parts[..i])
    {
      FlattenNext(parts, i);
      WriteValue(w, values[i], types[i]);
    }
    assert parts[..|values|] == parts;
    w.Close();
    file := w.base.file;
  }

  method ReadNext(r: Reader, ghost v: Value, t: Type, ghost rest: seq<Byte>) returns (back: Value)
    requires r.Valid() && HasType(v, t) && r.Unread() == Serialize(v, t) + rest
    modifies r, r.block
    ensures r.Valid() && r.block == old(r.block) && back == v && r.Unread() == rest
  {
    hide Reader.Valid, Reader.Unread, Serialize;
    RoundTrip(v, t, rest);
    var o := ReadValue(r, t);
    back := o.value;
  }

  method ReadAll(r: Reader, ghost values: seq<Value>, types: seq<Type>) returns (back: seq<Value>)
    requires r.Valid() && AllTyped(values, types) && r.Unread() == Flatten(Encoded(values, types))
    modifies r, r.block
    ensures r.Valid() && r.block == old(r.block) && back == values && r.Unread() == []
  {
    ghost var parts := Encoded(values, types);
    assert parts[0..] == parts;
    OnwardsIsFlat(parts, 0);
    back := [];
    hide Reader.Valid, Reader.Unread, Encoded, Flatten, Serialize, Onwards, HasType;
    for i := 0 to |types|
      invariant r.Valid() && r.block == old(r.block) && r.Unread() == Onwards(parts, i)
      invariant back == values[..i] && (i == |types| ==> r.Unread() == [])
    {
      OnwardsNext(parts, i);
      OneMore(values, i);
      var v := ReadNext(r, values[i], types[i], Onwards(parts, i + 1));
      back := back + [v];
    }
  }

  /** Writing values and reading them back through blocks of any size yields the same values, and then the end. */
  method ForwardRoundTrip(values: seq<Value>, types: seq<Type>, blockSize: nat) returns (back: seq<Value>, more: bool)
    requires blockSize >= 1 && AllTyped(values, types)
    ensures back == values && !more
  {
    hide Reader.Valid, Reader.Unread, Encoded;
    var file := WriteAll(values, types, blockSize);
    var e, r := OpenReader(file, false, blockSize);
    back := ReadAll(r, values, types);
    more := r.CanRead();
  }

  // The values in the order in which the reverse reader meets them.
  ghost function Backwards(parts: seq<seq<Byte>>, i: nat): seq<Byte>
    requires i <= |parts|
  {
    if i == 0 then [] else parts[i - 1] + Backwards(parts, i - 1)
  }

  method WriteAllReverse(values: seq<Value>, types: seq<Type>, blockSize: nat) returns (file: File)
    requires blockSize >= 1 && AllTyped(values, types)
    ensures var bytes := Reversed(Backwards(Encoded(values, types), |values|));
      file == File(Written(|bytes|, true, true), bytes)
  {
    hide ReverseWriter.Valid, ReverseWriter.Contents, Reversed, Encoded, Serialize, Backwards, HasType;
    var w := new ReverseWriter(blockSize);
    ghost var parts := Encoded(values, types);
    NothingBackwards(parts);
    for i := 0 to |values|
      invariant fresh(w) && fresh(w.base) && fresh(w.block) && w.Valid() && w.serializationBuffer == []
      invariant w.Contents() == Reversed(Backwards(parts, i))
    {
      BackwardsNext(parts, i);
      ReversedConcat(parts[i], Backwards(parts, i));
      WriteValueReverse(w, values[i], types[i]);
    }
    w.Close();
    file := w.base.file;
  }

  method ReadAllReverse(r: Reader, ghost values: seq<Value>, types: seq<Type>) returns (back: seq<Value>)
    requires r.Valid() && AllTyped(values, types) && r.Unread() == Backwards(Encoded(values, types), |values|)
    modifies r, r.block
    ensures r.Valid() && r.block == old(r.block) && back == Reversed(values) && r.Unread() == []
  {
    hide Reader.Valid, Reader.Unread, Encoded, Reversed, Serialize, Backwards, HasType;
    ghost var parts := Encoded(values, types);
    back := [];
    var i := |types|;
    assert values[0..] == values && values[i..] == [];
    while i > 0
      invariant 0 <= i <= |types|
      invariant r.Valid() && r.block == old(r.block) && r.Unread() == Backwards(parts, i)
      invariant back == Reversed(values[i..])
    {
      i := i - 1;
      BackwardsNext(parts, i);
      var v := ReadNext(r, values[i], types[i], Backwards(parts, i));
      ReversedNext(values, i);
      back := back + [v];
    }
    NothingBackwards(parts);
  }

  lemma BackwardsNext(parts: seq<seq<Byte>>, i: nat)
    requires i < |parts|
    ensures Backwards(parts, i + 1) == parts[i] + Backwards(parts, i)
  {
  }

  lemma NothingBackwards(parts: seq<seq<Byte>>)
    ensures Backwards(parts, 0) == []
  {
  }

  lemma ReversedNext(values: seq<Value>, i: nat)
    requires i < |values|
    ensures Reversed(values[i..]) == Reversed(values[i + 1..]) + [values[i]]
  {
  }

  /** Values written in reverse are read back last to first, each one intact, and then the end. */
  method ReverseRoundTrip(values: seq<Value>, types: seq<Type>, blockSize: nat) returns (back: seq<Value>, more: bool)
    requires blockSize >= 1 && AllTyped(values, types)
    ensures back == Reversed(values) && !more
  {
    hide Reader.Valid, Reader.Unread, Encoded, Backwards, Reversed;
    var file := WriteAllReverse(values, types, blockSize);
    ReversedTwice(Backwards(Encoded(values, types), |values|));
    var e, r := OpenReader(file, true, blockSize);
    back := ReadAllReverse(r, values, types);
    more := r.CanRead();
  }

  // ---------- Runs of items, as the merge sorter writes and reads them

  /** A run file holds the bytes of the run, whatever the block size. */
  method WriteRunFile(run: seq<Item>, c: Codec, blockSize: nat) returns (file: File)
    requires blockSize >= 1
    ensures file == File(Written(|RunBytes(c, run)|, true, false), RunBytes(c, run))
  {
    hide Writer.Valid, Writer.Contents, RunBytes, Serialize;
    var w := new Writer(blockSize);
    NoItems(c);
    for i := 0 to |run|
      invariant fresh(w) && fresh(w.base) && fresh(w.block) && w.Valid() && w.Contents() == RunBytes(c, run[..i])
    {
      assert run[..i + 1] == run[..i] + [run[i]];
      WriteItem(c, run[..i], run[i]);
      WriteValue(w, c.value(run[i]), c.t);
    }
    assert run[..|run|] == run;
    w.Close();
    file := w.base.file;
  }

  lemma NoItems(c: Codec)
    ensures RunBytes(c, []) == []
  {
  }

  /** A reader of blocks delivers the next item of its bytes, or raises when they do not make one and has none left. */
  method ReadItem(r: Reader, c: Codec) returns (o: Option<Item>)
    requires r.Valid()
    modifies r, r.block
    ensures r.Valid() && r.block == old(r.block)
    ensures var next := NextItem(c, old(r.Unread()));
      if next.Some? then o == Some(next.value.0) && r.Unread() == next.value.1 else o == None && r.Unread() == []
  {
    hide Reader.Valid, Reader.Unread, Unserialize;
    var v := ReadValue(r, c.t);
    o := if v.Some? then Some(c.item(v.value)) else None;
  }

  /** Reading a run for as long as can_read holds. */
  method ReadRun(r: Reader, c: Codec, ghost run: seq<Item>) returns (back: seq<Item>)
    requires r.Valid() && r.Unread() == RunBytes(c, run) && KeepsRuns(c, [run])
    modifies r, r.block
    ensures r.Valid() && r.block == old(r.block)
    ensures back == if TakesBytes(c.t) then run else []
  {
    hide Reader.Valid, Reader.Unread, RunBytes, LeftOf, NextItem, TakesBytes;
    back := [];
    LeftAtFirst(c, run);
    BytesLeft(c, run, 0);
    var more := r.CanRead();
    while more
      invariant r.Valid() && r.block == old(r.block) && |back| <= |run| && back == run[..|back|]
      invariant r.Unread() == LeftOf(c, run, |back|) && (more <==> |back| < |run| && TakesBytes(c.t))
      invariant !TakesBytes(c.t) ==> back == []
      decreases |run| - |back|
    {
      ghost var k := |back|;
      ReadsNext(c, run, k);
      assert Keeps(c, [run][0][k]);
      var o := ReadItem(r, c);
      back := back + [o.value];
      BytesLeft(c, run, k + 1);
      more := r.CanRead();
    }
  }

  /** A run comes back item by item if and only if it is empty or its items take bytes. */
  method RunRoundTrip(run: seq<Item>, c: Codec, blockSize: nat) returns (back: seq<Item>)
    requires blockSize >= 1 && KeepsRuns(c, [run])
    ensures back == if TakesBytes(c.t) then run else []
  {
    var file := WriteRunFile(run, c, blockSize);
    var e, r := OpenReader(file, false, blockSize);
    back := ReadRun(r, c, run);
  }
}
