/** Serialization of nested values: tpie/serialization2.h. */
module Serialization {
  import opened Options
  import opened Arithmetic
  import opened Order
  import opened Bytes

  // A trivially serializable type is its size in memory. An Array has a fixed length, and a Vector
  // (a tpie::array, a std::vector or a string) carries its length.
  datatype Type =
    | Trivial(width: nat)
    | Pair(first: Type, second: Type)
    | Tuple(elements: seq<Type>)
    | Array(length: nat, element: Type)
    | Vector(element: Type)

  datatype Value = Plain(bytes: seq<Byte>) | Both(first: Value, second: Value) | Many(items: seq<Value>)

  const SIZE_WIDTH: nat := 8
  const SIZE_LIMIT: nat := 0x1_0000_0000_0000_0000

  ghost predicate HasType(v: Value, t: Type) {
    match t
    case Trivial(width) => v.Plain? && |v.bytes| == width
    case Pair(first, second) => v.Both? && HasType(v.first, first) && HasType(v.second, second)
    case Tuple(elements) => v.Many? && |v.items| == |elements| && AllHaveTypes(v.items, elements)
    case Array(length, element) => v.Many? && |v.items| == length && AllHaveType(v.items, element)
    case Vector(element) => v.Many? && |v.items| < SIZE_LIMIT && AllHaveType(v.items, element)
  }

  ghost predicate AllHaveType(items: seq<Value>, t: Type) {
    forall i :: 0 <= i < |items| ==> HasType(items[i], t)
  }

  // The first elements of a tuple.
  ghost predicate AllHaveTypes(items: seq<Value>, elements: seq<Type>) {
    |items| <= |elements| && forall i :: 0 <= i < |items| ==> HasType(items[i], elements[i])
  }

  // ---------- The bytes of a size

  function LittleEndian(n: nat, width: nat): (r: seq<Byte>)
    ensures |r| == width
  {
    if width == 0 then [] else [n % 256] + LittleEndian(n / 256, width - 1)
  }

  function FromLittleEndian(bytes: seq<Byte>): nat {
    if bytes == [] then 0 else bytes[0] + 256 * FromLittleEndian(bytes[1..])
  }

  lemma {:induction false} SizeReadsBack(n: nat, width: nat)
    requires n < Pow(256, width)
    ensures FromLittleEndian(LittleEndian(n, width)) == n
  {
    if width > 0 {
      SizeReadsBack(n / 256, width - 1);
      assert LittleEndian(n, width)[1..] == LittleEndian(n / 256, width - 1);
    }
  }

  lemma {:induction false} SizeWritesBack(bytes: seq<Byte>)
    ensures LittleEndian(FromLittleEndian(bytes), |bytes|) == bytes
    ensures FromLittleEndian(bytes) < Pow(256, |bytes|)
  {
    if bytes != [] {
      SizeWritesBack(bytes[1..]);
      var n := FromLittleEndian(bytes[1..]);
      DivUnique(bytes[0] + 256 * n, 256, n, bytes[0]);
    }
  }

  lemma SizeBound()
    ensures Pow(256, SIZE_WIDTH) == SIZE_LIMIT
  {
    assert Pow(256, 2) == 0x1_0000;
    assert Pow(256, 4) == 0x1_0000_0000;
    assert Pow(256, 6) == 0x1_0000_0000_0000;
  }

  // ---------- Serializing: the sequence of calls dst.write(bytes)

  function Writes(v: Value, t: Type): seq<seq<Byte>>
    requires HasType(v, t)
    decreases t, 1, 0
  {
    match t
    case Trivial(_) => [v.bytes]
    case Pair(first, second) => Writes(v.first, first) + Writes(v.second, second)
    case Tuple(elements) => TupleWrites(v.items, elements, t)
    case Array(_, element) => ArrayWrites(v.items, element)
    case Vector(element) => [LittleEndian(|v.items|, SIZE_WIDTH)] + ArrayWrites(v.items, element)
  }

  function TupleWrites(items: seq<Value>, elements: seq<Type>, ghost t: Type): seq<seq<Byte>>
    requires t == Tuple(elements) && AllHaveTypes(items, elements)
    decreases t, 0, |items|
  {
    if items == [] then [] else
      var k := |items| - 1;
      TupleWrites(items[..k], elements, t) + Writes(items[k], elements[k])
  }

  // array_encode_magic copies trivial elements at once.
  function ArrayWrites(items: seq<Value>, element: Type): seq<seq<Byte>>
    requires AllHaveType(items, element)
    decreases element, 3, 0
  {
    if element.Trivial? then if items == [] then [] else [Memory(items, element.width)]
    else EachWrites(items, element)
  }

  function EachWrites(items: seq<Value>, element: Type): seq<seq<Byte>>
    requires AllHaveType(items, element)
    decreases element, 2, |items|
  {
    if items == [] then [] else Writes(items[0], element) + EachWrites(items[1..], element)
  }

  // The bytes of an array of trivial elements.
  function Memory(items: seq<Value>, width: nat): (r: seq<Byte>)
    requires AllHaveType(items, Trivial(width))
    ensures |r| == |items| * width
  {
    if items == [] then [] else
      MulNext(|items| - 1, width);
      assert HasType(items[0], Trivial(width));
      items[0].bytes + Memory(items[1..], width)
  }

  function Serialize(v: Value, t: Type): seq<Byte>
    requires HasType(v, t)
  {
    Flatten(Writes(v, t))
  }

  /** Copying an array at once writes the same bytes as one element at a time. */
  lemma {:induction false} FastWriteIsSlowWrite(items: seq<Value>, width: nat)
    requires AllHaveType(items, Trivial(width))
    ensures Flatten(ArrayWrites(items, Trivial(width))) == Flatten(EachWrites(items, Trivial(width)))
      == Memory(items, width)
  {
    if items != [] {
      FastWriteIsSlowWrite(items[1..], width);
      FlattenConcat(Writes(items[0], Trivial(width)), EachWrites(items[1..], Trivial(width)));
      assert Flatten([items[0].bytes]) == items[0].bytes + Flatten<Byte>([]);
      assert Flatten([Memory(items, width)]) == Memory(items, width) + Flatten<Byte>([]);
    }
  }

  // ---------- Unserializing: what is read, and the bytes that are left

  datatype Read<T> = Read(value: T, rest: seq<Byte>)

  function Unserialize(t: Type, input: seq<Byte>): Option<Read<Value>>
    decreases t, 1, 0
  {
    match t
    case Trivial(width) =>
      if |input| < width then None else Some(Read(Plain(input[..width]), input[width..]))
    case Pair(first, second) =>
      var a := Unserialize(first, input);
      if a.None? then None else
        var b := Unserialize(second, a.value.rest);
        if b.None? then None else Some(Read(Both(a.value.value, b.value.value), b.value.rest))
    case Tuple(elements) => AsMany(UnserializeTuple(elements, |elements|, input, t))
    case Array(length, element) => AsMany(UnserializeArray(element, length, input))
    case Vector(element) =>
      if |input| < SIZE_WIDTH then None
      else AsMany(UnserializeArray(element, FromLittleEndian(input[..SIZE_WIDTH]), input[SIZE_WIDTH..]))
  }

  function AsMany(r: Option<Read<seq<Value>>>): Option<Read<Value>> {
    if r.None? then None else Some(Read(Many(r.value.value), r.value.rest))
  }

  function UnserializeTuple(elements: seq<Type>, k: nat, input: seq<Byte>, ghost t: Type): Option<Read<seq<Value>>>
    requires t == Tuple(elements) && k <= |elements|
    decreases t, 0, k
  {
    if k == 0 then Some(Read([], input))
    else
      var a := UnserializeTuple(elements, k - 1, input, t);
      if a.None? then None else
        var b := Unserialize(elements[k - 1], a.value.rest);
        if b.None? then None else Some(Read(a.value.value + [b.value.value], b.value.rest))
  }

  // array_decode_magic reads trivial elements at once.
  function UnserializeArray(element: Type, n: nat, input: seq<Byte>): Option<Read<seq<Value>>>
    decreases element, 3, 0
  {
    if element.Trivial? then
      if |input| < n * element.width then None
      else Some(Read(Elements(input[..n * element.width], n, element.width), input[n * element.width..]))
    else UnserializeEach(element, n, input)
  }

  function UnserializeEach(element: Type, n: nat, input: seq<Byte>): Option<Read<seq<Value>>>
    decreases element, 2, n
  {
    if n == 0 then Some(Read([], input))
    else
      var a := Unserialize(element, input);
      if a.None? then None else
        var b := UnserializeEach(element, n - 1, a.value.rest);
        if b.None? then None else Some(Read([a.value.value] + b.value.value, b.value.rest))
  }

  function Elements(memory: seq<Byte>, n: nat, width: nat): (r: seq<Value>)
    requires |memory| == n * width
    ensures |r| == n && AllHaveType(r, Trivial(width))
  {
    if n == 0 then [] else
      MulNext(n - 1, width);
      [Plain(memory[..width])] + Elements(memory[width..], n - 1, width)
  }

  lemma SplitMemory(input: seq<Byte>, i: nat, j: nat)
    requires i <= |input|
    ensures i + j <= |input| ==>
      && input[i..][..j] == input[..i + j][i..] && input[i..][j..] == input[i + j..]
      && input[..i + j][..i] == input[..i]
  {
  }

  /** Reading an array at once reads the same as one element at a time. */
  lemma {:induction false} FastReadIsSlowRead(n: nat, width: nat, input: seq<Byte>)
    ensures UnserializeArray(Trivial(width), n, input) == UnserializeEach(Trivial(width), n, input)
  {
    if n > 0 {
      MulNext(n - 1, width);
      MulMonotone(0, n - 1, width);
      if |input| >= width {
        FastReadIsSlowRead(n - 1, width, input[width..]);
        SplitMemory(input, width, (n - 1) * width);
      }
    } else {
      assert input[..0 * width] == [] && input[0 * width..] == input;
    }
  }

  // ---------- The round trip

  /** Unserializing what was serialized yields the value and leaves the rest of the stream untouched. */
  lemma {:induction false} RoundTrip(v: Value, t: Type, rest: seq<Byte>)
    requires HasType(v, t)
    ensures Unserialize(t, Serialize(v, t) + rest) == Some(Read(v, rest))
    decreases t, 1, 0
  {
    match t
    case Trivial(width) =>
      FlattenOne(v.bytes);
      TakeFirst(v.bytes, rest);
    case Pair(first, second) =>
      FlattenConcat(Writes(v.first, first), Writes(v.second, second));
      Associate(Serialize(v.first, first), Serialize(v.second, second), rest);
      RoundTrip(v.first, first, Serialize(v.second, second) + rest);
      RoundTrip(v.second, second, rest);
    case Tuple(elements) =>
      TupleRoundTrip(v.items, elements, rest, t);
    case Array(length, element) =>
      ArrayRoundTrip(v.items, element, rest);
    case Vector(element) =>
      var size := LittleEndian(|v.items|, SIZE_WIDTH);
      assert Serialize(v, t) == size + Flatten(ArrayWrites(v.items, element));
      Associate(size, Flatten(ArrayWrites(v.items, element)), rest);
      TakeFirst(size, Flatten(ArrayWrites(v.items, element)) + rest);
      SizeBound();
      SizeReadsBack(|v.items|, SIZE_WIDTH);
      ArrayRoundTrip(v.items, element, rest);
  }

  lemma FlattenOne(bytes: seq<Byte>)
    ensures Flatten([bytes]) == bytes
  {
    assert Flatten([bytes]) == bytes + Flatten<Byte>([]);
  }

  lemma Associate(a: seq<Byte>, b: seq<Byte>, c: seq<Byte>)
    ensures a + b + c == a + (b + c)
  {
  }

  lemma TakeFirst(a: seq<Byte>, b: seq<Byte>)
    ensures (a + b)[..|a|] == a && (a + b)[|a|..] == b
  {
  }

  lemma {:induction false} TupleRoundTrip(items: seq<Value>, elements: seq<Type>, rest: seq<Byte>, t: Type)
    requires t == Tuple(elements) && AllHaveTypes(items, elements)
    ensures UnserializeTuple(elements, |items|, Flatten(TupleWrites(items, elements, t)) + rest, t)
      == Some(Read(items, rest))
    decreases t, 0, |items|
  {
    if items == [] {
      assert Flatten<Byte>([]) + rest == rest;
    } else {
      var k := |items| - 1;
      var before, last := TupleWrites(items[..k], elements, t), Writes(items[k], elements[k]);
      FlattenConcat(before, last);
      Associate(Flatten(before), Flatten(last), rest);
      TupleRoundTrip(items[..k], elements, Flatten(last) + rest, t);
      RoundTrip(items[k], elements[k], rest);
      assert items == items[..k] + [items[k]];
    }
  }

  lemma {:induction false} ArrayRoundTrip(items: seq<Value>, element: Type, rest: seq<Byte>)
    requires AllHaveType(items, element)
    ensures UnserializeArray(element, |items|, Flatten(ArrayWrites(items, element)) + rest) == Some(Read(items, rest))
    decreases element, 3, 0
  {
    if element.Trivial? {
      FastWriteIsSlowWrite(items, element.width);
      FastReadIsSlowRead(|items|, element.width, Flatten(ArrayWrites(items, element)) + rest);
    }
    EachRoundTrip(items, element, rest);
  }

  lemma {:induction false} EachRoundTrip(items: seq<Value>, element: Type, rest: seq<Byte>)
    requires AllHaveType(items, element)
    ensures UnserializeEach(element, |items|, Flatten(EachWrites(items, element)) + rest) == Some(Read(items, rest))
    decreases element, 2, |items|
  {
    if items == [] {
      assert Flatten<Byte>([]) + rest == rest;
    } else {
      var first, others := Writes(items[0], element), EachWrites(items[1..], element);
      FlattenConcat(first, others);
      Associate(Flatten(first), Flatten(others), rest);
      RoundTrip(items[0], element, Flatten(others) + rest);
      EachRoundTrip(items[1..], element, rest);
      assert items == [items[0]] + items[1..];
    }
  }

  /** Conversely, whatever unserializes is the serialization of the value, followed by the rest. */
  lemma {:induction false} OnlySerializationsUnserialize(t: Type, input: seq<Byte>)
    requires Unserialize(t, input).Some?
    ensures var r := Unserialize(t, input).value;
            HasType(r.value, t) && input == Serialize(r.value, t) + r.rest
    decreases t, 1, 0
  {
    match t
    case Trivial(width) =>
      assert Flatten([input[..width]]) == input[..width] + Flatten<Byte>([]);
    case Pair(first, second) =>
      var a := Unserialize(first, input).value;
      var b := Unserialize(second, a.rest).value;
      OnlySerializationsUnserialize(first, input);
      OnlySerializationsUnserialize(second, a.rest);
      FlattenConcat(Writes(a.value, first), Writes(b.value, second));
      Associate(Serialize(a.value, first), Serialize(b.value, second), b.rest);
    case Tuple(elements) =>
      OnlyTuples(elements, |elements|, input, t);
    case Array(length, element) =>
      OnlyArrays(element, length, input);
    case Vector(element) =>
      var size := input[..SIZE_WIDTH];
      var n := FromLittleEndian(size);
      SizeBound();
      SizeWritesBack(size);
      OnlyArrays(element, n, input[SIZE_WIDTH..]);
      var a := UnserializeArray(element, n, input[SIZE_WIDTH..]).value;
      assert Flatten([size] + ArrayWrites(a.value, element)) == size + Flatten(ArrayWrites(a.value, element));
      Associate(size, Flatten(ArrayWrites(a.value, element)), a.rest);
      assert input == size + input[SIZE_WIDTH..];
  }

  lemma {:induction false} OnlyTuples(elements: seq<Type>, k: nat, input: seq<Byte>, t: Type)
    requires t == Tuple(elements) && k <= |elements| && UnserializeTuple(elements, k, input, t).Some?
    ensures var r := UnserializeTuple(elements, k, input, t).value;
            && |r.value| == k && AllHaveTypes(r.value, elements)
            && input == Flatten(TupleWrites(r.value, elements, t)) + r.rest
    decreases t, 0, k
  {
    if k == 0 {
      assert input == Flatten<Byte>([]) + input;
    } else {
      var a := UnserializeTuple(elements, k - 1, input, t).value;
      var b := Unserialize(elements[k - 1], a.rest).value;
      OnlyTuples(elements, k - 1, input, t);
      OnlySerializationsUnserialize(elements[k - 1], a.rest);
      assert (a.value + [b.value])[..k - 1] == a.value;
      var before, last := TupleWrites(a.value, elements, t), Writes(b.value, elements[k - 1]);
      FlattenConcat(before, last);
      Associate(Flatten(before), Flatten(last), b.rest);
    }
  }

  lemma {:induction false} OnlyArrays(element: Type, n: nat, input: seq<Byte>)
    requires UnserializeArray(element, n, input).Some?
    ensures var r := UnserializeArray(element, n, input).value;
            && |r.value| == n && AllHaveType(r.value, element)
            && input == Flatten(ArrayWrites(r.value, element)) + r.rest
    decreases element, 3, 0
  {
    if element.Trivial? {
      FastReadIsSlowRead(n, element.width, input);
    }
    OnlyEach(element, n, input);
    if element.Trivial? {
      FastWriteIsSlowWrite(UnserializeEach(element, n, input).value.value, element.width);
    }
  }

  lemma {:induction false} OnlyEach(element: Type, n: nat, input: seq<Byte>)
    requires UnserializeEach(element, n, input).Some?
    ensures var r := UnserializeEach(element, n, input).value;
            && |r.value| == n && AllHaveType(r.value, element)
            && input == Flatten(EachWrites(r.value, element)) + r.rest
    decreases element, 2, n
  {
    if n == 0 {
      assert input == Flatten<Byte>([]) + input;
    } else {
      var a := Unserialize(element, input).value;
      var b := UnserializeEach(element, n - 1, a.rest).value;
      OnlySerializationsUnserialize(element, input);
      OnlyEach(element, n - 1, a.rest);
      assert ([a.value] + b.value)[1..] == b.value;
      FlattenConcat(Writes(a.value, element), EachWrites(b.value, element));
      Associate(Serialize(a.value, element), Flatten(EachWrites(b.value, element)), b.rest);
    }
  }

  // ---------- The size

  // bits::counter adds up the sizes of the writes.
  function Counted(writes: seq<seq<Byte>>): nat {
    if writes == [] then 0 else |writes[0]| + Counted(writes[1..])
  }

  lemma {:induction false} CountedIsLength(writes: seq<seq<Byte>>)
    ensures Counted(writes) == |Flatten(writes)|
  {
    if writes != [] {
      CountedIsLength(writes[1..]);
    }
  }

  /** serialized_size is the number of bytes that serializing writes. */
  method SerializedSize(v: Value, t: Type) returns (size: nat)
    requires HasType(v, t)
    ensures size == |Serialize(v, t)|
  {
    var writes := Writes(v, t);
    size := 0;
    for i := 0 to |writes|
      invariant size + Counted(writes[i..]) == Counted(writes)
    {
      size := size + |writes[i]|;
    }
    CountedIsLength(writes);
  }

  // ---------- Values that take no bytes

  // Whether the values of a type take any bytes at all.
  ghost predicate TakesBytes(t: Type) {
    match t
    case Trivial(width) => width >= 1
    case Pair(first, second) => TakesBytes(first) || TakesBytes(second)
    case Tuple(elements) => exists i :: 0 <= i < |elements| && TakesBytes(elements[i])
    case Array(length, element) => length >= 1 && TakesBytes(element)
    case Vector(_) => true
  }

  /** Whether a value takes at least one byte is a matter of its type alone. */
  lemma {:induction false} BytesTaken(v: Value, t: Type)
    requires HasType(v, t)
    ensures Serialize(v, t) != [] <==> TakesBytes(t)
    decreases t, 1, 0
  {
    match t
    case Trivial(width) =>
      FlattenOne(v.bytes);
    case Pair(first, second) =>
      FlattenConcat(Writes(v.first, first), Writes(v.second, second));
      BytesTaken(v.first, first);
      BytesTaken(v.second, second);
    case Tuple(elements) =>
      TupleBytesTaken(v.items, elements, t);
    case Array(length, element) =>
      if element.Trivial? {
        FastWriteIsSlowWrite(v.items, element.width);
      }
      assert Flatten(ArrayWrites(v.items, element)) == Flatten(EachWrites(v.items, element));
      assert Serialize(v, t) == Flatten(ArrayWrites(v.items, element));
      EachBytesTaken(v.items, element);
      assert v.items != [] <==> length >= 1;
    case Vector(element) =>
      var size := LittleEndian(|v.items|, SIZE_WIDTH);
      assert Serialize(v, t) == size + Flatten(ArrayWrites(v.items, element));
  }

  lemma {:induction false} TupleBytesTaken(items: seq<Value>, elements: seq<Type>, t: Type)
    requires t == Tuple(elements) && AllHaveTypes(items, elements)
    ensures Flatten(TupleWrites(items, elements, t)) != [] <==> exists i :: 0 <= i < |items| && TakesBytes(elements[i])
    decreases t, 0, |items|
  {
    if items != [] {
      var k := |items| - 1;
      FlattenConcat(TupleWrites(items[..k], elements, t), Writes(items[k], elements[k]));
      TupleBytesTaken(items[..k], elements, t);
      BytesTaken(items[k], elements[k]);
    }
  }

  lemma {:induction false} EachBytesTaken(items: seq<Value>, element: Type)
    requires AllHaveType(items, element)
    ensures Flatten(EachWrites(items, element)) != [] <==> items != [] && TakesBytes(element)
    decreases element, 2, |items|
  {
    if items != [] {
      FlattenConcat(Writes(items[0], element), EachWrites(items[1..], element));
      BytesTaken(items[0], element);
      EachBytesTaken(items[1..], element);
    }
  }

  // ---------- The layout of the bytes

  /** A trivial value is its memory, and a pair is its first part followed by its second. */
  lemma PairLayout(v: Value, t: Type)
    requires HasType(v, t)
    ensures t.Trivial? ==> Serialize(v, t) == v.bytes
    ensures t.Pair? ==> Serialize(v, t) == Serialize(v.first, t.first) + Serialize(v.second, t.second)
  {
    match t
    case Trivial(_) => FlattenOne(v.bytes);
    case Pair(first, second) => FlattenConcat(Writes(v.first, first), Writes(v.second, second));
    case _ =>
  }

  // The bytes of the elements, one after the other.
  ghost function InARow(items: seq<Value>, types: seq<Type>): seq<Byte>
    requires AllHaveTypes(items, types)
  {
    if items == [] then [] else Serialize(items[0], types[0]) + InARow(items[1..], types[1..])
  }

  lemma {:induction false} InARowAppend(items: seq<Value>, types: seq<Type>)
    requires AllHaveTypes(items, types) && items != []
    ensures var k := |items| - 1;
            InARow(items, types) == InARow(items[..k], types) + Serialize(items[k], types[k])
  {
    hide Serialize, HasType;
    var k, first := |items| - 1, Serialize(items[0], types[0]);
    if k > 0 {
      var front, last := InARow(items[1..][..k - 1], types[1..]), Serialize(items[k], types[k]);
      InARowAppend(items[1..], types[1..]);
      assert items[1..][..k - 1] == items[..k][1..];
      assert InARow(items[..k], types) == first + front;
      assert first + (front + last) == first + front + last;
    } else {
      assert items[1..] == [] && items[..k] == [];
    }
  }

  /** A tuple is its elements from the first to the last. */
  lemma {:induction false} TupleLayout(items: seq<Value>, elements: seq<Type>, t: Type)
    requires t == Tuple(elements) && AllHaveTypes(items, elements)
    ensures Flatten(TupleWrites(items, elements, t)) == InARow(items, elements)
  {
    if items != [] {
      var k := |items| - 1;
      TupleLayout(items[..k], elements, t);
      InARowAppend(items, elements);
      FlattenConcat(TupleWrites(items[..k], elements, t), Writes(items[k], elements[k]));
    }
  }

  lemma {:induction false} EachLayout(items: seq<Value>, element: Type, types: seq<Type>)
    requires AllHaveType(items, element) && |types| == |items| && forall i :: 0 <= i < |types| ==> types[i] == element
    ensures Flatten(EachWrites(items, element)) == InARow(items, types)
  {
    if items != [] {
      EachLayout(items[1..], element, types[1..]);
      FlattenConcat(Writes(items[0], element), EachWrites(items[1..], element));
    }
  }

  /** A tuple and an array are their elements in a row; a vector has their number, in eight bytes, before. */
  lemma ArrayLayout(v: Value, t: Type, types: seq<Type>)
    requires HasType(v, t) && (t.Tuple? || t.Array? || t.Vector?) && |types| == |v.items|
    requires forall i :: 0 <= i < |types| ==> types[i] == if t.Tuple? then t.elements[i] else t.element
    ensures AllHaveTypes(v.items, types)
    ensures Serialize(v, t)
      == (if t.Vector? then LittleEndian(|v.items|, SIZE_WIDTH) else []) + InARow(v.items, types)
  {
    assert [] + InARow(v.items, types) == InARow(v.items, types);
    if t.Tuple? {
      assert types == t.elements;
      TupleLayout(v.items, t.elements, t);
    } else {
      EachLayout(v.items, t.element, types);
      if t.element.Trivial? {
        FastWriteIsSlowWrite(v.items, t.element.width);
        assert t.element == Trivial(t.element.width);
      }
      assert Flatten(ArrayWrites(v.items, t.element)) == InARow(v.items, types);
      if t.Vector? {
        var size := LittleEndian(|v.items|, SIZE_WIDTH);
        FlattenConcat([size], ArrayWrites(v.items, t.element));
        FlattenOne(size);
      }
    }
  }

  /** The bytes of a size from the lowest to the highest. */
  lemma {:induction false} LittleEndianDigits(n: nat, width: nat, k: nat)
    requires k < width
    ensures Pow(256, k) >= 1 && LittleEndian(n, width)[k] == n / Pow(256, k) % 256
  {
    PowPositive(256, k);
    if k > 0 {
      PowPositive(256, k - 1);
      LittleEndianDigits(n / 256, width - 1, k - 1);
      DivideTwice(n, 256, Pow(256, k - 1));
    }
  }

  lemma DivideTwice(n: nat, a: nat, b: nat)
    requires a >= 1 && b >= 1
    ensures a * b >= 1 && n / a / b == n / (a * b)
  {
    var q, r := n / a, n % a;
    var q', r' := q / b, q % b;
    assert n == q * a + r && q == q' * b + r';
    assert n == q' * (a * b) + (r' * a + r);
    MulMonotone(r' + 1, b, a);
    assert (r' + 1) * a == r' * a + a;
    assert b * a == a * b;
    DivUnique(n, a * b, q', r' * a + r);
  }

  lemma TwoInEightBytes()
    ensures LittleEndian(2, SIZE_WIDTH) == [2, 0, 0, 0, 0, 0, 0, 0]
  {
  }

  /** A vector of two pairs of bytes: eight bytes of length, then each pair in order. */
  lemma LayoutExample(a: Byte, b: Byte, c: Byte, d: Byte)
    ensures var t, v := Vector(Pair(Trivial(1), Trivial(1))),
                        Many([Both(Plain([a]), Plain([b])), Both(Plain([c]), Plain([d]))]);
            HasType(v, t) && Serialize(v, t) == [2, 0, 0, 0, 0, 0, 0, 0, a, b, c, d]
  {
    hide Serialize, LittleEndian;
    TwoInEightBytes();
    var byte, t := Trivial(1), Vector(Pair(Trivial(1), Trivial(1)));
    var v1, v2 := Both(Plain([a]), Plain([b])), Both(Plain([c]), Plain([d]));
    var types := [t.element, t.element];
    assert HasType(Plain([a]), byte) && HasType(Plain([b]), byte) && HasType(Plain([c]), byte);
    assert HasType(Plain([d]), byte) && HasType(v1, t.element) && HasType(v2, t.element);
    assert HasType(Many([v1, v2]), t);
    ArrayLayout(Many([v1, v2]), t, types);
    PairLayout(v1, t.element);
    PairLayout(v2, t.element);
    PairLayout(Plain([a]), byte);
    PairLayout(Plain([b]), byte);
    PairLayout(Plain([c]), byte);
    PairLayout(Plain([d]), byte);
    assert [v1, v2][1..] == [v2] && [v2][1..] == [] && types[1..] == [t.element];
    assert InARow([v2], [t.element]) == [c, d] + InARow([], []);
  }
}
