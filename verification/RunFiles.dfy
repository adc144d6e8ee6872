/** Runs of items as bytes: what serialization_writer stores in a run file and serialization_reader delivers. */
module RunFiles {
  import opened Options
  import opened Order
  import opened Bytes
  import opened Serialization

  // The serialized type of the items, how an item is written as a value of it, and the item of a value that is read.
  datatype Format = Format(t: Type, value: Item -> Value, item: Value -> Item)

  ghost predicate WellTyped(f: Format) {
    forall x :: HasType(f.value(x), f.t)
  }

  type Codec = f: Format | WellTyped(f) witness Format(Vector(Trivial(1)), _ => Many([]), _ => Item(0, 0))

  // The item stands for a value of the serialized type.
  predicate Keeps(c: Codec, x: Item) {
    c.item(c.value(x)) == x
  }

  ghost predicate KeepsAll(c: Codec, items: multiset<Item>) {
    forall x :: x in items ==> Keeps(c, x)
  }

  lemma KeepsOne(c: Codec, x: Item)
    ensures KeepsAll(c, multiset([])) && (Keeps(c, x) ==> KeepsAll(c, multiset([x])))
  {
  }

  ghost predicate KeepsRuns(c: Codec, runs: seq<seq<Item>>) {
    forall i, k :: 0 <= i < |runs| && 0 <= k < |runs[i]| ==> Keeps(c, runs[i][k])
  }

  lemma KeepsParts(c: Codec, runs: seq<seq<Item>>, n: nat)
    requires KeepsRuns(c, runs) && n <= |runs|
    ensures KeepsRuns(c, runs[..n]) && KeepsRuns(c, runs[n..])
  {
  }

  lemma KeptHere(c: Codec, runs: seq<seq<Item>>, i: nat)
    requires KeepsRuns(c, runs) && i < |runs|
    ensures forall k :: 0 <= k < |runs[i]| ==> Keeps(c, runs[i][k])
  {
  }

  lemma KeepsEmpty(c: Codec, runs: seq<seq<Item>>)
    requires KeepsRuns(c, runs)
    ensures KeepsRuns(c, runs + [[]])
  {
  }

  lemma KeepsWritten(c: Codec, runs: seq<seq<Item>>, last: nat, x: Item)
    requires KeepsRuns(c, runs) && last < |runs| && Keeps(c, x)
    ensures KeepsRuns(c, runs[last := runs[last] + [x]])
  {
  }

  function Encode(c: Codec, x: Item): seq<Byte> {
    Serialize(c.value(x), c.t)
  }

  // The bytes of a run.
  ghost function RunBytes(c: Codec, run: seq<Item>): seq<Byte> {
    if run == [] then [] else Encode(c, run[0]) + RunBytes(c, run[1..])
  }

  lemma {:induction false} WriteItem(c: Codec, run: seq<Item>, x: Item)
    ensures RunBytes(c, run + [x]) == RunBytes(c, run) + Encode(c, x)
  {
    if run == [] {
      assert [] + [x] == [x] && [x][1..] == [];
    } else {
      assert (run + [x])[1..] == run[1..] + [x];
      WriteItem(c, run[1..], x);
    }
  }

  // What a reader of a run has left after k items.
  ghost function LeftOf(c: Codec, run: seq<Item>, k: nat): seq<Byte>
    requires k <= |run|
  {
    RunBytes(c, run[k..])
  }

  /** The next item and the bytes behind it; None, the end-of-stream exception, if the bytes do not make an item. */
  function NextItem(c: Codec, left: seq<Byte>): Option<(Item, seq<Byte>)> {
    var u := Unserialize(c.t, left);
    if u.None? then None else Some((c.item(u.value.value), u.value.rest))
  }

  lemma LeftNext(c: Codec, run: seq<Item>, k: nat)
    requires k < |run|
    ensures LeftOf(c, run, k) == Encode(c, run[k]) + LeftOf(c, run, k + 1)
  {
    assert run[k..][1..] == run[k + 1..];
  }

  lemma LeftAtFirst(c: Codec, run: seq<Item>)
    ensures LeftOf(c, run, 0) == RunBytes(c, run)
  {
    assert run[0..] == run;
  }

  /** A reader delivers the items of its run one by one, each one intact if it stands for a value of the type. */
  lemma ReadsNext(c: Codec, run: seq<Item>, k: nat)
    requires k < |run|
    ensures NextItem(c, LeftOf(c, run, k)) == Some((c.item(c.value(run[k])), LeftOf(c, run, k + 1)))
  {
    hide Serialize, Unserialize, RunBytes, LeftOf;
    LeftNext(c, run, k);
    RoundTrip(c.value(run[k]), c.t, LeftOf(c, run, k + 1));
  }

  /** Bytes are left exactly while items are left, if the type takes bytes; otherwise none ever are. */
  lemma {:induction false} BytesLeft(c: Codec, run: seq<Item>, k: nat)
    requires k <= |run|
    ensures LeftOf(c, run, k) != [] <==> k < |run| && TakesBytes(c.t)
    decreases |run| - k
  {
    hide Serialize, TakesBytes;
    if k < |run| {
      LeftNext(c, run, k);
      BytesTaken(c.value(run[k]), c.t);
      BytesLeft(c, run, k + 1);
    }
  }

  // Reading at the end of a run fails, or else delivers a value of no bytes.
  lemma ReadsNothing(c: Codec)
    ensures NextItem(c, []).Some? ==> NextItem(c, []).value.1 == [] && !TakesBytes(c.t)
  {
    hide Serialize, TakesBytes;
    var u := Unserialize(c.t, []);
    if u.Some? {
      OnlySerializationsUnserialize(c.t, []);
      BytesTaken(u.value.value, c.t);
    }
  }

  // A reader of the run has these bytes left.
  ghost predicate ReadsFrom(c: Codec, left: seq<Byte>, run: seq<Item>) {
    exists k :: 0 <= k <= |run| && left == LeftOf(c, run, k)
  }

  lemma ReadsFromStart(c: Codec, run: seq<Item>)
    ensures ReadsFrom(c, RunBytes(c, run), run)
  {
    LeftAtFirst(c, run);
    assert RunBytes(c, run) == LeftOf(c, run, 0);
  }

  lemma StillReads(c: Codec, left: seq<Byte>, run: seq<Item>)
    requires ReadsFrom(c, left, run)
    ensures NextItem(c, left).Some? ==> ReadsFrom(c, NextItem(c, left).value.1, run)
    ensures ReadsFrom(c, [], run)
  {
    hide NextItem;
    assert LeftOf(c, run, |run|) == [];
    var k :| 0 <= k <= |run| && left == LeftOf(c, run, k);
    if k < |run| {
      ReadsNext(c, run, k);
    } else {
      ReadsNothing(c);
    }
  }

  // ---------- Run files by number

  // The files from `first` on hold the runs.
  ghost predicate Holds(c: Codec, disk: map<nat, seq<Byte>>, first: nat, runs: seq<seq<Item>>) {
    && (forall i :: i in disk <==> first <= i < first + |runs|)
    && forall i :: i in disk ==> disk[i] == RunBytes(c, runs[i - first])
  }

  lemma HoldsAt(c: Codec, disk: map<nat, seq<Byte>>, first: nat, runs: seq<seq<Item>>, k: nat)
    requires Holds(c, disk, first, runs) && k < |runs|
    ensures first + k in disk && disk[first + k] == RunBytes(c, runs[k])
  {
    assert first + k in disk;
  }

  lemma HoldsNew(c: Codec, disk: map<nat, seq<Byte>>, first: nat, runs: seq<seq<Item>>)
    requires Holds(c, disk, first, runs)
    ensures Holds(c, disk[first + |runs| := []], first, runs + [[]])
  {
  }

  lemma HoldsWritten(c: Codec, disk: map<nat, seq<Byte>>, first: nat, runs: seq<seq<Item>>, x: Item)
    requires Holds(c, disk, first, runs) && runs != []
    ensures var k := |runs| - 1;
      && first + k in disk
      && Holds(c, disk[first + k := disk[first + k] + Encode(c, x)], first, runs[k := runs[k] + [x]])
  {
    HoldsAt(c, disk, first, runs, |runs| - 1);
    WriteItem(c, runs[|runs| - 1], x);
  }

  lemma HoldsRest(c: Codec, disk: map<nat, seq<Byte>>, first: nat, runs: seq<seq<Item>>)
    requires Holds(c, disk, first, runs) && runs != []
    ensures Holds(c, disk - {first}, first + 1, runs[1..])
  {
  }

  lemma HoldsNothing(c: Codec, disk: map<nat, seq<Byte>>, first: nat)
    ensures Holds(c, disk, first, []) <==> disk == map[]
  {
    if Holds(c, disk, first, []) {
      assert disk.Keys == {};
    }
  }
}
