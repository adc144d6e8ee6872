/** Sorting values of a serialized type by any order, through run files of bytes. */
module SerializedSort {
  import opened Order
  import opened Serialization
  import opened RunFiles
  import opened FileHandlers
  import opened PhaseParameters
  import opened SerializationSorters

  type Comparison = (Value, Value) -> bool

  // ---------- Values as items: ranked by the order, and told apart by where they first occur

  function Distinct(values: seq<Value>): set<Value> {
    set v | v in values
  }

  function Place(values: seq<Value>, v: Value): (i: nat)
    ensures v in values ==> i < |values| && values[i] == v
  {
    if values == [] || values[0] == v then 0 else 1 + Place(values[1..], v)
  }

  function ItemOf(values: seq<Value>, lt: Comparison, v: Value): Item {
    Item(Rank(lt, Distinct(values), v), Place(values, v))
  }

  function ValueAt(values: seq<Value>, x: Item): Value
    requires values != []
  {
    if 0 <= x.tag < |values| then values[x.tag] else values[0]
  }

  function CodecOf(values: seq<Value>, t: Type, lt: Comparison): Codec
    requires AllHaveType(values, t)
  {
    if values == [] then Format(Vector(Trivial(1)), _ => Many([]), _ => Item(0, 0))
    else Format(t, (x: Item) => ValueAt(values, x), (v: Value) => ItemOf(values, lt, v))
  }

  lemma ItemKeepsValue(values: seq<Value>, t: Type, lt: Comparison, v: Value)
    requires values != [] && AllHaveType(values, t) && v in values
    ensures ValueAt(values, ItemOf(values, lt, v)) == v && Keeps(CodecOf(values, t, lt), ItemOf(values, lt, v))
  {
  }

  function ItemsOf(values: seq<Value>, lt: Comparison, some: seq<Value>): (items: seq<Item>)
    ensures |items| == |some| && forall i :: 0 <= i < |some| ==> items[i] == ItemOf(values, lt, some[i])
  {
    seq(|some|, i requires 0 <= i < |some| => ItemOf(values, lt, some[i]))
  }

  function ValuesAt(values: seq<Value>, items: seq<Item>): seq<Value>
    requires values != []
  {
    seq(|items|, i requires 0 <= i < |items| => ValueAt(values, items[i]))
  }

  // The same items stand for the same values.
  lemma {:induction false} SameValues(values: seq<Value>, a: seq<Item>, b: seq<Item>)
    requires values != [] && multiset(a) == multiset(b)
    ensures multiset(ValuesAt(values, a)) == multiset(ValuesAt(values, b))
    decreases |a|
  {
    hide ValueAt, ValuesAt;
    if a == [] {
      assert |multiset(b)| == 0 && b == [];
    } else {
      var i := Match(a, b);
      SameValues(values, a[1..], b[..i] + b[i + 1..]);
      assert a[..0] + a[1..] == a[1..];
      ValuesWithoutOne(values, a, 0);
      ValuesWithoutOne(values, b, i);
    }
  }

  // Where the first element of one sequence is in another one with the same elements.
  lemma Match<T>(a: seq<T>, b: seq<T>) returns (i: nat)
    requires multiset(a) == multiset(b) && a != []
    ensures i < |b| && b[i] == a[0] && multiset(a[1..]) == multiset(b[..i] + b[i + 1..])
  {
    assert a[0] in multiset(b);
    i :| 0 <= i < |b| && b[i] == a[0];
    WithoutOne(b, i);
    assert multiset(b[..i] + b[i + 1..]) == multiset(b) - multiset{a[0]};
    assert a == [a[0]] + a[1..];
    assert multiset(a[1..]) == multiset(a) - multiset{a[0]};
  }

  lemma WithoutOne<T>(s: seq<T>, i: nat)
    requires i < |s|
    ensures multiset(s) == multiset(s[..i] + s[i + 1..]) + multiset{s[i]}
  {
    assert s == s[..i] + [s[i]] + s[i + 1..];
  }

  lemma ValuesWithoutOne(values: seq<Value>, items: seq<Item>, i: nat)
    requires values != [] && i < |items|
    ensures multiset(ValuesAt(values, items))
      == multiset(ValuesAt(values, items[..i] + items[i + 1..])) + multiset{ValueAt(values, items[i])}
  {
    var all := ValuesAt(values, items);
    WithoutOne(all, i);
    assert all[..i] + all[i + 1..] == ValuesAt(values, items[..i] + items[i + 1..]);
  }

  // No value comes before one that it is greater than.
  ghost predicate InOrder(lt: Comparison, values: seq<Value>) {
    forall i, j :: 0 <= i <= j < |values| ==> !lt(values[j], values[i])
  }

  lemma AllKept(values: seq<Value>, t: Type, lt: Comparison)
    requires AllHaveType(values, t)
    ensures KeepsAll(CodecOf(values, t, lt), multiset(ItemsOf(values, lt, values)))
  {
    var items := ItemsOf(values, lt, values);
    forall x | x in multiset(items) ensures Keeps(CodecOf(values, t, lt), x) {
      var i :| 0 <= i < |items| && items[i] == x;
      ItemKeepsValue(values, t, lt, values[i]);
    }
  }

  lemma SortedValues(values: seq<Value>, t: Type, lt: Comparison, n: nat, output: seq<Item>)
    requires values != [] && AllHaveType(values, t) && n <= |values| && StrictWeakOrder(lt)
    requires SortedPermutation(output, multiset(ItemsOf(values, lt, values)[..n]))
    ensures InOrder(lt, ValuesAt(values, output))
    ensures multiset(ValuesAt(values, output)) == multiset(values[..n])
  {
    var items, back := ItemsOf(values, lt, values)[..n], ValuesAt(values, output);
    SameValues(values, output, items);
    forall k | 0 <= k < n ensures ValueAt(values, items[k]) == values[k] {
      ItemKeepsValue(values, t, lt, values[k]);
    }
    assert ValuesAt(values, items) == values[..n];
    forall i, j | 0 <= i <= j < |back| ensures !lt(back[j], back[i]) {
      OutputItem(values, t, lt, n, output, i);
      OutputItem(values, t, lt, n, output, j);
      RanksRepresentOrder(lt, Distinct(values), back[j], back[i]);
    }
  }

  lemma OutputItem(values: seq<Value>, t: Type, lt: Comparison, n: nat, output: seq<Item>, i: nat)
    requires values != [] && AllHaveType(values, t) && n <= |values| && i < |output|
    requires multiset(output) == multiset(ItemsOf(values, lt, values)[..n])
    ensures var v := ValueAt(values, output[i]); v in values && output[i] == ItemOf(values, lt, v)
  {
    var items := ItemsOf(values, lt, values)[..n];
    assert output[i] in multiset(output);
    var k :| 0 <= k < n && items[k] == output[i];
    ItemKeepsValue(values, t, lt, values[k]);
  }

  /**
   * A whole sort of values of any type that takes bytes, by any order: whatever the mode, the run files hold nothing
   * but bytes, and the values that were accepted come back intact and in order.
   */
  method SortValues(values: seq<Value>, t: Type, lt: Comparison, minSize: nat, params: Parameters,
                    fits: seq<bool>, fitsAlone: seq<bool>, fitsInternal: bool, fitsShrunk: bool,
                    evacuateFirst: bool, evacuateLast: bool, largestItem: nat)
    returns (r: Outcome, output: seq<Value>, accepted: nat)
    requires minSize >= 1 && |fits| == |values| == |fitsAlone|
    requires AllHaveType(values, t) && TakesBytes(t) && StrictWeakOrder(lt)
    ensures accepted <= |values|
    ensures r.Ok? ==> InOrder(lt, output) && multiset(output) == multiset(values[..accepted])
    ensures CheckPhases(params).Some? ==> r == Raised(CheckPhases(params).value)
    ensures CheckPhases(params).None? && r.Raised? ==>
      r == Raised(DoesNotFit) || (r == Raised(NotEnoughMemory) && !CanMerge(params, largestItem))
    ensures CheckPhases(params).None? ==> (r == Raised(DoesNotFit) <==> accepted == 0 < |values|)
    ensures CheckPhases(params).None? && BufferLength(params) > 0 ==>
      (forall i :: 0 <= i < |values| ==> fits[i] && fitsAlone[i]) ==> accepted == |values|
  {
    hide StrictWeakOrder, SortedPermutation, KeepsAll, AllHaveType;
    var items := ItemsOf(values, lt, values);
    AllKept(values, t, lt);
    var sorted;
    r, sorted, accepted := SortItems(items, minSize, params, fits, fitsAlone, fitsInternal, fitsShrunk,
        evacuateFirst, evacuateLast, largestItem, CodecOf(values, t, lt));
    output := if values == [] then [] else ValuesAt(values, sorted);
    if r.Ok? && values != [] {
      SortedValues(values, t, lt, accepted, sorted);
    }
  }
}
