/** The items that are sorted, their order, and sequences of runs of items. */
module Order {

  // An item is compared by its key alone, so two different items may tie. Integer keys lose no
  // generality: RanksRepresentOrder turns any strict weak order on finitely many items into keys.
  datatype Item = Item(key: int, tag: int)

  predicate Less(x: Item, y: Item) {
    x.key < y.key
  }

  ghost predicate Sorted(s: seq<Item>) {
    forall i, j :: 0 <= i <= j < |s| ==> s[i].key <= s[j].key
  }

  ghost predicate SortedPermutation(result: seq<Item>, input: multiset<Item>) {
    Sorted(result) && multiset(result) == input
  }

  // ---------- Any strict weak order on finitely many items is a comparison of integer keys

  ghost predicate StrictWeakOrder<T(!new)>(lt: (T, T) -> bool) {
    && (forall x :: !lt(x, x))
    && (forall x, y, z :: lt(x, y) && lt(y, z) ==> lt(x, z))
    && (forall x, y, z :: lt(x, z) ==> lt(x, y) || lt(y, z))
  }

  function Rank<T(!new)>(lt: (T, T) -> bool, items: set<T>, x: T): int {
    |set y | y in items && lt(y, x)|
  }

  lemma RankMonotone<T(!new)>(lt: (T, T) -> bool, items: set<T>, x: T, y: T)
    requires StrictWeakOrder(lt) && x in items && lt(x, y)
    ensures Rank(lt, items, x) < Rank(lt, items, y)
  {
    var below := set z | z in items && lt(z, x);
    var belowY := set z | z in items && lt(z, y);
    assert x in belowY - below && below <= belowY;
    SubsetSize(below + {x}, belowY);
  }

  lemma RanksRepresentOrder<T(!new)>(lt: (T, T) -> bool, items: set<T>, x: T, y: T)
    requires StrictWeakOrder(lt) && x in items && y in items
    ensures lt(x, y) <==> Rank(lt, items, x) < Rank(lt, items, y)
  {
    if lt(x, y) {
      RankMonotone(lt, items, x, y);
    } else {
      SubsetSize(set z | z in items && lt(z, y), set z | z in items && lt(z, x));
    }
  }

  lemma {:induction false} SubsetSize<T>(small: set<T>, big: set<T>)
    requires small <= big
    ensures |small| <= |big|
  {
    if small != {} {
      var x :| x in small;
      SubsetSize(small - {x}, big - {x});
    }
  }

  // ---------- Sequences of runs

  function Flatten<T>(runs: seq<seq<T>>): seq<T> {
    if runs == [] then [] else runs[0] + Flatten(runs[1..])
  }

  ghost function AllItems<T>(runs: seq<seq<T>>): multiset<T> {
    if runs == [] then multiset{} else multiset(runs[0]) + AllItems(runs[1..])
  }

  lemma {:induction false} FlattenConcat<T>(a: seq<seq<T>>, b: seq<seq<T>>)
    ensures Flatten(a + b) == Flatten(a) + Flatten(b)
  {
    if a == [] {
      assert a + b == b;
    } else {
      assert (a + b)[1..] == a[1..] + b;
      FlattenConcat(a[1..], b);
    }
  }

  lemma FlattenAppend<T>(a: seq<seq<T>>, run: seq<T>)
    ensures Flatten(a + [run]) == Flatten(a) + run
  {
    FlattenConcat(a, [run]);
  }

  lemma {:induction false} AllItemsConcat<T>(a: seq<seq<T>>, b: seq<seq<T>>)
    ensures AllItems(a + b) == AllItems(a) + AllItems(b)
  {
    if a == [] {
      assert a + b == b;
    } else {
      assert (a + b)[1..] == a[1..] + b;
      AllItemsConcat(a[1..], b);
    }
  }

  lemma AllItemsAppend<T>(a: seq<seq<T>>, run: seq<T>)
    ensures AllItems(a + [run]) == AllItems(a) + multiset(run)
  {
    AllItemsConcat(a, [run]);
    assert AllItems([run]) == multiset(run);
  }

  lemma AllItemsNext<T>(runs: seq<seq<T>>, i: nat)
    requires i < |runs|
    ensures AllItems(runs[..i + 1]) == AllItems(runs[..i]) + multiset(runs[i])
  {
    assert runs[..i + 1] == runs[..i] + [runs[i]];
    AllItemsAppend(runs[..i], runs[i]);
  }

  lemma AllItemsSplit<T>(runs: seq<seq<T>>, i: nat, j: nat)
    requires i <= j <= |runs|
    ensures AllItems(runs[..j]) == AllItems(runs[..i]) + AllItems(runs[i..j])
  {
    assert runs[..j] == runs[..i] + runs[i..j];
    AllItemsConcat(runs[..i], runs[i..j]);
  }

  lemma NoItems<T>(runs: seq<seq<T>>)
    ensures AllItems(runs[..0]) == multiset{}
  {
  }

  lemma AllItemsUpdate<T>(runs: seq<seq<T>>, i: nat, run: seq<T>)
    requires i < |runs|
    ensures AllItems(runs[i := run]) + multiset(runs[i]) == AllItems(runs) + multiset(run)
  {
    assert runs == runs[..i] + ([runs[i]] + runs[i + 1..]);
    assert runs[i := run] == runs[..i] + ([run] + runs[i + 1..]);
    AllItemsConcat(runs[..i], [runs[i]] + runs[i + 1..]);
    AllItemsConcat(runs[..i], [run] + runs[i + 1..]);
  }

  lemma {:induction false} AllItemsEmpty<T>(runs: seq<seq<T>>)
    requires forall i :: 0 <= i < |runs| ==> runs[i] == []
    ensures AllItems(runs) == multiset{}
  {
    if runs != [] {
      AllItemsEmpty(runs[1..]);
    }
  }

  lemma TakeOneMore<T>(run: seq<T>, w: nat)
    requires w < |run|
    ensures multiset(run[..w + 1]) == multiset(run[..w]) + multiset{run[w]}
  {
    assert run[..w + 1] == run[..w] + [run[w]];
  }
}
