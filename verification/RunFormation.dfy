/** What the partition phase keeps: how far the input is cut into sorted runs. */
module RunFormation {
  import opened Arithmetic
  import opened Order
  import opened MergeLevels

  // How many of the input's items are in its first r runs.
  function Consumed(items: nat, length: nat, r: nat): nat
    requires length >= 1
  {
    if r < Ceil(items, length) then r * length else items
  }

  function RunLength(items: nat, length: nat, r: nat): nat
    requires length >= 1
  {
    if r + 1 < Ceil(items, length) then length
    else if items % length == 0 then length else items % length
  }

  lemma NextRun(items: nat, length: nat, r: nat)
    requires length >= 1 && items >= 1 && r < Ceil(items, length)
    ensures 1 <= RunLength(items, length, r) <= length
    ensures Consumed(items, length, r) + RunLength(items, length, r) == Consumed(items, length, r + 1) <= items
  {
    LastPart(items, length);
    assert (r + 1) * length == r * length + length;
    MulMonotone(r + 1, Ceil(items, length), length);
    if r + 1 < Ceil(items, length) {
      MulMonotone(r + 1, Ceil(items, length) - 1, length);
    }
  }

  ghost predicate Formed(items: seq<Item>, length: nat, runs: RunList) {
    && length >= 1 && |items| >= 1 && |runs| <= Ceil(|items|, length)
    && Consumed(|items|, length, |runs|) <= |items|
    && (forall k :: 0 <= k < |runs| ==> GoodRun(runs[k], length, k + 1 == Ceil(|items|, length)))
    && AllItems(runs) == multiset(items[..Consumed(|items|, length, |runs|)])
  }

  lemma FormedStart(items: seq<Item>, length: nat)
    requires length >= 1 && |items| >= 1
    ensures Formed(items, length, []) && Consumed(|items|, length, 0) == 0
  {
    CeilBounds(|items|, length);
  }

  lemma FormedStep(items: seq<Item>, length: nat, runs: RunList, run: seq<Item>)
    requires Formed(items, length, runs) && |runs| < Ceil(|items|, length)
    requires |run| == RunLength(|items|, length, |runs|)
    requires Consumed(|items|, length, |runs|) + |run| <= |items|
    requires SortedPermutation(run, multiset(items[Consumed(|items|, length, |runs|)..][..|run|]))
    ensures Formed(items, length, runs + [run])
  {
    NextRun(|items|, length, |runs|);
    AllItemsAppend(runs, run);
    var i, j := Consumed(|items|, length, |runs|), Consumed(|items|, length, |runs| + 1);
    assert items[..j] == items[..i] + items[i..][..|run|];
  }

  /** The runs formed of the whole input are good runs of exactly its items. */
  lemma FormedEnd(items: seq<Item>, length: nat, runs: RunList)
    requires Formed(items, length, runs) && |runs| == Ceil(|items|, length)
    ensures |runs| >= 1 && GoodRuns(runs, length) && AllItems(runs) == multiset(items)
  {
    CeilBounds(|items|, length);
    assert items[..|items|] == items;
  }
}
