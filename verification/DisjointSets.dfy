/** Union-find with path halving: tpie/disjoint_sets.h. */
module DisjointSets {

  // ---------- Forests of parent pointers

  predicate Member(p: seq<int>, unused: int, e: int) {
    0 <= e < |p| && p[e] != unused
  }

  // Parents are members, and a rank that grows towards the roots shows that there is no cycle.
  ghost predicate Forest(p: seq<int>, unused: int, rank: seq<nat>) {
    && |rank| == |p| && !(0 <= unused < |p|)
    && forall e {:trigger Member(p, unused, e)} :: Member(p, unused, e) ==>
         0 <= p[e] < |p| && p[p[e]] != unused && (p[e] == e || rank[e] < rank[p[e]])
  }

  ghost function Top(rank: seq<nat>): (top: nat)
    ensures forall i :: 0 <= i < |rank| ==> rank[i] <= top
  {
    if rank == [] then 0
    else
      var rest := Top(rank[..|rank| - 1]);
      if rest < rank[|rank| - 1] then rank[|rank| - 1] else rest
  }

  /** The representative of an element. */
  ghost function Root(p: seq<int>, unused: int, rank: seq<nat>, e: int): (r: int)
    requires Forest(p, unused, rank) && Member(p, unused, e)
    ensures Member(p, unused, r) && p[r] == r && rank[e] <= rank[r]
    decreases Top(rank) - rank[e]
  {
    if p[e] == e then e else Root(p, unused, rank, p[e])
  }

  ghost function Depth(p: seq<int>, unused: int, rank: seq<nat>, e: int): (d: nat)
    requires Forest(p, unused, rank) && Member(p, unused, e)
    ensures d == 0 <==> p[e] == e
    decreases Top(rank) - rank[e]
  {
    if p[e] == e then 0 else 1 + Depth(p, unused, rank, p[e])
  }

  // ---------- One step of path halving

  function Halve(p: seq<int>, unused: int, t: int): seq<int>
    requires Member(p, unused, t) && Member(p, unused, p[t])
  {
    p[t := p[p[t]]]
  }

  lemma HalveKeepsForest(p: seq<int>, unused: int, rank: seq<nat>, t: int)
    requires Forest(p, unused, rank) && Member(p, unused, t)
    ensures Member(p, unused, p[t]) && Member(p, unused, p[p[t]])
    ensures Forest(Halve(p, unused, t), unused, rank)
    ensures forall e :: Member(Halve(p, unused, t), unused, e) <==> Member(p, unused, e)
  {
    assert Member(p, unused, p[t]) && Member(p, unused, p[p[t]]);
    var q := Halve(p, unused, t);
    forall e {:trigger Member(q, unused, e)} | Member(q, unused, e)
      ensures 0 <= q[e] < |q| && q[q[e]] != unused && (q[e] == e || rank[e] < rank[q[e]])
    {
      assert Member(p, unused, e) && Member(p, unused, p[e]) && Member(p, unused, p[p[e]]);
    }
  }

  /** A step leaves every representative as it is, and no element gets deeper. */
  lemma {:induction false} HalveKeepsRoot(p: seq<int>, unused: int, rank: seq<nat>, t: int, e: int)
    requires Forest(p, unused, rank) && Member(p, unused, t) && Member(p, unused, e) && Member(p, unused, p[t])
    requires Forest(Halve(p, unused, t), unused, rank) && Member(Halve(p, unused, t), unused, e)
    ensures Root(Halve(p, unused, t), unused, rank, e) == Root(p, unused, rank, e)
    ensures Depth(Halve(p, unused, t), unused, rank, e) <= Depth(p, unused, rank, e)
    ensures rank[t] < rank[e] ==> Depth(Halve(p, unused, t), unused, rank, e) == Depth(p, unused, rank, e)
    decreases Top(rank) - rank[e]
  {
    if p[e] != e {
      HalveKeepsRoot(p, unused, rank, t, p[e]);
      if e == t && p[p[e]] != p[e] {
        HalveKeepsRoot(p, unused, rank, t, p[p[e]]);
      }
    }
  }

  // ---------- find_set

  /** What find_set makes of the forest. */
  ghost function Find(p: seq<int>, unused: int, rank: seq<nat>, t: int): seq<int>
    requires Forest(p, unused, rank) && Member(p, unused, t)
    decreases Top(rank) - rank[t]
  {
    var x := p[p[t]];
    if x == t then p
    else
      HalveKeepsForest(p, unused, rank, t);
      Find(Halve(p, unused, t), unused, rank, x)
  }

  // The same sets with the same representatives, and no element deeper than before.
  ghost predicate Improved(p: seq<int>, q: seq<int>, unused: int, rank: seq<nat>)
    requires Forest(p, unused, rank)
  {
    && Forest(q, unused, rank) && |q| == |p|
    && forall e ::
      && (Member(q, unused, e) <==> Member(p, unused, e))
      && (Member(p, unused, e) ==> NoDeeper(p, q, unused, rank, e))
  }

  ghost predicate NoDeeper(p: seq<int>, q: seq<int>, unused: int, rank: seq<nat>, e: int)
    requires Forest(p, unused, rank) && Forest(q, unused, rank) && Member(p, unused, e) && Member(q, unused, e)
  {
    Root(q, unused, rank, e) == Root(p, unused, rank, e) && Depth(q, unused, rank, e) <= Depth(p, unused, rank, e)
  }

  lemma HalveImproves(p: seq<int>, unused: int, rank: seq<nat>, t: int)
    requires Forest(p, unused, rank) && Member(p, unused, t) && Member(p, unused, p[t])
    ensures Improved(p, Halve(p, unused, t), unused, rank)
  {
    assert |Halve(p, unused, t)| == |p|;
    hide Forest, Halve, Root, Depth, Member;
    var q := Halve(p, unused, t);
    HalveKeepsForest(p, unused, rank, t);
    forall e | Member(p, unused, e) ensures Member(q, unused, e) && NoDeeper(p, q, unused, rank, e) {
      HalveKeepsRoot(p, unused, rank, t, e);
    }
  }

  lemma ImprovedTwice(p: seq<int>, q: seq<int>, r: seq<int>, unused: int, rank: seq<nat>)
    requires Forest(p, unused, rank) && Improved(p, q, unused, rank) && Improved(q, r, unused, rank)
    ensures Improved(p, r, unused, rank)
  {
    hide Forest, Member, Root, Depth;
    forall e | Member(p, unused, e) ensures Member(r, unused, e) && NoDeeper(p, r, unused, rank, e) {
      assert NoDeeper(p, q, unused, rank, e) && NoDeeper(q, r, unused, rank, e);
    }
  }

  lemma ImprovedItself(p: seq<int>, unused: int, rank: seq<nat>)
    requires Forest(p, unused, rank)
    ensures Improved(p, p, unused, rank)
  {
  }

  /** find_set leaves the sets and their representatives as they are. */
  lemma {:induction false} FindImproves(p: seq<int>, unused: int, rank: seq<nat>, t: int)
    requires Forest(p, unused, rank) && Member(p, unused, t)
    ensures Improved(p, Find(p, unused, rank, t), unused, rank)
    decreases Top(rank) - rank[t]
  {
    var x := p[p[t]];
    if x == t {
      ImprovedItself(p, unused, rank);
    } else {
      var h := Halve(p, unused, t);
      HalveKeepsForest(p, unused, rank, t);
      HalveImproves(p, unused, rank, t);
      hide Improved;
      FindImproves(h, unused, rank, x);
      ImprovedTwice(p, h, Find(h, unused, rank, x), unused, rank);
    }
  }

  // Only t and elements above it are changed.
  lemma {:induction false} FindLeavesBelow(p: seq<int>, unused: int, rank: seq<nat>, t: int, e: int)
    requires Forest(p, unused, rank) && Member(p, unused, t) && Member(p, unused, e) && rank[e] < rank[t]
    ensures |Find(p, unused, rank, t)| == |p| && Find(p, unused, rank, t)[e] == p[e]
    decreases Top(rank) - rank[t]
  {
    var x := p[p[t]];
    if x != t {
      HalveKeepsForest(p, unused, rank, t);
      FindLeavesBelow(Halve(p, unused, t), unused, rank, x, e);
    }
  }

  /** An element at depth d is brought to depth ceil(d / 2). */
  lemma {:induction false} FindHalvesDepth(p: seq<int>, unused: int, rank: seq<nat>, t: int)
    requires Forest(p, unused, rank) && Member(p, unused, t)
    ensures Forest(Find(p, unused, rank, t), unused, rank) && Member(Find(p, unused, rank, t), unused, t)
    ensures Depth(Find(p, unused, rank, t), unused, rank, t) == (Depth(p, unused, rank, t) + 1) / 2
    decreases Top(rank) - rank[t]
  {
    var x := p[p[t]];
    FindImproves(p, unused, rank, t);
    if x != t {
      var h := Halve(p, unused, t);
      HalveKeepsForest(p, unused, rank, t);
      HalveKeepsRoot(p, unused, rank, t, x);
      FindLeavesBelow(h, unused, rank, x, t);
      FindHalvesDepth(h, unused, rank, x);
      hide Improved;
      assert Find(p, unused, rank, t)[t] == x;
    }
  }

  // ---------- Linking two representatives

  // The rank of the new representative is raised above that of the other one.
  ghost function LinkedRank(rank: seq<nat>, a: int, b: int): seq<nat>
    requires 0 <= a < |rank| && 0 <= b < |rank|
  {
    if rank[a] <= rank[b] then rank[a := rank[b] + 1] else rank
  }

  lemma LinkKeepsForest(p: seq<int>, unused: int, rank: seq<nat>, a: int, b: int)
    requires Forest(p, unused, rank) && Member(p, unused, a) && Member(p, unused, b) && p[a] == a && p[b] == b && a != b
    ensures Forest(p[b := a], unused, LinkedRank(rank, a, b))
    ensures forall e :: Member(p[b := a], unused, e) <==> Member(p, unused, e)
  {
    var q, r := p[b := a], LinkedRank(rank, a, b);
    forall e {:trigger Member(q, unused, e)} | Member(q, unused, e)
      ensures 0 <= q[e] < |q| && q[q[e]] != unused && (q[e] == e || r[e] < r[q[e]])
    {
      assert Member(p, unused, e);
    }
  }

  /** Exactly the elements of b's set get another representative, and it is a. */
  lemma {:induction false} LinkRoot(p: seq<int>, unused: int, rank: seq<nat>, a: int, b: int, e: int)
    requires Forest(p, unused, rank) && Member(p, unused, a) && Member(p, unused, b) && p[a] == a && p[b] == b && a != b
    requires Member(p, unused, e) && Forest(p[b := a], unused, LinkedRank(rank, a, b)) && Member(p[b := a], unused, e)
    ensures Root(p[b := a], unused, LinkedRank(rank, a, b), e)
         == if Root(p, unused, rank, e) == b then a else Root(p, unused, rank, e)
    decreases Top(rank) - rank[e]
  {
    var q, r := p[b := a], LinkedRank(rank, a, b);
    if p[e] == e {
      assert e != b ==> Root(q, unused, r, e) == e;
      assert Root(q, unused, r, a) == a;
    } else {
      LinkRoot(p, unused, rank, a, b, p[e]);
    }
  }

  ghost function Roots(p: seq<int>): set<int> {
    set e | 0 <= e < |p| && p[e] == e
  }

  /** There are as many roots as sets: every set has one representative, and it is a root. */
  lemma RootsAreRepresentatives(p: seq<int>, unused: int, rank: seq<nat>)
    requires Forest(p, unused, rank)
    ensures Roots(p) == set e | 0 <= e < |p| && p[e] != unused :: Root(p, unused, rank, e)
  {
    forall e | e in Roots(p) ensures Member(p, unused, e) && Root(p, unused, rank, e) == e {
    }
  }

  lemma ImprovedRepresents(p: seq<int>, q: seq<int>, unused: int, rank: seq<nat>, unions: seq<(int, int)>)
    requires Forest(p, unused, rank) && Improved(p, q, unused, rank) && Represents(p, unused, rank, unions)
    ensures Represents(q, unused, rank, unions) && Roots(q) == Roots(p)
  {
    forall e | Member(p, unused, e) ensures Root(q, unused, rank, e) == Root(p, unused, rank, e)
      && (q[e] == e <==> p[e] == e) {
      assert NoDeeper(p, q, unused, rank, e);
    }
  }

  // Making a set of e alone.
  lemma SingletonKeeps(p: seq<int>, unused: int, rank: seq<nat>, unions: seq<(int, int)>, e: nat)
    requires Forest(p, unused, rank) && Represents(p, unused, rank, unions) && e < |p| && p[e] == unused
    ensures Forest(p[e := e], unused, rank) && Represents(p[e := e], unused, rank, unions)
    ensures |Roots(p[e := e])| == |Roots(p)| + 1
  {
    var q := p[e := e];
    forall x {:trigger Member(q, unused, x)} | Member(q, unused, x)
      ensures 0 <= q[x] < |q| && q[q[x]] != unused && (q[x] == x || rank[x] < rank[q[x]])
    {
      assert x != e ==> Member(p, unused, x);
    }
    assert Roots(q) == Roots(p) + {e};
    forall x | Member(p, unused, x) ensures Member(q, unused, x) && Root(q, unused, rank, x) == Root(p, unused, rank, x)
      && Root(p, unused, rank, x) != e {
      SingletonRoot(p, unused, rank, e, x);
    }
    forall x ensures (Connected(unions, e, x) <==> e == x) && (Connected(unions, x, e) <==> e == x) {
      FreshIsAlone(unions, e, x);
    }
  }

  // Making a set of an element that is in one: a root is counted twice, and any other element loses its set.
  lemma RemakingBreaks(p: seq<int>, unused: int, rank: seq<nat>, unions: seq<(int, int)>, e: nat)
    requires Forest(p, unused, rank) && Represents(p, unused, rank, unions) && Member(p, unused, e)
    ensures p[e] == e ==> Roots(p[e := e]) == Roots(p)
    ensures p[e] != e && Forest(p[e := e], unused, rank) ==> !Represents(p[e := e], unused, rank, unions)
  {
    var q, r := p[e := e], Root(p, unused, rank, e);
    if p[e] != e && Forest(q, unused, rank) {
      assert Connected(unions, e, r);
      assert Member(q, unused, e) && Member(q, unused, r);
      assert Root(q, unused, rank, e) == e && Root(q, unused, rank, r) == r;
    }
  }

  lemma {:induction false} SingletonRoot(p: seq<int>, unused: int, rank: seq<nat>, e: nat, x: int)
    requires Forest(p, unused, rank) && e < |p| && p[e] == unused && Forest(p[e := e], unused, rank)
    requires Member(p, unused, x) && Member(p[e := e], unused, x)
    ensures Root(p[e := e], unused, rank, x) == Root(p, unused, rank, x) != e
    decreases Top(rank) - rank[x]
  {
    if p[x] != x {
      SingletonRoot(p, unused, rank, e, p[x]);
    }
  }

  // ---------- The partition that the unions describe

  // The pairs united, the last one last, make x and y equivalent.
  ghost predicate Connected(unions: seq<(int, int)>, x: int, y: int) {
    if unions == [] then x == y
    else
      var (rest, (a, b)) := (unions[..|unions| - 1], unions[|unions| - 1]);
      || Connected(rest, x, y)
      || (Connected(rest, x, a) && Connected(rest, b, y))
      || (Connected(rest, x, b) && Connected(rest, a, y))
  }

  lemma {:induction false} ConnectedIsReflexive(unions: seq<(int, int)>, x: int)
    ensures Connected(unions, x, x)
  {
    if unions != [] {
      ConnectedIsReflexive(unions[..|unions| - 1], x);
    }
  }

  lemma {:induction false} ConnectedIsSymmetric(unions: seq<(int, int)>, x: int, y: int)
    requires Connected(unions, x, y)
    ensures Connected(unions, y, x)
  {
    if unions != [] {
      var (rest, (a, b)) := (unions[..|unions| - 1], unions[|unions| - 1]);
      if Connected(rest, x, y) {
        ConnectedIsSymmetric(rest, x, y);
      } else if Connected(rest, x, a) && Connected(rest, b, y) {
        ConnectedIsSymmetric(rest, x, a);
        ConnectedIsSymmetric(rest, b, y);
      } else {
        ConnectedIsSymmetric(rest, x, b);
        ConnectedIsSymmetric(rest, a, y);
      }
    }
  }

  lemma {:induction false} ConnectedIsTransitive(unions: seq<(int, int)>, x: int, y: int, z: int)
    requires Connected(unions, x, y) && Connected(unions, y, z)
    ensures Connected(unions, x, z)
    decreases |unions|
  {
    if unions != [] {
      var (rest, (a, b)) := (unions[..|unions| - 1], unions[|unions| - 1]);
      forall u, v, w | Connected(rest, u, v) && Connected(rest, v, w) ensures Connected(rest, u, w) {
        ConnectedIsTransitive(rest, u, v, w);
      }
      forall u, v | Connected(rest, u, v) ensures Connected(rest, v, u) {
        ConnectedIsSymmetric(rest, u, v);
      }
    }
  }

  /** Connected is contained in every equivalence that relates the united pairs. */
  lemma {:induction false} ConnectedIsLeast(unions: seq<(int, int)>, related: (int, int) -> bool, x: int, y: int)
    requires forall u :: related(u, u)
    requires forall u, v :: related(u, v) ==> related(v, u)
    requires forall u, v, w :: related(u, v) && related(v, w) ==> related(u, w)
    requires forall i :: 0 <= i < |unions| ==> related(unions[i].0, unions[i].1)
    requires Connected(unions, x, y)
    ensures related(x, y)
    decreases |unions|
  {
    if unions != [] {
      var (rest, (a, b)) := (unions[..|unions| - 1], unions[|unions| - 1]);
      assert related(a, b);
      if Connected(rest, x, y) {
        ConnectedIsLeast(rest, related, x, y);
      } else if Connected(rest, x, a) && Connected(rest, b, y) {
        ConnectedIsLeast(rest, related, x, a);
        ConnectedIsLeast(rest, related, b, y);
      } else {
        ConnectedIsLeast(rest, related, x, b);
        ConnectedIsLeast(rest, related, a, y);
      }
    }
  }

  lemma {:induction false} UnionsAreConnected(unions: seq<(int, int)>, i: nat)
    requires i < |unions|
    ensures Connected(unions, unions[i].0, unions[i].1)
  {
    var rest := unions[..|unions| - 1];
    if i < |rest| {
      UnionsAreConnected(rest, i);
    } else {
      ConnectedIsReflexive(rest, unions[i].0);
      ConnectedIsReflexive(rest, unions[i].1);
    }
  }

  // An element that was never united is connected to itself alone.
  lemma {:induction false} FreshIsAlone(unions: seq<(int, int)>, e: int, x: int)
    requires forall i :: 0 <= i < |unions| ==> unions[i].0 != e && unions[i].1 != e
    ensures Connected(unions, e, x) <==> e == x
    ensures Connected(unions, x, e) <==> e == x
  {
    if unions != [] {
      var (rest, (a, b)) := (unions[..|unions| - 1], unions[|unions| - 1]);
      assert unions[|unions| - 1] == (a, b);
      FreshIsAlone(rest, e, x);
      FreshIsAlone(rest, e, a);
      FreshIsAlone(rest, e, b);
    }
  }

  // Two elements have the same representative exactly when the unions connect them.
  ghost predicate Represents(p: seq<int>, unused: int, rank: seq<nat>, unions: seq<(int, int)>)
    requires Forest(p, unused, rank)
  {
    && (forall i :: 0 <= i < |unions| ==> Member(p, unused, unions[i].0) && Member(p, unused, unions[i].1))
    && (forall x, y :: Member(p, unused, x) && Member(p, unused, y) ==>
          (Root(p, unused, rank, x) == Root(p, unused, rank, y) <==> Connected(unions, x, y)))
  }

  lemma SameRoots(p: seq<int>, q: seq<int>, unused: int, rank: seq<nat>)
    requires Forest(p, unused, rank) && Improved(p, q, unused, rank)
    ensures Forest(q, unused, rank)
    ensures forall e :: Member(q, unused, e) <==> Member(p, unused, e)
    ensures forall e :: Member(p, unused, e) ==> Root(q, unused, rank, e) == Root(p, unused, rank, e)
  {
    forall e | Member(p, unused, e) ensures Root(q, unused, rank, e) == Root(p, unused, rank, e) {
      assert NoDeeper(p, q, unused, rank, e);
    }
  }

  // What one more pair connects.
  lemma OneMorePair(unions: seq<(int, int)>, a: int, b: int, x: int, y: int)
    ensures Connected(unions + [(a, b)], x, y) <==>
      || Connected(unions, x, y)
      || (Connected(unions, x, a) && Connected(unions, b, y))
      || (Connected(unions, x, b) && Connected(unions, a, y))
  {
    assert (unions + [(a, b)])[..|unions|] == unions;
  }

  // Uniting two elements of one set changes nothing.
  lemma SameSetUnion(p: seq<int>, unused: int, rank: seq<nat>, unions: seq<(int, int)>, x: int, y: int)
    requires Forest(p, unused, rank) && Represents(p, unused, rank, unions)
    requires Member(p, unused, x) && Member(p, unused, y) && Root(p, unused, rank, x) == Root(p, unused, rank, y)
    ensures Represents(p, unused, rank, unions + [(x, y)])
  {
    forall u, v | Member(p, unused, u) && Member(p, unused, v)
      ensures Root(p, unused, rank, u) == Root(p, unused, rank, v) <==> Connected(unions + [(x, y)], u, v)
    {
      OneMorePair(unions, x, y, u, v);
    }
  }

  /** Linking the representatives of x and y gives the partition with x and y united, and one set less. */
  lemma LinkRepresents(p: seq<int>, unused: int, rank: seq<nat>, unions: seq<(int, int)>, a: int, b: int, x: int,
      y: int)
    requires Forest(p, unused, rank) && Represents(p, unused, rank, unions)
    requires Member(p, unused, x) && Member(p, unused, y) && a != b
    requires a == Root(p, unused, rank, x) && b == Root(p, unused, rank, y)
    ensures Forest(p[b := a], unused, LinkedRank(rank, a, b))
    ensures Represents(p[b := a], unused, LinkedRank(rank, a, b), unions + [(x, y)])
    ensures |Roots(p[b := a])| == |Roots(p)| - 1
  {
    var q, r := p[b := a], LinkedRank(rank, a, b);
    LinkKeepsForest(p, unused, rank, a, b);
    assert Roots(q) == Roots(p) - {b};
    forall u, v | Member(p, unused, u) && Member(p, unused, v)
      ensures Root(q, unused, r, u) == Root(q, unused, r, v) <==> Connected(unions + [(x, y)], u, v)
    {
      LinkRoot(p, unused, rank, a, b, u);
      LinkRoot(p, unused, rank, a, b, v);
      OneMorePair(unions, x, y, u, v);
    }
  }

  // ---------- The data structure

  class DisjointSets {
    var elements: array<int>
    var unused: int
    var size: int
    ghost var rank: seq<nat>
    ghost var unions: seq<(int, int)>

    ghost predicate Valid()
      reads this, elements
    {
      && Forest(elements[..], unused, rank) && Represents(elements[..], unused, rank, unions)
      && size == |Roots(elements[..])|
    }

    constructor (n: nat, unused: int)
      requires !(0 <= unused < n)
      ensures Valid() && fresh(elements) && elements.Length == n && size == 0 && unions == []
      ensures forall e :: 0 <= e < n ==> !IsSet(e)
    {
      elements := new int[n](_ => unused);
      this.unused := unused;
      size := 0;
      rank := seq(n, _ => 0);
      unions := [];
      new;
      assert Roots(elements[..]) == {};
    }

    predicate IsSet(e: nat)
      requires e < elements.Length
      reads this, elements
    {
      elements[e] != unused
    }

    /** A new element becomes a set of its own; an element that is in a set already breaks the structure. */
    method MakeSet(e: nat)
      requires Valid() && e < elements.Length
      modifies elements, this`size
      ensures elements[..] == old(elements[..])[e := e] && size == old(size) + 1
      ensures Valid() <==> !old(IsSet(e))
    {
      ghost var p := elements[..];
      if p[e] == unused {
        SingletonKeeps(p, unused, rank, unions, e);
      } else {
        RemakingBreaks(p, unused, rank, unions, e);
      }
      elements[e] := e;
      size := size + 1;
      assert elements[..] == p[e := e];
    }

    function CountSets(): int
      reads this
    {
      size
    }

    /** There are as many sets as elements of which no two are connected and to which every element is connected. */
    lemma CountSetsIsSets() returns (sets: set<int>)
      requires Valid()
      ensures CountSets() == |sets| == |Roots(elements[..])|
      ensures forall e :: e in sets ==> Member(elements[..], unused, e)
      ensures forall a, b :: a in sets && b in sets && Connected(unions, a, b) ==> a == b
      ensures forall e :: Member(elements[..], unused, e) ==> exists r :: r in sets && Connected(unions, e, r)
    {
      ghost var p := elements[..];
      sets := Roots(p);
      forall a, b | a in sets && b in sets && Connected(unions, a, b) ensures a == b {
        assert Member(p, unused, a) && Member(p, unused, b);
      }
      forall e | Member(p, unused, e) ensures exists r :: r in sets && Connected(unions, e, r) {
        var r := Root(p, unused, rank, e);
        assert Connected(unions, e, r) && r in sets;
      }
    }

    /** The representative of t; on the way, every other element of the path gets a parent twice as far up. */
    method FindSet(t: int) returns (r: int)
      requires Valid() && Member(elements[..], unused, t)
      modifies elements
      ensures Valid() && r == old(Root(elements[..], unused, rank, t))
      ensures elements[..] == old(Find(elements[..], unused, rank, t))
    {
      ghost var p, all := elements[..], Find(elements[..], unused, rank, t);
      FindImproves(p, unused, rank, t);
      ImprovedRepresents(p, all, unused, rank, unions);
      var s := t;
      while true
        invariant Forest(elements[..], unused, rank) && Member(elements[..], unused, s)
        invariant Find(elements[..], unused, rank, s) == all
        invariant Root(elements[..], unused, rank, s) == Root(p, unused, rank, t)
        decreases Top(rank) - rank[s]
      {
        ghost var q := elements[..];
        HalveKeepsForest(q, unused, rank, s);
        var x := elements[elements[s]];
        if x == s {
          return s;
        }
        HalveKeepsRoot(q, unused, rank, s, x);
        elements[s] := x;
        assert elements[..] == Halve(q, unused, s);
        s := x;
      }
    }

    /** Unites the sets that a and b represent, which are those of x and y; the representative is a. */
    method Link(a: int, b: int, ghost x: int, ghost y: int) returns (r: int)
      requires Valid() && Member(elements[..], unused, x) && Member(elements[..], unused, y)
      requires a == Root(elements[..], unused, rank, x) && b == Root(elements[..], unused, rank, y)
      modifies elements, this`size, this`rank, this`unions
      ensures Valid() && r == a && unions == old(unions) + [(x, y)]
      ensures elements[..] == if a == b then old(elements[..]) else old(elements[..])[b := a]
      ensures size == old(size) - if a == b then 0 else 1
      ensures rank == if a == b then old(rank) else LinkedRank(old(rank), a, b)
    {
      ghost var p := elements[..];
      if a == b {
        SameSetUnion(p, unused, rank, unions, x, y);
        unions := unions + [(x, y)];
        return a;
      }
      LinkRepresents(p, unused, rank, unions, a, b, x, y);
      size := size - 1;
      elements[b] := a;
      assert elements[..] == p[b := a];
      rank := LinkedRank(rank, a, b);
      unions := unions + [(x, y)];
      return a;
    }

    /** Unites the sets of a and b, whichever of the two arguments of link() is evaluated first. */
    method UnionSet(a: int, b: int, leftFirst: bool) returns (r: int)
      requires Valid() && Member(elements[..], unused, a) && Member(elements[..], unused, b)
      modifies elements, this`size, this`rank, this`unions
      ensures Valid() && unions == old(unions) + [(a, b)]
      ensures r == old(Root(elements[..], unused, rank, a))
      ensures forall e :: Member(elements[..], unused, e) <==> Member(old(elements[..]), unused, e)
      ensures size == old(size) - if old(Connected(unions, a, b)) then 0 else 1
      ensures forall e :: Member(old(elements[..]), unused, e) ==>
        var before := old(Root(elements[..], unused, rank, e));
        Root(elements[..], unused, rank, e) ==
          if before == old(Root(elements[..], unused, rank, b)) then old(Root(elements[..], unused, rank, a))
            else before
    {
      ghost var p := elements[..];
      var left, right;
      if leftFirst {
        left := FindSet(a);
        FindImproves(p, unused, rank, a);
        ghost var q := elements[..];
        right := FindSet(b);
        FindImproves(q, unused, rank, b);
        ImprovedTwice(p, q, elements[..], unused, rank);
      } else {
        right := FindSet(b);
        FindImproves(p, unused, rank, b);
        ghost var q := elements[..];
        left := FindSet(a);
        FindImproves(q, unused, rank, a);
        ImprovedTwice(p, q, elements[..], unused, rank);
      }
      ghost var q, oldRank := elements[..], rank;
      SameRoots(p, q, unused, rank);
      r := Link(left, right, a, b);
      if left != right {
        LinkKeepsForest(q, unused, oldRank, left, right);
        forall e | Member(q, unused, e)
          ensures Root(elements[..], unused, rank, e)
            == if Root(q, unused, oldRank, e) == right then left else Root(q, unused, oldRank, e)
        {
          LinkRoot(q, unused, oldRank, left, right, e);
        }
      }
    }

    method Clear()
      requires Valid()
      modifies elements, this`size, this`unions
      ensures Valid() && size == 0 && unions == []
      ensures forall e :: 0 <= e < elements.Length ==> !IsSet(e)
    {
      forall i | 0 <= i < elements.Length {
        elements[i] := unused;
      }
      size := 0;
      unions := [];
      assert Roots(elements[..]) == {};
    }

    /** All elements are lost. */
    method Resize(n: nat)
      requires Valid() && !(0 <= unused < n)
      modifies this
      ensures Valid() && fresh(elements) && elements.Length == n && size == 0 && unions == [] && unused == old(unused)
      ensures forall e :: 0 <= e < n ==> !IsSet(e)
    {
      var u := unused;
      elements := new int[n](_ => u);
      size := 0;
      rank := seq(n, _ => 0);
      unions := [];
      assert Roots(elements[..]) == {};
    }
  }

  /** An element that is made a set twice counts as two sets. */
  method MadeTwice() returns (count: int, ghost sets: nat)
    ensures count == 2 && sets == 1
  {
    var d := new DisjointSets(1, -1);
    d.MakeSet(0);
    d.MakeSet(0);
    count := d.CountSets();
    sets := |Roots(d.elements[..])|;
    assert Roots(d.elements[..]) == {0};
  }
}
