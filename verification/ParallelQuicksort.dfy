/** Quicksort jobs of tpie/parallel_sort.h on the job system, under every interleaving. */
module ParallelQuicksort {
  import opened Options
  import opened Order
  import opened ParallelSort
  import opened JobSystem

  // The part [lo, hi) of the array that a job has yet to sort.
  datatype Segment = Segment(lo: nat, hi: nat)

  type Segments = map<JobId, Segment>

  // The array, the job system, and the segment of every job of this sort.
  datatype Sorting = Sorting(sys: System, a: seq<Item>, segments: Segments, master: JobId, minSize: nat, splits: nat)

  // What a thread does inside a body: move items around, spawn the left part of a partitioned
  // segment, or return with its segment sorted. Everything else is a step of the job system.
  datatype Action =
    | Rearrange(t: nat, after: seq<Item>)
    | Split(t: nat, p: nat, child: JobId)
    | Settle(t: nat)
    | Other(step: Step)

  // Thread t executes the body of a job of this sort.
  predicate InBody(s: Sorting, t: nat) {
    t < |s.sys.stacks| && s.sys.stacks[t] != [] && InState(s.sys.jobs, Top(s.sys, t), Running)
      && Top(s.sys, t) in s.segments
  }

  function Of(s: Sorting, t: nat): Segment
    requires InBody(s, t)
  {
    s.segments[Top(s.sys, t)]
  }

  ghost predicate Possible(s: Sorting, action: Action) {
    match action
    case Rearrange(t, after) =>
      InBody(s, t) && var g := Of(s, t); g.lo <= g.hi <= |after| && Rearranged(after, s.a, g.lo, g.hi)
    case Split(t, p, child) =>
      && InBody(s, t) && child !in s.sys.jobs
      && var g := Of(s, t); g.lo <= p < g.hi <= |s.a| && g.hi - g.lo >= s.minSize && SplitAt(s.a, g.lo, p, g.hi)
    case Settle(t) =>
      InBody(s, t) && var g := Of(s, t); g.lo <= g.hi <= |s.a| && g.hi - g.lo < s.minSize && Sorted(s.a[g.lo..g.hi])
    case Other(step) =>
      && Enabled(s.sys, step)
      && match step
         case Enqueue(t, j, _) => j !in s.segments && (s.sys.stacks[t] == [] || Top(s.sys, t) !in s.segments)
         case Finish(t) => Top(s.sys, t) !in s.segments
         case _ => true
  }

  function ChildStep(s: Sorting, t: nat, child: JobId): Step
    requires InBody(s, t)
  {
    Enqueue(t, child, Some(Top(s.sys, t)))
  }

  ghost function Created(s: Sorting, child: JobId): System
    requires child !in s.sys.jobs
  {
    After(s.sys, Create(child))
  }

  lemma ChildCanBeEnqueued(s: Sorting, t: nat, child: JobId)
    requires InBody(s, t) && child !in s.sys.jobs
    ensures Enabled(Created(s, child), ChildStep(s, t, child))
  {
  }

  ghost function Act(s: Sorting, action: Action): Sorting
    requires Possible(s, action)
  {
    match action
    case Rearrange(t, after) => s.(a := after)
    case Split(t, p, child) =>
      ChildCanBeEnqueued(s, t, child);
      var g := Of(s, t);
      s.(sys := After(Created(s, child), ChildStep(s, t, child)),
         segments := s.segments[Top(s.sys, t) := Segment(p + 1, g.hi)][child := Segment(g.lo, p)],
         splits := s.splits + 1)
    case Settle(t) => s.(sys := After(s.sys, Finish(t)))
    case Other(step) => s.(sys := After(s.sys, step))
  }

  // ---------- The segments of the bodies that have not returned

  ghost function Live(jobs: Jobs, segments: Segments): Segments {
    map j | j in segments && Unfinished(jobs, j) == 1 :: segments[j]
  }

  predicate Within(g: Segment, x: nat) {
    g.lo <= x < g.hi
  }

  ghost predicate Bounded(live: Segments, n: nat) {
    forall j :: j in live ==> live[j].lo <= live[j].hi <= n
  }

  ghost predicate Disjoint(live: Segments) {
    forall j, k, x: nat :: j in live && k in live && Within(live[j], x) && Within(live[k], x) ==> j == k
  }

  // Two items may be out of order only inside one live segment.
  predicate Together(live: Segments, j: JobId, x: nat, y: nat) {
    j in live && Within(live[j], x) && Within(live[j], y)
  }

  ghost predicate PairOk(live: Segments, a: seq<Item>, x: nat, y: nat)
    requires x < |a| && y < |a|
  {
    a[x].key <= a[y].key || exists j :: Together(live, j, x, y)
  }

  ghost predicate Ordered(live: Segments, a: seq<Item>) {
    forall x: nat, y: nat :: x < y < |a| ==> PairOk(live, a, x, y)
  }

  ghost predicate Good(live: Segments, a: seq<Item>) {
    Bounded(live, |a|) && Disjoint(live) && Ordered(live, a)
  }

  lemma RearrangeKeepsGood(live: Segments, a: seq<Item>, after: seq<Item>, j: JobId)
    requires Good(live, a) && j in live && live[j].hi <= |after| && Rearranged(after, a, live[j].lo, live[j].hi)
    ensures Good(live, after) && multiset(after) == multiset(a)
  {
    var g := live[j];
    RearrangedWithin(after, a, 0, g.lo, g.hi, |a|);
    assert after[0..|a|] == after && a[0..|a|] == a;
    forall x: nat, y: nat | x < y < |after| ensures PairOk(live, after, x, y) {
      if Within(g, x) && Within(g, y) {
        assert Together(live, j, x, y);
      } else {
        var x0 := if Within(g, x) then RearrangedFrom(after, a, g.lo, g.hi, x) else x;
        var y0 := if Within(g, y) then RearrangedFrom(after, a, g.lo, g.hi, y) else y;
        assert PairOk(live, a, x0, y0);
        if k :| Together(live, k, x0, y0) {
          assert k != j;
          assert !Within(g, x) && !Within(g, y);
          assert Together(live, k, x, y);
        }
      }
    }
  }

  // The position the item now at k was taken from.
  ghost function RearrangedFrom(s: seq<Item>, t: seq<Item>, lo: nat, hi: nat, k: nat): (i: nat)
    requires lo <= k < hi <= |s| && Rearranged(s, t, lo, hi)
    ensures lo <= i < hi && t[i] == s[k]
  {
    assert s[lo..hi][k - lo] in multiset(t[lo..hi]);
    var i :| 0 <= i < hi - lo && t[lo..hi][i] == s[k];
    lo + i
  }

  lemma SplitKeepsGood(live: Segments, a: seq<Item>, j: JobId, p: nat, child: JobId)
    requires Good(live, a) && j in live && child !in live
    requires live[j].lo <= p < live[j].hi <= |a| && SplitAt(a, live[j].lo, p, live[j].hi)
    ensures Good(live[j := Segment(p + 1, live[j].hi)][child := Segment(live[j].lo, p)], a)
  {
    var live' := live[j := Segment(p + 1, live[j].hi)][child := Segment(live[j].lo, p)];
    forall x: nat, y: nat | x < y < |a| ensures PairOk(live', a, x, y) {
      assert PairOk(live, a, x, y);
      if k :| Together(live, k, x, y) {
        if k != j {
          assert Together(live', k, x, y);
        } else if y < p {
          assert Together(live', child, x, y);
        } else if p < x {
          assert Together(live', j, x, y);
        }
      }
    }
  }

  lemma SettleKeepsGood(live: Segments, a: seq<Item>, j: JobId)
    requires Good(live, a) && j in live && live[j].hi <= |a| && Sorted(a[live[j].lo..live[j].hi])
    ensures Good(live - {j}, a)
  {
    var g := live[j];
    forall x: nat, y: nat | x < y < |a| ensures PairOk(live - {j}, a, x, y) {
      assert PairOk(live, a, x, y);
      if k :| Together(live, k, x, y) {
        if k == j {
          assert a[g.lo..g.hi][x - g.lo].key <= a[g.lo..g.hi][y - g.lo].key;
        } else {
          assert Together(live - {j}, k, x, y);
        }
      }
    }
  }

  ghost predicate Held(live: Segments, x: nat) {
    exists j :: j in live && Within(live[j], x)
  }

  // Positions some live segment still holds; every split takes one out.
  ghost function Covered(live: Segments, n: nat): set<nat> {
    set x: nat | x < n && Held(live, x)
  }

  lemma SplitUncovers(live: Segments, n: nat, j: JobId, p: nat, child: JobId)
    requires Disjoint(live) && j in live && child !in live && live[j].lo <= p < live[j].hi <= n
    ensures |Covered(live[j := Segment(p + 1, live[j].hi)][child := Segment(live[j].lo, p)], n)| < |Covered(live, n)|
  {
    var live' := live[j := Segment(p + 1, live[j].hi)][child := Segment(live[j].lo, p)];
    assert p in Covered(live, n);
    forall x | x in Covered(live', n) ensures x in Covered(live, n) - {p} {
      var k :| k in live' && Within(live'[k], x);
      if k == child || k == j {
        assert Within(live[j], x);
      }
    }
    SubsetSize(Covered(live', n), Covered(live, n) - {p});
  }

  lemma SettleUncovers(live: Segments, n: nat, j: JobId)
    ensures |Covered(live - {j}, n)| <= |Covered(live, n)|
  {
    SubsetSize(Covered(live - {j}, n), Covered(live, n));
  }

  // ---------- The invariant

  // Every active job of this sort but the master was spawned by another one.
  ghost predicate Linked(jobs: Jobs, segments: Segments, master: JobId) {
    && master in segments && segments.Keys <= jobs.Keys
    && forall j :: j in segments && Active(jobs, j) && j != master ==>
      jobs[j].parent.Some? && jobs[j].parent.value in segments
  }

  ghost predicate SortInv(s: Sorting, items: multiset<Item>) {
    && Inv(s.sys) && Linked(s.sys.jobs, s.segments, s.master)
    && Good(Live(s.sys.jobs, s.segments), s.a) && multiset(s.a) == items
    && s.splits + |Covered(Live(s.sys.jobs, s.segments), |s.a|)| <= |s.a|
  }

  // The innermost body of a thread has not returned.
  lemma BodyIsLive(s: Sorting, t: nat)
    requires Inv(s.sys) && InBody(s, t)
    ensures Top(s.sys, t) in Live(s.sys.jobs, s.segments) && Live(s.sys.jobs, s.segments)[Top(s.sys, t)] == Of(s, t)
  {
    hide JobsInv, BornBefore, Placed, QueueStates, AllStackStates;
    StackedIsUnfinished(s.sys.jobs, s.sys.queue, s.sys.stacks, t, |s.sys.stacks[t]| - 1);
  }

  lemma FinishLive(jobs: Jobs, jobs': Jobs, j: JobId, segments: Segments, master: JobId)
    requires j in jobs && DoneChanges(Returned(jobs, j), jobs') && Linked(jobs, segments, master)
    ensures Live(jobs', segments) == Live(jobs, segments) - {j} && Linked(jobs', segments, master)
  {
    var live, live' := Live(jobs, segments), Live(jobs', segments);
    assert live'.Keys == live.Keys - {j};
    hide DoneChanges, Returned;
    assert live' == live - {j};
  }

  lemma SameLive(jobs: Jobs, jobs': Jobs, segments: Segments, master: JobId)
    requires Linked(jobs, segments, master) && jobs.Keys <= jobs'.Keys
    requires forall j :: j in segments && j in jobs ==>
      jobs'[j].unfinished == jobs[j].unfinished && jobs'[j].parent == jobs[j].parent
        && (jobs'[j].state == Idle <==> jobs[j].state == Idle)
    ensures Live(jobs', segments) == Live(jobs, segments) && Linked(jobs', segments, master)
  {
  }

  lemma OtherKeepsLive(s: Sorting, step: Step)
    requires Possible(s, Other(step)) && Inv(s.sys) && Linked(s.sys.jobs, s.segments, s.master)
    ensures var jobs := After(s.sys, step).jobs;
            Live(jobs, s.segments) == Live(s.sys.jobs, s.segments) && Linked(jobs, s.segments, s.master)
  {
    hide Inv, Linked, Live;
    match step
    case Create(j) =>
      LinkedKeys(s);
      SameLive(s.sys.jobs, After(s.sys, step).jobs, s.segments, s.master);
    case Enqueue(t, j, parent) => SameLive(s.sys.jobs, After(s.sys, step).jobs, s.segments, s.master);
    case Take(t) =>
    case Start(t) => SameLive(s.sys.jobs, After(s.sys, step).jobs, s.segments, s.master);
    case Finish(t) => OtherFinishKeepsLive(s, t);
  }

  lemma LinkedKeys(s: Sorting)
    requires Linked(s.sys.jobs, s.segments, s.master)
    ensures s.segments.Keys <= s.sys.jobs.Keys
  {
  }

  lemma OtherFinishKeepsLive(s: Sorting, t: nat)
    requires Possible(s, Other(Finish(t))) && Inv(s.sys) && Linked(s.sys.jobs, s.segments, s.master)
    ensures var jobs := After(s.sys, Finish(t)).jobs;
            Live(jobs, s.segments) == Live(s.sys.jobs, s.segments) && Linked(jobs, s.segments, s.master)
  {
    hide Inv, Linked, DoneChanges, JobsInv, Done;
    FinishNeverFails(s.sys, t);
    var live := Live(s.sys.jobs, s.segments);
    FinishLive(s.sys.jobs, After(s.sys, Finish(t)).jobs, Top(s.sys, t), s.segments, s.master);
    assert live - {Top(s.sys, t)} == live;
  }

  // A child has been added to the jobs.
  ghost predicate Spawned(jobs: Jobs, jobs': Jobs, j: JobId, child: JobId) {
    && child !in jobs && j in jobs && jobs'.Keys == jobs.Keys + {child}
    && jobs'[child].unfinished && jobs'[child].parent == Some(j)
    && forall k :: k in jobs ==>
         && jobs'[k].unfinished == jobs[k].unfinished && jobs'[k].parent == jobs[k].parent
         && (jobs'[k].state == Idle <==> jobs[k].state == Idle)
  }

  lemma SpawnLive(jobs: Jobs, jobs': Jobs, segments: Segments, j: JobId, child: JobId, rest: Segment, left: Segment)
    requires Spawned(jobs, jobs', j, child) && segments.Keys <= jobs.Keys && j in segments && jobs[j].unfinished
    ensures Live(jobs', segments[j := rest][child := left]) == Live(jobs, segments)[j := rest][child := left]
  {
    var live, live' := Live(jobs, segments), Live(jobs', segments[j := rest][child := left]);
    assert j in live && live'.Keys == live.Keys + {child};
    hide Spawned;
    assert live' == live[j := rest][child := left];
  }

  lemma SpawnLinked(jobs: Jobs, jobs': Jobs, segments: Segments, master: JobId, j: JobId, child: JobId, rest: Segment,
      left: Segment)
    requires Spawned(jobs, jobs', j, child) && Linked(jobs, segments, master) && j in segments
    ensures Linked(jobs', segments[j := rest][child := left], master)
  {
  }

  lemma SplitJobs(s: Sorting, t: nat, child: JobId)
    requires Inv(s.sys) && InBody(s, t) && child !in s.sys.jobs
    requires Enabled(Created(s, child), ChildStep(s, t, child))
    ensures var sys := After(Created(s, child), ChildStep(s, t, child));
            Inv(sys) && Spawned(s.sys.jobs, sys.jobs, Top(s.sys, t), child)
  {
    hide Inv;
    StepKeepsInv(s.sys, Create(child));
    StepKeepsInv(Created(s, child), ChildStep(s, t, child));
  }

  lemma SplitKeepsSortInv(s: Sorting, t: nat, p: nat, child: JobId, items: multiset<Item>)
    requires SortInv(s, items) && Possible(s, Split(t, p, child))
    ensures SortInv(Act(s, Split(t, p, child)), items)
  {
    hide Inv, Linked, Good, Live, Covered, After, Enabled, SplitAt, Created, Spawned;
    var g, j, jobs := Of(s, t), Top(s.sys, t), s.sys.jobs;
    var s' := Act(s, Split(t, p, child));
    ChildCanBeEnqueued(s, t, child);
    SplitJobs(s, t, child);
    BodyIsLive(s, t);
    LiveJobs(jobs, s.segments, j);
    LinkedKeys(s);
    SpawnLinked(jobs, s'.sys.jobs, s.segments, s.master, j, child, Segment(p + 1, g.hi), Segment(g.lo, p));
    SpawnLive(jobs, s'.sys.jobs, s.segments, j, child, Segment(p + 1, g.hi), Segment(g.lo, p));
    LiveKeys(jobs, s.segments);
    SplitKeepsGood(Live(jobs, s.segments), s.a, j, p, child);
    GoodIsDisjoint(Live(jobs, s.segments), s.a);
    SplitUncovers(Live(jobs, s.segments), |s.a|, j, p, child);
  }

  lemma LiveKeys(jobs: Jobs, segments: Segments)
    ensures Live(jobs, segments).Keys <= jobs.Keys
  {
  }

  lemma LiveJobs(jobs: Jobs, segments: Segments, j: JobId)
    requires j in Live(jobs, segments)
    ensures j in jobs && jobs[j].unfinished && j in segments
  {
  }

  lemma GoodIsDisjoint(live: Segments, a: seq<Item>)
    requires Good(live, a)
    ensures Disjoint(live)
  {
  }

  lemma SettleKeepsSortInv(s: Sorting, t: nat, items: multiset<Item>)
    requires SortInv(s, items) && Possible(s, Settle(t))
    ensures SortInv(Act(s, Settle(t)), items)
  {
    hide Inv, Linked, Good, Live, Covered, Done, DoneChanges, JobsInv, Next;
    var j := Top(s.sys, t);
    StepKeepsInv(s.sys, Finish(t));
    FinishNeverFails(s.sys, t);
    FinishLive(s.sys.jobs, After(s.sys, Finish(t)).jobs, j, s.segments, s.master);
    BodyIsLive(s, t);
    SettleKeepsGood(Live(s.sys.jobs, s.segments), s.a, j);
    SettleUncovers(Live(s.sys.jobs, s.segments), |s.a|, j);
  }

  /** Every action of every thread keeps the invariant. */
  lemma ActKeepsInv(s: Sorting, action: Action, items: multiset<Item>)
    requires SortInv(s, items) && Possible(s, action)
    ensures SortInv(Act(s, action), items)
  {
    match action
    case Rearrange(t, after) =>
      hide Inv, Good, Live, Covered;
      BodyIsLive(s, t);
      RearrangeKeepsGood(Live(s.sys.jobs, s.segments), s.a, after, Top(s.sys, t));
    case Split(t, p, child) => SplitKeepsSortInv(s, t, p, child, items);
    case Settle(t) => SettleKeepsSortInv(s, t, items);
    case Other(step) =>
      hide Inv, Linked, Good, Live, Covered, Next;
      StepKeepsInv(s.sys, step);
      OtherKeepsLive(s, step);
  }

  // ---------- Runs

  // The master job has been enqueued to sort all of the array.
  ghost predicate Begins(s: Sorting) {
    && Inv(s.sys) && s.segments == map[s.master := Segment(0, |s.a|)] && s.splits == 0
    && InState(s.sys.jobs, s.master, Enqueued)
  }

  /** A sort begins when its master job has been enqueued, whatever else the pool is doing. */
  lemma MasterEnqueued(sys: System, t: nat, master: JobId, a: seq<Item>, minSize: nat)
    requires Inv(sys) && Enabled(sys, Enqueue(t, master, None)) && InState(sys.jobs, master, Idle)
    ensures Begins(Sorting(After(sys, Enqueue(t, master, None)), a, map[master := Segment(0, |a|)], master, minSize, 0))
  {
    hide Inv;
    StepKeepsInv(sys, Enqueue(t, master, None));
  }

  ghost predicate Runs(s: Sorting, actions: seq<Action>, s': Sorting)
    decreases |actions|
  {
    if actions == [] then s' == s
    else Possible(s, actions[0]) && Runs(Act(s, actions[0]), actions[1..], s')
  }

  lemma BeginsInv(s: Sorting)
    requires Begins(s)
    ensures SortInv(s, multiset(s.a))
  {
    assert Counts(s.sys.jobs, s.master, None);
    var live := Live(s.sys.jobs, s.segments);
    assert live == s.segments;
    forall x: nat, y: nat | x < y < |s.a| ensures PairOk(live, s.a, x, y) {
      assert Together(live, s.master, x, y);
    }
    CoveredSize(live, |s.a|);
  }

  lemma {:induction false} CoveredSize(live: Segments, n: nat)
    ensures |Covered(live, n)| <= n
  {
    if n > 0 {
      CoveredSize(live, n - 1);
      SubsetSize(Covered(live, n) - {n - 1}, Covered(live, n - 1));
    }
  }

  lemma {:induction false} RunKeepsSortInv(s: Sorting, actions: seq<Action>, s': Sorting, items: multiset<Item>)
    requires SortInv(s, items) && Runs(s, actions, s')
    ensures SortInv(s', items) && s'.master == s.master
    decreases |actions|
  {
    hide SortInv, Inv, Next;
    if actions != [] {
      ActKeepsInv(s, actions[0], items);
      RunKeepsSortInv(Act(s, actions[0]), actions[1..], s', items);
    }
  }

  lemma {:induction false} MasterOutlives(jobs: Jobs, segments: Segments, master: JobId, j: JobId)
    requires JobsInv(jobs, None) && Linked(jobs, segments, master) && j in segments && Active(jobs, j)
    ensures Active(jobs, master)
    decreases jobs[j].born
  {
    if j != master {
      ParentIsActive(jobs, j);
      MasterOutlives(jobs, segments, master, jobs[j].parent.value);
    }
  }

  lemma IdleWithout(jobs: Jobs, j: JobId)
    requires JobsInv(jobs, None) && j in jobs && jobs[j].dependencies == 0
    ensures !Active(jobs, j)
  {
    assert Counts(jobs, j, None);
  }

  lemma LiveIsActive(jobs: Jobs, segments: Segments, j: JobId)
    requires JobsInv(jobs, None) && j in Live(jobs, segments)
    ensures j in segments && Active(jobs, j)
  {
    assert Counts(jobs, j, None);
    assert |Children(jobs, j)| >= 0;
  }

  lemma DoneIsSorted(s: Sorting, items: multiset<Item>)
    requires SortInv(s, items) && s.master in s.sys.jobs && s.sys.jobs[s.master].dependencies == 0
    ensures SortedPermutation(s.a, items)
  {
    hide Placed, BornBefore, QueueStates, AllStackStates, Covered, Linked, Live;
    IdleWithout(s.sys.jobs, s.master);
    hide JobsInv;
    var live := Live(s.sys.jobs, s.segments);
    if j :| j in live {
      LiveIsActive(s.sys.jobs, s.segments, j);
      MasterOutlives(s.sys.jobs, s.segments, s.master, j);
      assert false;
    }
    forall x, y | 0 <= x <= y < |s.a| ensures s.a[x].key <= s.a[y].key {
      if x < y {
        assert PairOk(live, s.a, x, y);
      }
    }
  }

  /** Once join() on the master can return, the array is a sorted permutation, whatever the interleaving. */
  lemma JoinedArrayIsSorted(s: Sorting, actions: seq<Action>, s': Sorting)
    requires Begins(s) && Runs(s, actions, s')
    requires s'.master in s'.sys.jobs && s'.sys.jobs[s'.master].dependencies == 0
    ensures SortedPermutation(s'.a, multiset(s.a))
  {
    BeginsInv(s);
    RunKeepsSortInv(s, actions, s', multiset(s.a));
    DoneIsSorted(s', multiset(s.a));
  }

  ghost function SplitSteps(actions: seq<Action>): nat {
    if actions == [] then 0 else (if actions[0].Split? then 1 else 0) + SplitSteps(actions[1..])
  }

  lemma {:induction false} SplitsCounted(s: Sorting, actions: seq<Action>, s': Sorting)
    requires Runs(s, actions, s')
    ensures s'.splits == s.splits + SplitSteps(actions)
    decreases |actions|
  {
    hide Possible;
    if actions != [] {
      SplitsCounted(Act(s, actions[0]), actions[1..], s');
    }
  }

  /** No run splits a segment, and so spawns a job, more often than the array has items. */
  lemma FewJobs(s: Sorting, actions: seq<Action>, s': Sorting)
    requires Begins(s) && Runs(s, actions, s')
    ensures SplitSteps(actions) == s'.splits <= |s.a|
  {
    SplitsCounted(s, actions, s');
    BeginsInv(s);
    RunKeepsSortInv(s, actions, s', multiset(s.a));
    assert |multiset(s'.a)| == |multiset(s.a)|;
  }

  /** Two threads inside bodies of the sort hold disjoint segments, so neither sees the other's writes. */
  lemma NoSharing(s: Sorting, items: multiset<Item>, t: nat, u: nat, after: seq<Item>, x: nat)
    requires SortInv(s, items) && InBody(s, t) && InBody(s, u) && t != u
    requires Possible(s, Rearrange(t, after)) && Within(Of(s, u), x) && x < |s.a|
    ensures !Within(Of(s, t), x) && after[x] == s.a[x]
  {
    hide Placed, JobsInv, BornBefore, QueueStates, AllStackStates, Linked, Ordered, Live, Covered, Bounded;
    BodyIsLive(s, t);
    BodyIsLive(s, u);
    TopOnce(s.sys.jobs, s.sys.queue, s.sys.stacks, t, u, |s.sys.stacks[u]| - 1);
  }

  // ---------- How much work a sort is

  ghost function LiveOnes(jobs: Jobs, segments: Segments): set<JobId> {
    set j | j in segments && Unfinished(jobs, j) == 1
  }

  ghost function WaitingOnes(jobs: Jobs, segments: Segments): set<JobId> {
    set j | j in segments && InState(jobs, j, Enqueued)
  }

  ghost function QueuedOnes(queue: seq<JobId>, segments: Segments): set<JobId> {
    set j | j in segments && j in queue
  }

  // A job of the sort is to be taken from the queue, started and finished.
  ghost function Own(s: Sorting): nat {
    |QueuedOnes(s.sys.queue, s.segments)| + |WaitingOnes(s.sys.jobs, s.segments)| + |LiveOnes(s.sys.jobs, s.segments)|
  }

  // The steps that take, start or finish a job of this sort.
  ghost predicate IsOwnWork(s: Sorting, action: Action)
    requires Possible(s, action)
  {
    match action
    case Settle(_) => true
    case Other(Take(t)) => s.sys.queue[0] in s.segments
    case Other(Start(t)) => Top(s.sys, t) in s.segments
    case _ => false
  }

  lemma SplitOwn(s: Sorting, t: nat, p: nat, child: JobId, items: multiset<Item>)
    requires SortInv(s, items) && Possible(s, Split(t, p, child))
    ensures Own(Act(s, Split(t, p, child))) <= Own(s) + 3
  {
    hide Inv, Linked, Good, After, Enabled, SplitAt, Created, QueuedOnes, WaitingOnes, LiveOnes, InState, Unfinished;
    ChildCanBeEnqueued(s, t, child);
    SplitSystem(s, t, child);
    var s' := Act(s, Split(t, p, child));
    OneMoreOwn(s.sys.jobs, s'.sys.jobs, s.sys.queue, s'.sys.queue, s.segments, s'.segments, child);
  }

  lemma OneMoreOwn(jobs: Jobs, jobs': Jobs, queue: seq<JobId>, queue': seq<JobId>, segments: Segments,
      segments': Segments, child: JobId)
    requires segments'.Keys <= segments.Keys + {child} && (queue' == queue || queue' == queue + [child])
    requires forall k :: k != child ==>
      (InState(jobs', k, Enqueued) <==> InState(jobs, k, Enqueued)) && Unfinished(jobs', k) == Unfinished(jobs, k)
    ensures |QueuedOnes(queue', segments')| <= |QueuedOnes(queue, segments)| + 1
    ensures |WaitingOnes(jobs', segments')| <= |WaitingOnes(jobs, segments)| + 1
    ensures |LiveOnes(jobs', segments')| <= |LiveOnes(jobs, segments)| + 1
  {
    hide InState, Unfinished;
    SubsetSize(QueuedOnes(queue', segments'), QueuedOnes(queue, segments) + {child});
    SubsetSize(WaitingOnes(jobs', segments'), WaitingOnes(jobs, segments) + {child});
    SubsetSize(LiveOnes(jobs', segments'), LiveOnes(jobs, segments) + {child});
  }

  // Spawning changes the state of no other job, and the queue by the child at most.
  lemma SplitSystem(s: Sorting, t: nat, child: JobId)
    requires Inv(s.sys) && InBody(s, t) && child !in s.sys.jobs
    requires Enabled(Created(s, child), ChildStep(s, t, child))
    ensures var sys := After(Created(s, child), ChildStep(s, t, child));
            && (sys.queue == s.sys.queue || sys.queue == s.sys.queue + [child])
            && forall k :: k != child ==>
                 && (InState(sys.jobs, k, Enqueued) <==> InState(s.sys.jobs, k, Enqueued))
                 && Unfinished(sys.jobs, k) == Unfinished(s.sys.jobs, k)
  {
    hide Inv;
  }

  lemma FinishOwn(s: Sorting, t: nat)
    requires Inv(s.sys) && Enabled(s.sys, Finish(t))
    ensures var sys := After(s.sys, Finish(t));
            && sys.queue == s.sys.queue && WaitingOnes(sys.jobs, s.segments) == WaitingOnes(s.sys.jobs, s.segments)
            && LiveOnes(sys.jobs, s.segments) == LiveOnes(s.sys.jobs, s.segments) - {Top(s.sys, t)}
            && Unfinished(s.sys.jobs, Top(s.sys, t)) == 1
  {
    hide Inv, Done, JobsInv, Older;
    FinishNeverFails(s.sys, t);
  }

  lemma TakeOwn(s: Sorting, t: nat)
    requires Inv(s.sys) && Enabled(s.sys, Take(t))
    ensures var j, queue := s.sys.queue[0], s.sys.queue[1..];
            && QueuedOnes(queue, s.segments) == QueuedOnes(s.sys.queue, s.segments) - {j}
            && (j in QueuedOnes(s.sys.queue, s.segments) <==> j in s.segments)
  {
    hide Inv;
    var j, queue := s.sys.queue[0], s.sys.queue[1..];
    QueuedOnce(s.sys);
    assert s.sys.queue == [j] + queue;
  }

  // The job that is taken is nowhere else in the queue.
  lemma QueuedOnce(s: System)
    requires Inv(s) && s.queue != []
    ensures s.queue[0] !in s.queue[1..]
  {
    var j, queue := s.queue[0], s.queue[1..];
    assert s.queue == [j] + queue;
    assert Places(s.queue, s.stacks)[j] == Unfinished(s.jobs, j);
    assert j in multiset(queue) <==> j in queue;
  }

  lemma StartOwn(s: Sorting, t: nat)
    requires Enabled(s.sys, Start(t))
    ensures var jobs := After(s.sys, Start(t)).jobs;
            && WaitingOnes(jobs, s.segments) == WaitingOnes(s.sys.jobs, s.segments) - {Top(s.sys, t)}
            && (Top(s.sys, t) in WaitingOnes(s.sys.jobs, s.segments) <==> Top(s.sys, t) in s.segments)
            && LiveOnes(jobs, s.segments) == LiveOnes(s.sys.jobs, s.segments)
  {
  }

  lemma EnqueueOwn(s: Sorting, step: Step)
    requires Possible(s, Other(step)) && (step.Enqueue? || step.Create?) && Linked(s.sys.jobs, s.segments, s.master)
    ensures var sys := After(s.sys, step);
            && QueuedOnes(sys.queue, s.segments) == QueuedOnes(s.sys.queue, s.segments)
            && WaitingOnes(sys.jobs, s.segments) == WaitingOnes(s.sys.jobs, s.segments)
            && LiveOnes(sys.jobs, s.segments) == LiveOnes(s.sys.jobs, s.segments)
  {
  }

  lemma OneLess(s: set<JobId>, j: JobId)
    ensures |s - {j}| == |s| - if j in s then 1 else 0
  {
    if j !in s {
      assert s - {j} == s;
    }
  }

  // A step of own work uses up some, and only a split adds some.
  lemma OwnStep(s: Sorting, action: Action, items: multiset<Item>)
    requires SortInv(s, items) && Possible(s, action)
    ensures var s' := Act(s, action);
            (if IsOwnWork(s, action) then 1 else 0) + Own(s') + 3 * s.splits <= Own(s) + 3 * s'.splits
  {
    hide Inv, Good, Linked, QueuedOnes, WaitingOnes, LiveOnes, Rearranged, SplitAt;
    match action
    case Rearrange(t, after) =>
    case Split(t, p, child) => SplitOwn(s, t, p, child, items);
    case Settle(t) =>
      FinishOwn(s, t);
      OwnSettled(s, t);
    case Other(step) => OtherOwn(s, step, items);
  }

  lemma OwnSettled(s: Sorting, t: nat)
    requires InBody(s, t) && Unfinished(s.sys.jobs, Top(s.sys, t)) == 1
    ensures |LiveOnes(s.sys.jobs, s.segments) - {Top(s.sys, t)}| == |LiveOnes(s.sys.jobs, s.segments)| - 1
  {
    OneLess(LiveOnes(s.sys.jobs, s.segments), Top(s.sys, t));
  }

  lemma OtherOwn(s: Sorting, step: Step, items: multiset<Item>)
    requires SortInv(s, items) && Possible(s, Other(step))
    ensures (if IsOwnWork(s, Other(step)) then 1 else 0) + Own(Act(s, Other(step))) <= Own(s)
  {
    hide Inv, Good, Linked, QueuedOnes, WaitingOnes, LiveOnes;
    match step
    case Create(j) => EnqueueOwn(s, step);
    case Enqueue(t, j, parent) => EnqueueOwn(s, step);
    case Take(t) =>
      TakeOwn(s, t);
      OneLess(QueuedOnes(s.sys.queue, s.segments), s.sys.queue[0]);
    case Start(t) =>
      StartOwn(s, t);
      OneLess(WaitingOnes(s.sys.jobs, s.segments), Top(s.sys, t));
    case Finish(t) =>
      FinishOwn(s, t);
      OneLess(LiveOnes(s.sys.jobs, s.segments), Top(s.sys, t));
  }

  ghost function OwnWork(s: Sorting, actions: seq<Action>): nat
    decreases |actions|
  {
    if actions == [] || !Possible(s, actions[0]) then 0
    else (if IsOwnWork(s, actions[0]) then 1 else 0) + OwnWork(Act(s, actions[0]), actions[1..])
  }

  lemma {:induction false} RunOwnWork(s: Sorting, actions: seq<Action>, s': Sorting, items: multiset<Item>)
    requires SortInv(s, items) && Runs(s, actions, s')
    ensures OwnWork(s, actions) + Own(s') + 3 * s.splits <= Own(s) + 3 * s'.splits
    decreases |actions|
  {
    hide SortInv, Own, Act, Possible, IsOwnWork;
    if actions != [] {
      ActKeepsInv(s, actions[0], items);
      OwnStep(s, actions[0], items);
      RunOwnWork(Act(s, actions[0]), actions[1..], s', items);
    }
  }

  /** A sort of n items takes, starts and finishes jobs in at most 3 * (n + 1) steps. */
  lemma FewSteps(s: Sorting, actions: seq<Action>, s': Sorting)
    requires Begins(s) && Runs(s, actions, s')
    ensures OwnWork(s, actions) <= 3 * (|s.a| + 1)
  {
    BeginsInv(s);
    RunOwnWork(s, actions, s', multiset(s.a));
    FewJobs(s, actions, s');
    SubsetSize(QueuedOnes(s.sys.queue, s.segments), {s.master});
    SubsetSize(WaitingOnes(s.sys.jobs, s.segments), {s.master});
    SubsetSize(LiveOnes(s.sys.jobs, s.segments), {s.master});
  }

  /** A split leaves the items before the pivot to the child and goes on with those behind it. */
  lemma SplitShares(s: Sorting, t: nat, p: nat, child: JobId)
    requires Inv(s.sys) && Possible(s, Split(t, p, child))
    ensures var s' := Act(s, Split(t, p, child));
            && s'.a == s.a && s'.segments.Keys == s.segments.Keys + {child}
            && s'.segments[child] == Segment(Of(s, t).lo, p)
            && s'.segments[Top(s.sys, t)] == Segment(p + 1, Of(s, t).hi)
            && s'.sys.jobs.Keys == s.sys.jobs.Keys + {child} && Active(s'.sys.jobs, child)
            && s'.sys.jobs[child].parent == Some(Top(s.sys, t))
  {
    hide Inv;
    ChildCanBeEnqueued(s, t, child);
  }

  /** Other users of the pool, and workers outside bodies of the sort, can go on, and do not touch the array. */
  lemma OthersGoOn(s: Sorting, step: Step)
    requires Enabled(s.sys, step)
    requires step.Enqueue? ==>
      step.j !in s.segments && (s.sys.stacks[step.t] == [] || Top(s.sys, step.t) !in s.segments)
    requires step.Finish? ==> Top(s.sys, step.t) !in s.segments
    ensures Possible(s, Other(step)) && Act(s, Other(step)).a == s.a && Act(s, Other(step)).segments == s.segments
  {
  }

  // ---------- The sort as a run of the job system

  // What an action does to the jobs: a split creates the child and enqueues it, and a body that is done returns.
  function StepsOf(s: Sorting, action: Action): seq<Step> {
    match action
    case Rearrange(_, _) => []
    case Split(t, _, child) => if InBody(s, t) then [Create(child), ChildStep(s, t, child)] else []
    case Settle(t) => [Finish(t)]
    case Other(step) => [step]
  }

  ghost function AllSteps(s: Sorting, actions: seq<Action>): seq<Step>
    decreases |actions|
  {
    if actions == [] || !Possible(s, actions[0]) then []
    else StepsOf(s, actions[0]) + AllSteps(Act(s, actions[0]), actions[1..])
  }

  lemma {:induction false} RunsConcat(s: System, first: seq<Step>, mid: System, second: seq<Step>, s': System)
    requires JobSystem.Runs(s, first, mid) && JobSystem.Runs(mid, second, s')
    ensures JobSystem.Runs(s, first + second, s')
    decreases |first|
  {
    hide After;
    if first == [] {
      assert [] + second == second;
    } else {
      RunsConcat(After(s, first[0]), first[1..], mid, second, s');
      assert (first + second)[1..] == first[1..] + second;
    }
  }

  lemma ActionRuns(s: Sorting, action: Action)
    requires Possible(s, action)
    ensures JobSystem.Runs(s.sys, StepsOf(s, action), Act(s, action).sys)
  {
    hide Next;
    match action
    case Rearrange(_, _) => {}
    case Split(t, p, child) =>
      ChildCanBeEnqueued(s, t, child);
      var create, enqueue := Create(child), ChildStep(s, t, child);
      assert [enqueue][1..] == [] && [create][1..] == [];
      assert JobSystem.Runs(After(s.sys, create), [enqueue], Act(s, action).sys);
      assert JobSystem.Runs(s.sys, [create], After(s.sys, create));
      RunsConcat(s.sys, [create], After(s.sys, create), [enqueue], Act(s, action).sys);
      assert [create] + [enqueue] == StepsOf(s, action);
    case Settle(t) => assert [Finish(t)][1..] == [];
    case Other(step) => assert [step][1..] == [];
  }

  /** Whatever a sort does is a run of the job system, and so keeps all that holds of its runs. */
  lemma {:induction false} SortRunsJobs(s: Sorting, actions: seq<Action>, s': Sorting)
    requires Runs(s, actions, s')
    ensures JobSystem.Runs(s.sys, AllSteps(s, actions), s'.sys)
    decreases |actions|
  {
    hide Possible, Act, StepsOf;
    if actions != [] {
      var s1 := Act(s, actions[0]);
      ActionRuns(s, actions[0]);
      SortRunsJobs(s1, actions[1..], s');
      RunsConcat(s.sys, StepsOf(s, actions[0]), s1.sys, AllSteps(s1, actions[1..]), s'.sys);
    }
  }

  // ---------- A body always finds something to do

  lemma {:induction false} FreshId(ids: set<JobId>) returns (id: JobId)
    ensures forall j :: j in ids ==> j < id
  {
    id := 0;
    if k :| k in ids {
      var other := FreshId(ids - {k});
      id := if k < other then other else k + 1;
      forall j | j in ids ensures j < id {
        assert j == k || j in ids - {k};
      }
    }
  }

  lemma LiveIsBounded(live: Segments, a: seq<Item>, j: JobId)
    requires Good(live, a) && j in live
    ensures live[j].lo <= live[j].hi <= |a|
  {
  }

  /** Whatever partition() makes of a segment that is not small can be split. */
  lemma PartitionThenSplit(s: Sorting, items: multiset<Item>, t: nat, after: seq<Item>, p: nat, child: JobId)
    requires SortInv(s, items) && InBody(s, t) && child !in s.sys.jobs && |after| == |s.a|
    requires var g := Of(s, t); g.lo <= p < g.hi <= |after| && g.hi - g.lo >= s.minSize
    requires var g := Of(s, t); Rearranged(after, s.a, g.lo, g.hi) && SplitAt(after, g.lo, p, g.hi)
    ensures Possible(s, Rearrange(t, after)) && Possible(Act(s, Rearrange(t, after)), Split(t, p, child))
  {
    hide Inv, Good, Linked, Live, Covered, Rearranged, SplitAt;
  }

  /** Whatever std::sort() makes of a small segment lets the body return. */
  lemma SortThenSettle(s: Sorting, items: multiset<Item>, t: nat, after: seq<Item>)
    requires SortInv(s, items) && InBody(s, t) && |after| == |s.a|
    requires var g := Of(s, t); g.lo <= g.hi <= |after| && g.hi - g.lo < s.minSize
    requires var g := Of(s, t); Rearranged(after, s.a, g.lo, g.hi) && SortedBetween(after, g.lo, g.hi)
    ensures Possible(s, Rearrange(t, after)) && Possible(Act(s, Rearrange(t, after)), Settle(t))
  {
    hide Inv, Good, Linked, Live, Covered, Rearranged;
  }

  /** A body is never stuck: it partitions and can split, or it sorts and can return. */
  method NeverStuck(ghost s: Sorting, ghost items: multiset<Item>, ghost t: nat, a: array<Item>, lo: nat, hi: nat,
      minSize: nat)
    returns (ghost action: Action)
    requires SortInv(s, items) && InBody(s, t) && Of(s, t) == Segment(lo, hi)
    requires a[..] == s.a && minSize == s.minSize >= 1
    modifies a
    ensures Possible(s, Rearrange(t, a[..])) && Possible(Act(s, Rearrange(t, a[..])), action)
    ensures if hi - lo >= minSize then action.Split? && action.t == t else action == Settle(t)
  {
    hide Inv, Good, Linked, Live, Covered, Rearranged, SplitAt, Possible;
    BodyIsLive(s, t);
    LiveIsBounded(Live(s.sys.jobs, s.segments), s.a, Top(s.sys, t));
    if hi - lo >= minSize {
      var p := Partition(a, lo, hi);
      ghost var child := FreshId(s.sys.jobs.Keys);
      PartitionThenSplit(s, items, t, a[..], p, child);
      action := Split(t, p, child);
    } else {
      StdSort(a, lo, hi);
      SortThenSettle(s, items, t, a[..]);
      action := Settle(t);
    }
  }

  // Any segment can be put in order in place.
  lemma CanBeSorted(a: seq<Item>, lo: nat, hi: nat) returns (after: seq<Item>)
    requires lo <= hi <= |a|
    ensures |after| == |a| && Rearranged(after, a, lo, hi) && SortedBetween(after, lo, hi)
    ensures lo < hi ==> SplitAt(after, lo, lo, hi)
  {
    var r := StdSorted(a[lo..hi]);
    StdSortedSorts(a[lo..hi]);
    assert |multiset(r)| == |multiset(a[lo..hi])|;
    after := a[..lo] + r + a[hi..];
    SortedCopy(after, a, r, lo, hi);
  }

  /**
   * No deadlock: while a sort is going on, some thread can take, start or finish a job, or a body of the sort can move
   * its items so that it can split its segment or return. What partition() and std::sort() do is such a move.
   */
  lemma SortProgress(s: Sorting, items: multiset<Item>) returns (action: Action, next: Action)
    requires SortInv(s, items) && Active(s.sys.jobs, s.master) && s.sys.workers >= 1 && s.minSize >= 1
    ensures Possible(s, action)
    ensures
      || (action.Other? && IsWork(action.step))
      || (action.Rearrange? && Possible(Act(s, action), next)
        && (next == Settle(action.t) || (next.Split? && next.t == action.t)))
  {
    hide Inv, Good, Linked, Live, Covered, Rearranged, SplitAt, Active;
    var step := Progress(s.sys, s.master);
    action, next := Other(step), Other(step);
    if step.Finish? && Top(s.sys, step.t) in s.segments {
      var t := step.t;
      BodyIsLive(s, t);
      LiveIsBounded(Live(s.sys.jobs, s.segments), s.a, Top(s.sys, t));
      var g := Of(s, t);
      var after := CanBeSorted(s.a, g.lo, g.hi);
      action := Rearrange(t, after);
      if g.hi - g.lo >= s.minSize {
        var child := FreshId(s.sys.jobs.Keys);
        PartitionThenSplit(s, items, t, after, g.lo, child);
        next := Split(t, g.lo, child);
      } else {
        SortThenSettle(s, items, t, after);
        next := Settle(t);
      }
    }
  }
}
