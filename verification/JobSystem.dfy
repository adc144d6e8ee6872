/** The job protocol of tpie/job.cpp as atomic steps of any number of threads. */
module JobSystem {
  import opened Options
  import opened Order

  type JobId = nat

  datatype JobState = Idle | Enqueued | Running

  // A job. Beside the fields of the source, `unfinished` says that the body of the current
  // activation has not returned, `born` numbers the activation, and the last three count how
  // often the job was enqueued, had its body started, and returned to idle.
  datatype Job = Job(state: JobState, dependencies: int, parent: Option<JobId>,
                     unfinished: bool, born: nat, enqueueCount: nat, startCount: nat, doneCount: nat)

  type Jobs = map<JobId, Job>

  // The jobs, the bounded queue, and for each thread the jobs it is running, innermost last.
  // Threads 0..workers - 1 are the pool; the others are clients.
  datatype System = System(jobs: Jobs, queue: seq<JobId>, capacity: nat,
    stacks: seq<seq<JobId>>, workers: nat, clock: nat)

  datatype Step =
    | Create(j: JobId)
    | Enqueue(t: nat, j: JobId, parent: Option<JobId>)
    | Take(t: nat)
    | Start(t: nat)
    | Finish(t: nat)

  datatype Result = Ok(jobs: Jobs) | BadJobState

  predicate Active(jobs: Jobs, j: JobId) {
    j in jobs && jobs[j].state != Idle
  }

  // A parent of an active job was activated before it.
  ghost predicate Older(jobs: Jobs) {
    forall j :: Active(jobs, j) && jobs[j].parent.Some? ==>
      jobs[j].parent.value in jobs && jobs[jobs[j].parent.value].born < jobs[j].born
  }

  /** job::done: one dependency less, and on the last one the job is idle and its parent is told. */
  function Done(jobs: Jobs, j: JobId): Result
    requires j in jobs && Older(jobs)
    decreases jobs[j].born
  {
    var job := jobs[j];
    if job.state != Running then BadJobState
    else if job.dependencies - 1 != 0 then Ok(jobs[j := job.(dependencies := job.dependencies - 1)])
    else
      var jobs' := jobs[j := job.(dependencies := 0, state := Idle, doneCount := job.doneCount + 1)];
      if job.parent.Some? then Done(jobs', job.parent.value) else Ok(jobs')
  }

  // ---------- What holds of the jobs in every reachable state

  ghost function Children(jobs: Jobs, j: JobId): set<JobId> {
    set c | c in jobs && jobs[c].state != Idle && jobs[c].parent == Some(j)
  }

  function Unfinished(jobs: Jobs, j: JobId): int {
    if j in jobs && jobs[j].unfinished then 1 else 0
  }

  // `owed` is a job whose done() is about to be called, if any.
  ghost predicate Counts(jobs: Jobs, j: JobId, owed: Option<JobId>)
    requires j in jobs
  {
    && jobs[j].dependencies == |Children(jobs, j)| + Unfinished(jobs, j) + (if owed == Some(j) then 1 else 0)
    && (jobs[j].state == Idle <==> jobs[j].dependencies == 0)
    && (jobs[j].state == Enqueued ==> jobs[j].unfinished && Children(jobs, j) == {})
    && jobs[j].startCount == jobs[j].enqueueCount - (if jobs[j].state == Enqueued then 1 else 0)
    && jobs[j].doneCount == jobs[j].enqueueCount - (if jobs[j].state != Idle then 1 else 0)
  }

  ghost predicate JobsInv(jobs: Jobs, owed: Option<JobId>) {
    Older(jobs) && forall j :: j in jobs ==> Counts(jobs, j, owed)
  }

  // done() never raises, leaves every count right, and only ever turns running jobs idle.
  ghost predicate DoneChanges(before: Jobs, after: Jobs) {
    && after.Keys == before.Keys
    && forall j :: j in before ==>
      && after[j].unfinished == before[j].unfinished && after[j].parent == before[j].parent
      && after[j].born == before[j].born && after[j].enqueueCount == before[j].enqueueCount
      && after[j].startCount == before[j].startCount
      && (after[j].state == before[j].state
        || (before[j].state == Running && after[j].state == Idle && !after[j].unfinished))
  }

  lemma ChildrenSame(jobs: Jobs, j: JobId, job: Job, p: JobId)
    requires j in jobs && (job.state == Idle <==> jobs[j].state == Idle) && job.parent == jobs[j].parent
    ensures Children(jobs[j := job], p) == Children(jobs, p)
  {
  }

  lemma ChildrenLess(jobs: Jobs, j: JobId, job: Job, p: JobId)
    requires Active(jobs, j) && job.state == Idle
    ensures |Children(jobs[j := job], p)| == |Children(jobs, p)| - (if jobs[j].parent == Some(p) then 1 else 0)
    ensures Children(jobs[j := job], p) <= Children(jobs, p)
  {
    var before, after := Children(jobs, p), Children(jobs[j := job], p);
    if jobs[j].parent == Some(p) {
      assert j in before && after == before - {j};
    } else {
      assert after == before;
    }
  }

  lemma DoneChangesCompose(a: Jobs, b: Jobs, c: Jobs)
    requires DoneChanges(a, b) && DoneChanges(b, c)
    ensures DoneChanges(a, c)
  {
  }

  /** The cascade of done() terminates, never meets a bad state, and leaves every count right. */
  lemma {:induction false} DoneKeepsCounts(jobs: Jobs, j: JobId)
    requires j in jobs && jobs[j].state == Running && Older(jobs) && JobsInv(jobs, Some(j))
    ensures Done(jobs, j).Ok?
    ensures JobsInv(Done(jobs, j).jobs, None) && DoneChanges(jobs, Done(jobs, j).jobs)
    decreases jobs[j].born
  {
    hide JobsInv, DoneChanges, Older;
    if jobs[j].dependencies - 1 != 0 {
      DecrementKeepsCounts(jobs, j);
    } else {
      var jobs' := jobs[j := jobs[j].(dependencies := 0, state := Idle, doneCount := jobs[j].doneCount + 1)];
      ReturnKeepsCounts(jobs, j);
      if jobs[j].parent.Some? {
        DoneKeepsCounts(jobs', jobs[j].parent.value);
        DoneChangesCompose(jobs, jobs', Done(jobs', jobs[j].parent.value).jobs);
      }
    }
  }

  lemma DecrementKeepsCounts(jobs: Jobs, j: JobId)
    requires j in jobs && jobs[j].state == Running && JobsInv(jobs, Some(j)) && jobs[j].dependencies != 1
    ensures var jobs' := jobs[j := jobs[j].(dependencies := jobs[j].dependencies - 1)];
            JobsInv(jobs', None) && DoneChanges(jobs, jobs')
  {
    assert Counts(jobs, j, Some(j));
    var jobs' := jobs[j := jobs[j].(dependencies := jobs[j].dependencies - 1)];
    forall k | k in jobs' ensures Counts(jobs', k, None) {
      assert Counts(jobs, k, Some(j));
      ChildrenSame(jobs, j, jobs'[j], k);
    }
  }

  lemma ReturnKeepsCounts(jobs: Jobs, j: JobId)
    requires j in jobs && jobs[j].state == Running && JobsInv(jobs, Some(j)) && jobs[j].dependencies == 1
    ensures !jobs[j].unfinished
    ensures var jobs' := jobs[j := jobs[j].(dependencies := 0, state := Idle, doneCount := jobs[j].doneCount + 1)];
            && JobsInv(jobs', jobs[j].parent) && Older(jobs') && DoneChanges(jobs, jobs')
            && (jobs[j].parent.Some? ==>
                  jobs[j].parent.value in jobs && jobs[jobs[j].parent.value].born < jobs[j].born
                    && jobs'[jobs[j].parent.value].state == Running)
  {
    var jobs' := jobs[j := jobs[j].(dependencies := 0, state := Idle, doneCount := jobs[j].doneCount + 1)];
    assert Counts(jobs, j, Some(j));
    assert Active(jobs, j);
    forall k | k in jobs' ensures Counts(jobs', k, jobs[j].parent) {
      assert Counts(jobs, k, Some(j));
      ChildrenLess(jobs, j, jobs'[j], k);
      if k == j {
        assert Children(jobs, j) == {};
      }
    }
    if jobs[j].parent.Some? {
      assert j in Children(jobs, jobs[j].parent.value);
      assert Counts(jobs, jobs[j].parent.value, Some(j));
    }
  }

  // ---------- The steps

  // The job whose body a thread is executing: the innermost one it runs.
  function Top(s: System, t: nat): JobId
    requires t < |s.stacks| && s.stacks[t] != []
  {
    s.stacks[t][|s.stacks[t]| - 1]
  }

  predicate InState(jobs: Jobs, j: JobId, state: JobState) {
    j in jobs && jobs[j].state == state
  }

  // A thread can call into the job system from the body it executes, or as a client from outside.
  predicate CanCall(s: System, t: nat) {
    && t < |s.stacks|
    && (if s.stacks[t] == [] then t >= s.workers else InState(s.jobs, Top(s, t), Running))
  }

  // Children are enqueued only from the running body of their parent.
  predicate Enabled(s: System, step: Step) {
    match step
    case Create(j) => j !in s.jobs
    case Enqueue(t, j, parent) =>
      && CanCall(s, t) && j in s.jobs
      && (parent.Some? ==> s.stacks[t] != [] && parent.value == Top(s, t))
    case Take(t) => t < s.workers && t < |s.stacks| && s.stacks[t] == [] && s.queue != []
    case Start(t) => t < |s.stacks| && s.stacks[t] != [] && InState(s.jobs, Top(s, t), Enqueued)
    case Finish(t) => t < |s.stacks| && s.stacks[t] != [] && InState(s.jobs, Top(s, t), Running)
  }

  // job::enqueue on the jobs: the new activation, and one dependency more for the parent.
  function Activate(jobs: Jobs, j: JobId, parent: Option<JobId>, clock: nat): Jobs
    requires InState(jobs, j, Idle) && (parent.Some? ==> parent.value in jobs && parent.value != j)
  {
    var jobs' := jobs[j := jobs[j].(state := Enqueued, dependencies := 1, parent := parent, unfinished := true,
                                    born := clock, enqueueCount := jobs[j].enqueueCount + 1)];
    if parent.Some? then
      var p := parent.value;
      jobs'[p := jobs[p].(dependencies := jobs[p].dependencies + 1)]
    else jobs'
  }

  function Pop(s: System, t: nat): seq<seq<JobId>>
    requires t < |s.stacks| && s.stacks[t] != []
  {
    s.stacks[t := s.stacks[t][..|s.stacks[t]| - 1]]
  }

  /** The state after a step, and None if the step raises "Bad job state". */
  ghost function Next(s: System, step: Step): Option<System>
    requires Enabled(s, step)
  {
    match step
    case Create(j) => Some(s.(jobs := s.jobs[j := Job(Idle, 0, None, false, 0, 0, 0, 0)]))
    case Enqueue(t, j, parent) =>
      if !InState(s.jobs, j, Idle) then None
      else
        var s' := s.(jobs := Activate(s.jobs, j, parent, s.clock), clock := s.clock + 1);
        if |s.queue| == s.capacity then Some(s'.(stacks := s.stacks[t := s.stacks[t] + [j]]))
        else Some(s'.(queue := s.queue + [j]))
    case Take(t) => Some(s.(queue := s.queue[1..], stacks := s.stacks[t := [s.queue[0]]]))
    case Start(t) =>
      var job := s.jobs[Top(s, t)];
      Some(s.(jobs := s.jobs[Top(s, t) := job.(state := Running, startCount := job.startCount + 1)]))
    case Finish(t) =>
      var jobs := Returned(s.jobs, Top(s, t));
      if !Older(jobs) then None
      else
        match Done(jobs, Top(s, t))
        case Ok(jobs') => Some(s.(jobs := jobs', stacks := Pop(s, t)))
        case BadJobState => None
  }

  // The body of j has returned, and done() is about to be called.
  function Returned(jobs: Jobs, j: JobId): Jobs
    requires j in jobs
  {
    jobs[j := jobs[j].(unfinished := false)]
  }

  // Where the unfinished bodies are: in the queue or on a stack.
  ghost function Places(queue: seq<JobId>, stacks: seq<seq<JobId>>): multiset<JobId> {
    multiset(queue) + AllItems(stacks)
  }

  // An unfinished body is in exactly one place.
  ghost predicate Placed(jobs: Jobs, queue: seq<JobId>, stacks: seq<seq<JobId>>) {
    forall j :: Places(queue, stacks)[j] == Unfinished(jobs, j)
  }

  ghost predicate StackStates(jobs: Jobs, stack: seq<JobId>) {
    forall i :: 0 <= i < |stack| ==>
      Active(jobs, stack[i]) && (i < |stack| - 1 ==> jobs[stack[i]].state == Running)
  }

  ghost predicate AllStackStates(jobs: Jobs, stacks: seq<seq<JobId>>) {
    forall t :: 0 <= t < |stacks| ==> StackStates(jobs, stacks[t])
  }

  ghost predicate QueueStates(jobs: Jobs, queue: seq<JobId>) {
    forall i :: 0 <= i < |queue| ==> InState(jobs, queue[i], Enqueued)
  }

  ghost predicate BornBefore(jobs: Jobs, clock: nat) {
    forall j :: Active(jobs, j) ==> jobs[j].born < clock
  }

  ghost predicate Inv(s: System) {
    && JobsInv(s.jobs, None) && BornBefore(s.jobs, s.clock)
    && |s.queue| <= s.capacity && s.workers <= |s.stacks|
    && Placed(s.jobs, s.queue, s.stacks)
    && QueueStates(s.jobs, s.queue) && AllStackStates(s.jobs, s.stacks)
  }

  lemma BodyReturned(jobs: Jobs, j: JobId)
    requires j in jobs && jobs[j].state == Running && JobsInv(jobs, None)
    ensures Older(Returned(jobs, j))
    ensures jobs[j].unfinished ==> JobsInv(Returned(jobs, j), Some(j))
  {
    var jobs' := Returned(jobs, j);
    forall k | k in jobs' && jobs[j].unfinished ensures Counts(jobs', k, Some(j)) {
      assert Counts(jobs, k, None);
      ChildrenSame(jobs, j, jobs'[j], k);
    }
  }

  lemma ChildrenMore(jobs: Jobs, j: JobId, job: Job, p: JobId)
    requires InState(jobs, j, Idle) && job.state != Idle
    ensures |Children(jobs[j := job], p)| == |Children(jobs, p)| + (if job.parent == Some(p) then 1 else 0)
    ensures job.parent != Some(p) ==> Children(jobs[j := job], p) == Children(jobs, p)
  {
    var before, after := Children(jobs, p), Children(jobs[j := job], p);
    if job.parent == Some(p) {
      assert after == before + {j} && j !in before;
    } else {
      assert after == before;
    }
  }

  lemma ActivateKeepsCounts(jobs: Jobs, j: JobId, parent: Option<JobId>, clock: nat)
    requires JobsInv(jobs, None) && InState(jobs, j, Idle)
    requires BornBefore(jobs, clock)
    requires parent.Some? ==> InState(jobs, parent.value, Running)
    ensures JobsInv(Activate(jobs, j, parent, clock), None)
  {
    var jobs1 := jobs[j := jobs[j].(state := Enqueued, dependencies := 1, parent := parent, unfinished := true,
                                    born := clock, enqueueCount := jobs[j].enqueueCount + 1)];
    var jobs2 := Activate(jobs, j, parent, clock);
    assert Counts(jobs, j, None);
    forall k: JobId | Active(jobs2, k) && jobs2[k].parent.Some?
      ensures jobs2[k].parent.value in jobs2 && jobs2[jobs2[k].parent.value].born < jobs2[k].born
    {
      if k != j {
        assert Active(jobs, k);
        assert k in Children(jobs, jobs[k].parent.value);
      }
    }
    forall k | k in jobs2 ensures Counts(jobs2, k, None) {
      assert Counts(jobs, k, None);
      ChildrenMore(jobs, j, jobs1[j], k);
      if parent.Some? {
        ChildrenSame(jobs1, parent.value, jobs2[parent.value], k);
      }
      if k == j {
        assert Children(jobs, j) == {};
      }
    }
  }

  // ---------- Where the unfinished bodies are

  lemma PlacesPush(queue: seq<JobId>, stacks: seq<seq<JobId>>, t: nat, j: JobId)
    requires t < |stacks|
    ensures Places(queue, stacks[t := stacks[t] + [j]]) == Places(queue, stacks) + multiset{j}
  {
    var stack := stacks[t] + [j];
    AllItemsUpdate(stacks, t, stack);
    SameCounts(AllItems(stacks[t := stack]), multiset(stacks[t]), AllItems(stacks), multiset{j});
  }

  lemma SameCounts(a: multiset<JobId>, b: multiset<JobId>, c: multiset<JobId>, d: multiset<JobId>)
    requires a + b == c + (b + d)
    ensures a == c + d
  {
    forall k ensures a[k] == (c + d)[k] {
      assert (a + b)[k] == (c + (b + d))[k];
    }
  }

  lemma PlacesPop(queue: seq<JobId>, stacks: seq<seq<JobId>>, t: nat)
    requires t < |stacks| && stacks[t] != []
    ensures var n := |stacks[t]| - 1;
            Places(queue, stacks[t := stacks[t][..n]]) + multiset{stacks[t][n]} == Places(queue, stacks)
  {
    var n := |stacks[t]| - 1;
    assert stacks[t] == stacks[t][..n] + [stacks[t][n]];
    AllItemsUpdate(stacks[t := stacks[t][..n]], t, stacks[t]);
    assert stacks[t := stacks[t][..n]][t := stacks[t]] == stacks;
    SameCounts(AllItems(stacks), multiset(stacks[t][..n]), AllItems(stacks[t := stacks[t][..n]]),
        multiset{stacks[t][n]});
  }

  lemma PlacesTake(queue: seq<JobId>, stacks: seq<seq<JobId>>, t: nat)
    requires t < |stacks| && stacks[t] == [] && queue != []
    ensures Places(queue[1..], stacks[t := [queue[0]]]) == Places(queue, stacks)
  {
    var j, rest := queue[0], queue[1..];
    assert queue == [j] + rest;
    assert stacks[t] + [j] == [j];
    PlacesPush(rest, stacks, t, j);
  }

  lemma OnStack(stacks: seq<seq<JobId>>, t: nat, i: nat)
    requires t < |stacks| && i < |stacks[t]|
    ensures AllItems(stacks)[stacks[t][i]] >= 1
  {
    AllItemsUpdate(stacks, t, []);
    var j := stacks[t][i];
    assert j in multiset(stacks[t]);
    assert (AllItems(stacks[t := []]) + multiset(stacks[t]))[j] == AllItems(stacks)[j];
  }

  // A body on a stack is unfinished and is not in the queue.
  lemma StackedIsUnfinished(jobs: Jobs, queue: seq<JobId>, stacks: seq<seq<JobId>>, t: nat, i: nat)
    requires Placed(jobs, queue, stacks) && t < |stacks| && i < |stacks[t]|
    ensures stacks[t][i] in jobs && jobs[stacks[t][i]].unfinished && stacks[t][i] !in queue
  {
    OnStack(stacks, t, i);
    assert Places(queue, stacks)[stacks[t][i]] == Unfinished(jobs, stacks[t][i]);
    assert forall j :: j in queue ==> j in multiset(queue);
  }

  // The innermost body of a thread is nowhere else.
  lemma TopOnce(jobs: Jobs, queue: seq<JobId>, stacks: seq<seq<JobId>>, t: nat, u: nat, i: nat)
    requires Placed(jobs, queue, stacks) && t < |stacks| && stacks[t] != []
    requires var rest := stacks[t := stacks[t][..|stacks[t]| - 1]]; u < |rest| && i < |rest[u]|
    ensures var n := |stacks[t]| - 1; stacks[t := stacks[t][..n]][u][i] != stacks[t][n]
  {
    var n := |stacks[t]| - 1;
    var j, rest := stacks[t][n], stacks[t := stacks[t][..n]];
    PlacesPop(queue, stacks, t);
    OnStack(rest, u, i);
    assert Places(queue, stacks)[j] == Unfinished(jobs, j);
  }

  // ---------- Every step keeps the invariant

  // Active jobs stay active, and running ones running.
  ghost predicate KeepsActive(before: Jobs, after: Jobs) {
    forall j :: Active(before, j) ==> Active(after, j) && (before[j].state == Running ==> after[j].state == Running)
  }

  lemma KeepsStacks(before: Jobs, after: Jobs, stacks: seq<seq<JobId>>)
    requires KeepsActive(before, after) && AllStackStates(before, stacks)
    ensures AllStackStates(after, stacks)
  {
    forall u | 0 <= u < |stacks| ensures StackStates(after, stacks[u]) {
      assert StackStates(before, stacks[u]);
    }
  }

  lemma ActivateOthers(jobs: Jobs, j: JobId, parent: Option<JobId>, clock: nat)
    requires InState(jobs, j, Idle) && (parent.Some? ==> InState(jobs, parent.value, Running))
    requires BornBefore(jobs, clock) && JobsInv(jobs, None)
    ensures var jobs' := Activate(jobs, j, parent, clock);
            && KeepsActive(jobs, jobs') && BornBefore(jobs', clock + 1) && InState(jobs', j, Enqueued)
            && !jobs[j].unfinished
            && (forall k :: Unfinished(jobs', k) == Unfinished(jobs, k) + (if k == j then 1 else 0))
            && (forall k :: InState(jobs, k, Enqueued) ==> InState(jobs', k, Enqueued))
  {
    assert Counts(jobs, j, None);
  }

  // Wherever the new job is put, the unfinished bodies are in their places.
  lemma EnqueuePlaces(jobs: Jobs, jobs': Jobs, queue: seq<JobId>, stacks: seq<seq<JobId>>, t: nat, j: JobId)
    requires Placed(jobs, queue, stacks) && t < |stacks|
    requires forall k :: Unfinished(jobs', k) == Unfinished(jobs, k) + (if k == j then 1 else 0)
    ensures Placed(jobs', queue + [j], stacks) && Placed(jobs', queue, stacks[t := stacks[t] + [j]])
  {
    hide Places, Unfinished;
    PlacesPush(queue, stacks, t, j);
    PlacesQueue(queue, stacks, j);
    assert forall k :: Places(queue, stacks)[k] == Unfinished(jobs, k);
  }

  lemma PlacesQueue(queue: seq<JobId>, stacks: seq<seq<JobId>>, j: JobId)
    ensures Places(queue + [j], stacks) == Places(queue, stacks) + multiset{j}
  {
  }

  lemma KeepsQueue(jobs: Jobs, jobs': Jobs, queue: seq<JobId>, j: JobId)
    requires QueueStates(jobs, queue) && InState(jobs', j, Enqueued)
    requires forall k :: InState(jobs, k, Enqueued) ==> InState(jobs', k, Enqueued)
    ensures QueueStates(jobs', queue + [j]) && QueueStates(jobs', queue)
  {
  }

  // A job run by the thread that enqueues it goes on top of a running one.
  lemma PushStacks(jobs: Jobs, stacks: seq<seq<JobId>>, t: nat, j: JobId)
    requires AllStackStates(jobs, stacks) && t < |stacks| && Active(jobs, j)
    requires stacks[t] != [] ==> InState(jobs, stacks[t][|stacks[t]| - 1], Running)
    ensures AllStackStates(jobs, stacks[t := stacks[t] + [j]])
  {
    assert StackStates(jobs, stacks[t]);
  }

  lemma EnqueueKeepsInv(s: System, t: nat, j: JobId, parent: Option<JobId>)
    requires Inv(s) && Enabled(s, Enqueue(t, j, parent))
    ensures Next(s, Enqueue(t, j, parent)).Some? <==> InState(s.jobs, j, Idle)
    ensures InState(s.jobs, j, Idle) ==>
      var s' := Next(s, Enqueue(t, j, parent)).value;
      && Inv(s')
      && (if |s.queue| == s.capacity then s'.queue == s.queue && s'.stacks == s.stacks[t := s.stacks[t] + [j]]
          else s'.queue == s.queue + [j] && s'.stacks == s.stacks)
  {
    hide JobsInv, BornBefore, Placed, QueueStates, AllStackStates, KeepsActive;
    if !InState(s.jobs, j, Idle) {
      return;
    }
    var jobs' := Activate(s.jobs, j, parent, s.clock);
    ActivateKeepsCounts(s.jobs, j, parent, s.clock);
    ActivateOthers(s.jobs, j, parent, s.clock);
    EnqueuePlaces(s.jobs, jobs', s.queue, s.stacks, t, j);
    KeepsQueue(s.jobs, jobs', s.queue, j);
    KeepsStacks(s.jobs, jobs', s.stacks);
    if |s.queue| == s.capacity {
      if s.stacks[t] != [] {
        StaysRunning(s.jobs, jobs', Top(s, t));
      }
      PushStacks(jobs', s.stacks, t, j);
    }
  }

  lemma StaysRunning(before: Jobs, after: Jobs, j: JobId)
    requires KeepsActive(before, after) && InState(before, j, Running)
    ensures InState(after, j, Running)
  {
  }

  lemma TakeKeepsInv(s: System, t: nat)
    requires Inv(s) && Enabled(s, Take(t))
    ensures Inv(Next(s, Take(t)).value)
  {
    hide JobsInv, BornBefore, Places;
    PlacesTake(s.queue, s.stacks, t);
    assert InState(s.jobs, s.queue[0], Enqueued);
    var stacks' := s.stacks[t := [s.queue[0]]];
    forall u | 0 <= u < |stacks'| ensures StackStates(s.jobs, stacks'[u]) {
      assert StackStates(s.jobs, s.stacks[u]);
    }
  }

  lemma StartKeepsCounts(jobs: Jobs, j: JobId)
    requires JobsInv(jobs, None) && InState(jobs, j, Enqueued)
    ensures JobsInv(jobs[j := jobs[j].(state := Running, startCount := jobs[j].startCount + 1)], None)
  {
    var jobs' := jobs[j := jobs[j].(state := Running, startCount := jobs[j].startCount + 1)];
    assert Older(jobs');
    forall k | k in jobs' ensures Counts(jobs', k, None) {
      StartKeepsCount(jobs, j, k);
    }
  }

  lemma StartKeepsCount(jobs: Jobs, j: JobId, k: JobId)
    requires JobsInv(jobs, None) && InState(jobs, j, Enqueued) && k in jobs
    ensures Counts(jobs[j := jobs[j].(state := Running, startCount := jobs[j].startCount + 1)], k, None)
  {
    hide Older, Children;
    assert Counts(jobs, k, None);
    ChildrenSame(jobs, j, jobs[j].(state := Running, startCount := jobs[j].startCount + 1), k);
  }

  lemma StartKeepsInv(s: System, t: nat)
    requires Inv(s) && Enabled(s, Start(t))
    ensures Inv(Next(s, Start(t)).value)
  {
    hide JobsInv, AllStackStates, Places, StackStates;
    var j, s' := Top(s, t), Next(s, Start(t)).value;
    StackedIsUnfinished(s.jobs, s.queue, s.stacks, t, |s.stacks[t]| - 1);
    StartKeepsCounts(s.jobs, j);
    KeepsStacks(s.jobs, s'.jobs, s.stacks);
    forall k ensures Places(s.queue, s.stacks)[k] == Unfinished(s'.jobs, k) {
      assert Places(s.queue, s.stacks)[k] == Unfinished(s.jobs, k);
    }
  }

  ghost function FinishedJobs(s: System, t: nat): Jobs
    requires Enabled(s, Finish(t)) && Next(s, Finish(t)).Some?
  {
    Next(s, Finish(t)).value.jobs
  }

  lemma FinishNeverFails(s: System, t: nat)
    requires Inv(s) && Enabled(s, Finish(t))
    ensures var j := Top(s, t);
            && j in s.jobs && s.jobs[j].unfinished
            && Older(Returned(s.jobs, j)) && Done(Returned(s.jobs, j), j).Ok?
            && var jobs' := Done(Returned(s.jobs, j), j).jobs;
            && JobsInv(jobs', None) && DoneChanges(Returned(s.jobs, j), jobs')
            && Next(s, Finish(t)) == Some(s.(jobs := jobs', stacks := Pop(s, t)))
  {
    hide JobsInv, Older, DoneChanges, Done, Placed, QueueStates, AllStackStates, BornBefore;
    StackedIsUnfinished(s.jobs, s.queue, s.stacks, t, |s.stacks[t]| - 1);
    BodyReturned(s.jobs, Top(s, t));
    DoneKeepsCounts(Returned(s.jobs, Top(s, t)), Top(s, t));
  }

  lemma FinishPlaces(jobs: Jobs, jobs': Jobs, queue: seq<JobId>, stacks: seq<seq<JobId>>, t: nat)
    requires Placed(jobs, queue, stacks) && t < |stacks| && stacks[t] != []
    requires var j := stacks[t][|stacks[t]| - 1];
      j in jobs && jobs[j].unfinished && DoneChanges(Returned(jobs, j), jobs')
    ensures Placed(jobs', queue, stacks[t := stacks[t][..|stacks[t]| - 1]])
  {
    hide Places;
    PlacesPop(queue, stacks, t);
    forall k ensures Places(queue, stacks[t := stacks[t][..|stacks[t]| - 1]])[k] == Unfinished(jobs', k) {
      assert Places(queue, stacks)[k] == Unfinished(jobs, k);
    }
  }

  lemma FinishStack(jobs: Jobs, jobs': Jobs, queue: seq<JobId>, stacks: seq<seq<JobId>>, t: nat, u: nat)
    requires Placed(jobs, queue, stacks) && AllStackStates(jobs, stacks) && t < |stacks| && stacks[t] != []
      && u < |stacks|
    requires var j := stacks[t][|stacks[t]| - 1];
      j in jobs && jobs[j].unfinished && DoneChanges(Returned(jobs, j), jobs')
    ensures StackStates(jobs', stacks[t := stacks[t][..|stacks[t]| - 1]][u])
  {
    hide Places, Placed;
    var stack := stacks[t := stacks[t][..|stacks[t]| - 1]][u];
    assert StackStates(jobs, stacks[u]);
    forall i | 0 <= i < |stack|
      ensures Active(jobs', stack[i]) && (i < |stack| - 1 ==> jobs'[stack[i]].state == Running)
    {
      TopOnce(jobs, queue, stacks, t, u, i);
      StackedIsUnfinished(jobs, queue, stacks, u, i);
    }
  }

  lemma FinishQueue(jobs: Jobs, jobs': Jobs, queue: seq<JobId>, j: JobId)
    requires QueueStates(jobs, queue) && j in jobs && j !in queue && DoneChanges(Returned(jobs, j), jobs')
    ensures QueueStates(jobs', queue)
  {
    forall i | 0 <= i < |queue| ensures InState(jobs', queue[i], Enqueued) {
      assert InState(jobs, queue[i], Enqueued);
    }
  }

  lemma FinishKeepsInv(s: System, t: nat)
    requires Inv(s) && Enabled(s, Finish(t))
    ensures Next(s, Finish(t)).Some? && Inv(Next(s, Finish(t)).value)
  {
    hide JobsInv, DoneChanges, Done, Older, Placed, StackStates, QueueStates, Next;
    FinishNeverFails(s, t);
    var j, jobs' := Top(s, t), FinishedJobs(s, t);
    StackedIsUnfinished(s.jobs, s.queue, s.stacks, t, |s.stacks[t]| - 1);
    FinishPlaces(s.jobs, jobs', s.queue, s.stacks, t);
    FinishQueue(s.jobs, jobs', s.queue, j);
    DoneBornBefore(s.jobs, j, jobs', s.clock);
    forall u | 0 <= u < |s.stacks| ensures StackStates(jobs', Pop(s, t)[u]) {
      FinishStack(s.jobs, jobs', s.queue, s.stacks, t, u);
    }
  }

  lemma DoneBornBefore(jobs: Jobs, j: JobId, jobs': Jobs, clock: nat)
    requires j in jobs && DoneChanges(Returned(jobs, j), jobs') && BornBefore(jobs, clock)
    ensures BornBefore(jobs', clock)
  {
  }

  lemma CreateKeepsCounts(jobs: Jobs, j: JobId)
    requires JobsInv(jobs, None) && j !in jobs
    ensures JobsInv(jobs[j := Job(Idle, 0, None, false, 0, 0, 0, 0)], None)
  {
    var jobs' := jobs[j := Job(Idle, 0, None, false, 0, 0, 0, 0)];
    forall k | k in jobs' ensures Counts(jobs', k, None) {
      if k != j {
        assert Counts(jobs, k, None);
      }
      assert Children(jobs', k) == Children(jobs, k);
      if c :| c in Children(jobs, j) {
        assert Active(jobs, c);
      }
    }
  }

  lemma CreateKeepsInv(s: System, j: JobId)
    requires Inv(s) && Enabled(s, Create(j))
    ensures Inv(Next(s, Create(j)).value)
  {
    hide JobsInv, AllStackStates, Places, StackStates;
    var s' := Next(s, Create(j)).value;
    CreateKeepsCounts(s.jobs, j);
    KeepsStacks(s.jobs, s'.jobs, s.stacks);
    forall k ensures Places(s.queue, s.stacks)[k] == Unfinished(s'.jobs, k) {
      assert Places(s.queue, s.stacks)[k] == Unfinished(s.jobs, k);
    }
  }

  // A job that is not idle cannot be enqueued again.
  predicate Misuse(s: System, step: Step) {
    step.Enqueue? && !InState(s.jobs, step.j, Idle)
  }

  /** Every step of every thread keeps the invariant, and only enqueueing a job that is not idle raises. */
  lemma StepKeepsInv(s: System, step: Step)
    requires Inv(s) && Enabled(s, step)
    ensures Next(s, step).None? <==> Misuse(s, step)
    ensures !Misuse(s, step) ==> Inv(Next(s, step).value)
  {
    hide Inv;
    match step
    case Create(j) => CreateKeepsInv(s, j);
    case Enqueue(t, j, parent) => EnqueueKeepsInv(s, t, j, parent);
    case Take(t) => TakeKeepsInv(s, t);
    case Start(t) => StartKeepsInv(s, t);
    case Finish(t) => FinishKeepsInv(s, t);
  }

  // ---------- Runs

  ghost predicate Initial(s: System) {
    s.jobs == map[] && s.queue == [] && s.workers <= |s.stacks| && forall t :: 0 <= t < |s.stacks| ==> s.stacks[t] == []
  }

  // These steps lead from s to s'; what an exception leaves is the state before it.
  ghost predicate Runs(s: System, steps: seq<Step>, s': System)
    decreases |steps|
  {
    if steps == [] then s' == s
    else Enabled(s, steps[0]) && Runs(After(s, steps[0]), steps[1..], s')
  }

  ghost function After(s: System, step: Step): System
    requires Enabled(s, step)
  {
    match Next(s, step)
    case Some(s') => s'
    case None => s
  }

  lemma InitialInv(s: System)
    requires Initial(s)
    ensures Inv(s)
  {
    AllItemsEmpty(s.stacks);
  }

  lemma {:induction false} RunKeepsInv(s: System, steps: seq<Step>, s': System)
    requires Inv(s) && Runs(s, steps, s')
    ensures Inv(s')
    decreases |steps|
  {
    hide Inv, Next;
    if steps != [] {
      StepKeepsInv(s, steps[0]);
      RunKeepsInv(After(s, steps[0]), steps[1..], s');
    }
  }

  /** In every reachable state the counts of every job are right, and the other parts of the invariant hold. */
  lemma ReachableInv(s: System, steps: seq<Step>, s': System)
    requires Initial(s) && Runs(s, steps, s')
    ensures Inv(s')
    ensures forall j :: j in s'.jobs ==>
      s'.jobs[j].dependencies == |Children(s'.jobs, j)| + Unfinished(s'.jobs, j)
  {
    InitialInv(s);
    RunKeepsInv(s, steps, s');
    forall j | j in s'.jobs
      ensures s'.jobs[j].dependencies == |Children(s'.jobs, j)| + Unfinished(s'.jobs, j)
    {
      assert Counts(s'.jobs, j, None);
    }
  }

  // ---------- Joining

  // The parents of k, as they are now, lead to j.
  ghost predicate Under(jobs: Jobs, k: JobId, j: JobId)
    requires Older(jobs)
    decreases if k in jobs then jobs[k].born else 0
  {
    Active(jobs, k) && (k == j || (jobs[k].parent.Some? && Under(jobs, jobs[k].parent.value, j)))
  }

  lemma ParentIsActive(jobs: Jobs, k: JobId)
    requires JobsInv(jobs, None) && Active(jobs, k) && jobs[k].parent.Some?
    ensures Active(jobs, jobs[k].parent.value)
  {
    assert k in Children(jobs, jobs[k].parent.value);
    assert Counts(jobs, jobs[k].parent.value, None);
  }

  lemma {:induction false} AncestorIsActive(jobs: Jobs, k: JobId, j: JobId)
    requires JobsInv(jobs, None) && Under(jobs, k, j)
    ensures Active(jobs, j)
    decreases jobs[k].born
  {
    if k != j {
      AncestorIsActive(jobs, jobs[k].parent.value, j);
    }
  }

  lemma {:induction false} UnderChild(jobs: Jobs, k: JobId, c: JobId, j: JobId)
    requires JobsInv(jobs, None) && Under(jobs, k, c) && Active(jobs, j) && c in jobs && jobs[c].parent == Some(j)
    ensures Under(jobs, k, j)
    decreases jobs[k].born
  {
    if k != c {
      UnderChild(jobs, jobs[k].parent.value, c, j);
    }
  }

  // Below every active job there is a body that has not returned.
  lemma {:induction false} UnfinishedBelow(jobs: Jobs, clock: nat, j: JobId) returns (k: JobId)
    requires JobsInv(jobs, None) && BornBefore(jobs, clock) && Active(jobs, j)
    ensures Under(jobs, k, j) && jobs[k].unfinished
    decreases clock - jobs[j].born
  {
    assert Counts(jobs, j, None);
    if jobs[j].unfinished {
      return j;
    }
    var c :| c in Children(jobs, j);
    assert Active(jobs, c);
    k := UnfinishedBelow(jobs, clock, c);
    UnderChild(jobs, k, c, j);
  }

  /** join() can return exactly when every body below the job, its own included, has returned. */
  lemma JoinMeansDone(s: System, j: JobId)
    requires Inv(s) && j in s.jobs
    ensures s.jobs[j].dependencies == 0 <==> !exists k :: Under(s.jobs, k, j) && s.jobs[k].unfinished
    ensures s.jobs[j].dependencies == 0 ==> forall k :: !Under(s.jobs, k, j)
  {
    assert Counts(s.jobs, j, None);
    if s.jobs[j].dependencies == 0 {
      forall k ensures !Under(s.jobs, k, j) {
        if Under(s.jobs, k, j) {
          AncestorIsActive(s.jobs, k, j);
        }
      }
    } else {
      var k := UnfinishedBelow(s.jobs, s.clock, j);
    }
  }

  // ---------- Progress

  predicate IsWork(step: Step) {
    step.Take? || step.Start? || step.Finish?
  }

  /** While a job is active, some thread can take, start or finish one, the full queue included. */
  lemma Progress(s: System, j: JobId) returns (step: Step)
    requires Inv(s) && s.workers >= 1 && Active(s.jobs, j)
    ensures IsWork(step) && Enabled(s, step)
  {
    var k := UnfinishedBelow(s.jobs, s.clock, j);
    assert Places(s.queue, s.stacks)[k] == Unfinished(s.jobs, k);
    if t: nat :| t < |s.stacks| && s.stacks[t] != [] {
      assert StackStates(s.jobs, s.stacks[t]);
      assert Active(s.jobs, Top(s, t));
      StackedIsUnfinished(s.jobs, s.queue, s.stacks, t, |s.stacks[t]| - 1);
      step := if s.jobs[Top(s, t)].state == Enqueued then Start(t) else Finish(t);
    } else {
      AllItemsEmpty(s.stacks);
      assert k in multiset(s.queue);
      step := Take(0);
    }
  }

  // Every enqueue allows at most three steps: a take, a start and a finish.
  ghost function Potential(s: System): nat {
    |s.queue| + |Waiting(s.jobs)| + |Places(s.queue, s.stacks)|
  }

  ghost function Waiting(jobs: Jobs): set<JobId> {
    set j | j in jobs && jobs[j].state == Enqueued
  }

  ghost function WorkSteps(steps: seq<Step>): nat {
    if steps == [] then 0 else (if IsWork(steps[0]) then 1 else 0) + WorkSteps(steps[1..])
  }

  lemma EnqueuePotential(s: System, t: nat, j: JobId, parent: Option<JobId>)
    requires Inv(s) && Enabled(s, Enqueue(t, j, parent)) && InState(s.jobs, j, Idle)
    ensures Potential(Next(s, Enqueue(t, j, parent)).value) <= Potential(s) + 3
  {
    hide Inv, Places;
    var s' := Next(s, Enqueue(t, j, parent)).value;
    assert Waiting(s'.jobs) == Waiting(s.jobs) + {j};
    PlacesPush(s.queue, s.stacks, t, j);
    PlacesQueue(s.queue, s.stacks, j);
  }

  lemma TakePotential(s: System, t: nat)
    requires Enabled(s, Take(t))
    ensures Potential(Next(s, Take(t)).value) == Potential(s) - 1
  {
    hide Places, Waiting;
    PlacesTake(s.queue, s.stacks, t);
  }

  lemma StartPotential(s: System, t: nat)
    requires Enabled(s, Start(t))
    ensures Potential(Next(s, Start(t)).value) == Potential(s) - 1
  {
    hide Places;
    StartWaiting(s.jobs, Top(s, t));
  }

  lemma FinishPotential(s: System, t: nat)
    requires Inv(s) && Enabled(s, Finish(t))
    ensures Next(s, Finish(t)).Some? && Potential(Next(s, Finish(t)).value) == Potential(s) - 1
  {
    hide Inv, Places, Next, Waiting, JobsInv, DoneChanges, Done, Older;
    FinishNeverFails(s, t);
    FinishWaiting(s.jobs, Top(s, t), Next(s, Finish(t)).value.jobs);
    PlacesPop(s.queue, s.stacks, t);
    assert |Places(s.queue, Pop(s, t)) + multiset{Top(s, t)}| == |Places(s.queue, s.stacks)|;
  }

  lemma WorkPotential(s: System, step: Step)
    requires Inv(s) && Enabled(s, step) && IsWork(step)
    ensures Next(s, step).Some? && Potential(Next(s, step).value) == Potential(s) - 1
  {
    hide Inv, Potential;
    match step
    case Take(t) => TakePotential(s, t);
    case Start(t) => StartPotential(s, t);
    case Finish(t) => FinishPotential(s, t);
  }

  lemma StartWaiting(jobs: Jobs, j: JobId)
    requires InState(jobs, j, Enqueued)
    ensures |Waiting(jobs[j := jobs[j].(state := Running, startCount := jobs[j].startCount + 1)])|
      == |Waiting(jobs)| - 1
  {
    assert Waiting(jobs[j := jobs[j].(state := Running, startCount := jobs[j].startCount + 1)]) == Waiting(jobs) - {j};
  }

  lemma FinishWaiting(jobs: Jobs, j: JobId, jobs': Jobs)
    requires j in jobs && DoneChanges(Returned(jobs, j), jobs')
    ensures Waiting(jobs') == Waiting(jobs)
  {
  }

  lemma CreatePotential(s: System, j: JobId)
    requires Enabled(s, Create(j))
    ensures Potential(Next(s, Create(j)).value) == Potential(s)
  {
    assert Waiting(Next(s, Create(j)).value.jobs) == Waiting(s.jobs);
  }

  // The clock counts the enqueues that did not raise.
  lemma StepBound(s: System, step: Step)
    requires Inv(s) && Enabled(s, step)
    ensures var s' := After(s, step);
            WorkSteps([step]) + Potential(s') <= Potential(s) + 3 * (s'.clock - s.clock) && s.clock <= s'.clock
  {
    hide Inv, Potential;
    match step
    case Create(j) => CreatePotential(s, j);
    case Enqueue(t, j, parent) =>
      if InState(s.jobs, j, Idle) {
        EnqueuePotential(s, t, j, parent);
      }
    case Take(t) => WorkPotential(s, step);
    case Start(t) => WorkPotential(s, step);
    case Finish(t) =>
      WorkPotential(s, step);
  }

  /** A run never makes more than three work steps for an enqueue. */
  lemma {:induction false} RunBound(s: System, steps: seq<Step>, s': System)
    requires Inv(s) && Runs(s, steps, s')
    ensures s.clock <= s'.clock && WorkSteps(steps) + Potential(s') <= Potential(s) + 3 * (s'.clock - s.clock)
    decreases |steps|
  {
    hide Inv, Next, Potential;
    if steps != [] {
      StepKeepsInv(s, steps[0]);
      StepBound(s, steps[0]);
      RunBound(After(s, steps[0]), steps[1..], s');
    }
  }

  /** When no work is left, every enqueue has had one run of the body and one return to idle. */
  lemma EachEnqueueRunsOnce(s: System, j: JobId)
    requires Inv(s) && s.workers >= 1 && j in s.jobs
    requires !exists step :: IsWork(step) && Enabled(s, step)
    ensures s.jobs[j].state == Idle && s.jobs[j].startCount == s.jobs[j].enqueueCount == s.jobs[j].doneCount
  {
    if Active(s.jobs, j) {
      var step := Progress(s, j);
      assert false;
    }
    assert Counts(s.jobs, j, None);
  }
}
