/** What a run of the job system did, read off its steps. */
module JobTraces {
  import opened Options
  import opened Order
  import opened JobSystem

  datatype Event = Enqueues | Starts | Returns

  // The step enqueues the job, starts its body, or is the return of its body.
  predicate Happens(s: System, step: Step, e: Event, j: JobId)
    requires Enabled(s, step)
  {
    match step
    case Enqueue(_, k, _) => e == Enqueues && k == j && InState(s.jobs, j, Idle)
    case Start(t) => e == Starts && Top(s, t) == j
    case Finish(t) => e == Returns && Top(s, t) == j
    case _ => false
  }

  ghost function Times(s: System, steps: seq<Step>, e: Event, j: JobId): nat
    decreases |steps|
  {
    if steps == [] || !Enabled(s, steps[0]) then 0
    else (if Happens(s, steps[0], e, j) then 1 else 0) + Times(After(s, steps[0]), steps[1..], e, j)
  }

  function EnqueueCount(jobs: Jobs, j: JobId): int {
    if j in jobs then jobs[j].enqueueCount else 0
  }

  function StartCount(jobs: Jobs, j: JobId): int {
    if j in jobs then jobs[j].startCount else 0
  }

  lemma StepCounts(s: System, step: Step, j: JobId)
    requires Inv(s) && Enabled(s, step)
    ensures var s' := After(s, step);
            && EnqueueCount(s'.jobs, j) == EnqueueCount(s.jobs, j) + (if Happens(s, step, Enqueues, j) then 1 else 0)
            && StartCount(s'.jobs, j) == StartCount(s.jobs, j) + (if Happens(s, step, Starts, j) then 1 else 0)
            && Unfinished(s'.jobs, j) == Unfinished(s.jobs, j)
              + (if Happens(s, step, Enqueues, j) then 1 else 0) - (if Happens(s, step, Returns, j) then 1 else 0)
  {
    hide Inv;
    match step
    case Create(k) => {}
    case Enqueue(t, k, parent) => IdleIsFinished(s, k);
    case Take(t) => {}
    case Start(t) => {}
    case Finish(t) =>
      hide Next, Done, Older, JobsInv;
      FinishNeverFails(s, t);
  }

  lemma IdleIsFinished(s: System, j: JobId)
    requires Inv(s)
    ensures InState(s.jobs, j, Idle) ==> !s.jobs[j].unfinished
  {
    if InState(s.jobs, j, Idle) {
      assert Counts(s.jobs, j, None);
    }
  }

  lemma {:induction false} RunCounts(s: System, steps: seq<Step>, s': System, j: JobId)
    requires Inv(s) && Runs(s, steps, s')
    ensures EnqueueCount(s'.jobs, j) == EnqueueCount(s.jobs, j) + Times(s, steps, Enqueues, j)
    ensures StartCount(s'.jobs, j) == StartCount(s.jobs, j) + Times(s, steps, Starts, j)
    ensures Unfinished(s'.jobs, j)
      == Unfinished(s.jobs, j) + Times(s, steps, Enqueues, j) - Times(s, steps, Returns, j)
    decreases |steps|
  {
    hide Inv, Happens, After, EnqueueCount, StartCount, Unfinished;
    if steps != [] {
      StepCounts(s, steps[0], j);
      AfterKeepsInv(s, steps[0]);
      RunCounts(After(s, steps[0]), steps[1..], s', j);
    }
  }

  lemma AfterKeepsInv(s: System, step: Step)
    requires Inv(s) && Enabled(s, step)
    ensures Inv(After(s, step))
  {
    hide Inv, Next;
    StepKeepsInv(s, step);
  }

  /** At any time a job has had one start more than returns or as many, and one enqueue more than starts or as many. */
  lemma BodiesAlternate(s: System, steps: seq<Step>, s': System, j: JobId)
    requires Initial(s) && Runs(s, steps, s')
    ensures var enqueued, started, returned :=
              Times(s, steps, Enqueues, j), Times(s, steps, Starts, j), Times(s, steps, Returns, j);
            && returned <= started <= enqueued <= returned + 1
            && (InState(s'.jobs, j, Enqueued) <==> started < enqueued)
            && (returned < started ==> InState(s'.jobs, j, Running))
            && (InState(s'.jobs, j, Idle) ==> returned == started == enqueued)
  {
    hide Times, Next;
    InitialInv(s);
    RunKeepsInv(s, steps, s');
    RunCounts(s, steps, s', j);
    if j in s'.jobs {
      assert Counts(s'.jobs, j, None);
    }
  }

  /** When no work is left, every enqueue has had one start of the body and one return. */
  lemma EachEnqueueRunsOnce(s: System, steps: seq<Step>, s': System, j: JobId)
    requires Initial(s) && Runs(s, steps, s') && s'.workers >= 1
    requires !exists step :: IsWork(step) && Enabled(s', step)
    ensures Times(s, steps, Enqueues, j) == Times(s, steps, Starts, j) == Times(s, steps, Returns, j)
    ensures !Active(s'.jobs, j)
  {
    hide Times, Next, Inv, Enabled;
    InitialInv(s);
    RunKeepsInv(s, steps, s');
    BodiesAlternate(s, steps, s', j);
    if Active(s'.jobs, j) {
      var step := Progress(s', j);
      assert false;
    }
  }

  ghost function EnqueueSteps(steps: seq<Step>): nat {
    if steps == [] then 0 else (if steps[0].Enqueue? then 1 else 0) + EnqueueSteps(steps[1..])
  }

  lemma {:induction false} ClockBound(s: System, steps: seq<Step>, s': System)
    requires Inv(s) && Runs(s, steps, s')
    ensures s'.clock <= s.clock + EnqueueSteps(steps)
    decreases |steps|
  {
    hide Inv, Done, Older;
    if steps != [] {
      AfterKeepsInv(s, steps[0]);
      ClockBound(After(s, steps[0]), steps[1..], s');
    }
  }

  /** A run from the beginning takes, starts and finishes jobs at most three times for each call of enqueue. */
  lemma FewWorkSteps(s: System, steps: seq<Step>, s': System)
    requires Initial(s) && Runs(s, steps, s')
    ensures WorkSteps(steps) <= 3 * EnqueueSteps(steps)
  {
    InitialInv(s);
    RunBound(s, steps, s');
    ClockBound(s, steps, s');
    AllItemsEmpty(s.stacks);
    assert Potential(s) == 0;
  }

  // ---------- The queue

  // What a step puts into the queue; an enqueue with a full queue puts nothing there.
  ghost function QueuedBy(s: System, step: Step): seq<JobId> {
    if step.Enqueue? && InState(s.jobs, step.j, Idle) && |s.queue| < s.capacity then [step.j] else []
  }

  // What a thread without a body has to execute after the step, if it takes up a job.
  ghost function TakenBy(s: System, step: Step): seq<JobId>
    requires Enabled(s, step)
  {
    if step.Take? && step.t < |After(s, step).stacks| then After(s, step).stacks[step.t] else []
  }

  ghost function Queued(s: System, steps: seq<Step>): seq<JobId>
    decreases |steps|
  {
    if steps == [] || !Enabled(s, steps[0]) then []
    else QueuedBy(s, steps[0]) + Queued(After(s, steps[0]), steps[1..])
  }

  ghost function TakenUp(s: System, steps: seq<Step>): seq<JobId>
    decreases |steps|
  {
    if steps == [] || !Enabled(s, steps[0]) then []
    else TakenBy(s, steps[0]) + TakenUp(After(s, steps[0]), steps[1..])
  }

  /** First in, first out: the jobs taken up and those still in the queue are the jobs queued, in the same order. */
  lemma {:induction false} FirstInFirstOut(s: System, steps: seq<Step>, s': System)
    requires Inv(s) && Runs(s, steps, s')
    ensures s.queue + Queued(s, steps) == TakenUp(s, steps) + s'.queue
    decreases |steps|
  {
    hide Inv, After, QueuedBy, TakenBy;
    if steps == [] {
      assert s.queue + [] == [] + s.queue;
    } else {
      var s1, rest := After(s, steps[0]), steps[1..];
      AfterKeepsInv(s, steps[0]);
      FirstInFirstOut(s1, rest, s');
      QueueStep(s, steps[0]);
      var put, got := QueuedBy(s, steps[0]), TakenBy(s, steps[0]);
      assert s.queue + (put + Queued(s1, rest)) == (got + s1.queue) + Queued(s1, rest);
      assert got + (s1.queue + Queued(s1, rest)) == (got + TakenUp(s1, rest)) + s'.queue;
    }
  }

  lemma QueueStep(s: System, step: Step)
    requires Inv(s) && Enabled(s, step)
    ensures s.queue + QueuedBy(s, step) == TakenBy(s, step) + After(s, step).queue
  {
    hide Inv;
    match step
    case Create(k) => {}
    case Enqueue(t, k, parent) => QueueBound(s);
    case Take(t) => {}
    case Start(t) => {}
    case Finish(t) =>
      hide Next, Done, Older, JobsInv;
      FinishNeverFails(s, t);
  }

  lemma QueueBound(s: System)
    requires Inv(s)
    ensures |s.queue| <= s.capacity
  {
  }

  // ---------- Joining

  lemma ParentStays(s: System, step: Step, c: JobId)
    requires Inv(s) && Enabled(s, step) && Active(s.jobs, c)
    ensures var jobs := After(s, step).jobs;
            InState(jobs, c, Idle) || (Active(jobs, c) && jobs[c].parent == s.jobs[c].parent)
  {
    hide Inv;
    match step
    case Create(k) => {}
    case Enqueue(t, k, parent) => {}
    case Take(t) => {}
    case Start(t) => {}
    case Finish(t) =>
      hide Next, Done, Older, JobsInv;
      FinishNeverFails(s, t);
  }

  lemma ActiveChild(s: System, c: JobId, p: JobId)
    requires Inv(s) && Active(s.jobs, c) && s.jobs[c].parent == Some(p)
    ensures Active(s.jobs, p) && s.jobs[p].dependencies > 0
  {
    assert p in s.jobs;
    assert Counts(s.jobs, p, None);
    assert c in Children(s.jobs, p);
  }

  /** A job can be joined only after every child that was enqueued from its body has returned to idle. */
  lemma {:induction false} JoinWaitsForChild(s: System, steps: seq<Step>, s': System, c: JobId, p: JobId)
    returns (n: nat, mid: System)
    requires Inv(s) && Active(s.jobs, c) && s.jobs[c].parent == Some(p)
    requires Runs(s, steps, s') && p in s'.jobs && s'.jobs[p].dependencies == 0
    ensures n <= |steps| && Runs(s, steps[..n], mid) && InState(mid.jobs, c, Idle)
    decreases |steps|
  {
    hide Inv, Next;
    n, mid := 0, s;
    if steps == [] {
      ActiveChild(s, c, p);
      assert false;
    } else {
      var s1 := After(s, steps[0]);
      AfterKeepsInv(s, steps[0]);
      ParentStays(s, steps[0], c);
      if InState(s1.jobs, c, Idle) {
        assert steps[..1] == [steps[0]] && Runs(s1, [], s1);
        n, mid := 1, s1;
      } else {
        var m, later := JoinWaitsForChild(s1, steps[1..], s', c, p);
        assert steps[..m + 1] == [steps[0]] + steps[1..][..m];
        n, mid := m + 1, later;
      }
    }
  }

  /** Enqueueing a child from the body of p makes p its parent. */
  lemma ChildHasParent(s: System, t: nat, c: JobId, p: JobId)
    requires Inv(s) && Enabled(s, Enqueue(t, c, Some(p))) && InState(s.jobs, c, Idle)
    ensures var s' := After(s, Enqueue(t, c, Some(p)));
            Inv(s') && Active(s'.jobs, c) && s'.jobs[c].parent == Some(p)
  {
    hide Inv;
    EnqueueKeepsInv(s, t, c, Some(p));
    ParentIsRunning(s, t, c, p);
  }

  lemma ParentIsRunning(s: System, t: nat, c: JobId, p: JobId)
    requires Enabled(s, Enqueue(t, c, Some(p))) && InState(s.jobs, c, Idle)
    ensures InState(s.jobs, p, Running) && p != c
  {
  }

  /** Clients, and bodies for their children, can always call enqueue; what it does then is in EnqueueKeepsInv. */
  lemma CallsAreNotRefused(s: System, t: nat, j: JobId)
    requires t < |s.stacks| && j in s.jobs
    ensures s.stacks[t] == [] && t >= s.workers ==> Enabled(s, Enqueue(t, j, None))
    ensures s.stacks[t] != [] && InState(s.jobs, Top(s, t), Running) ==>
      Enabled(s, Enqueue(t, j, None)) && Enabled(s, Enqueue(t, j, Some(Top(s, t))))
  {
  }

  lemma OneStep(s: System, step: Step, rest: seq<Step>, s': System)
    requires Enabled(s, step) && Runs(After(s, step), rest, s')
    ensures Runs(s, [step] + rest, s')
    ensures forall e, j ::
      Times(s, [step] + rest, e, j) == (if Happens(s, step, e, j) then 1 else 0) + Times(After(s, step), rest, e, j)
  {
    assert ([step] + rest)[1..] == rest;
  }

  // One worker, one client and one job.
  function OneJob(job: Job, queue: seq<JobId>, stack: seq<JobId>, clock: nat): System {
    System(map[0 := job], queue, 1, [stack, []], 1, clock)
  }

  lemma OneJobEnqueued(s: System)
    requires s == System(map[], [], 1, [[], []], 1, 0)
    ensures var s1 := OneJob(Job(Idle, 0, None, false, 0, 0, 0, 0), [], [], 0);
            && Enabled(s, Create(0)) && After(s, Create(0)) == s1
            && Enabled(s1, Enqueue(1, 0, None))
            && After(s1, Enqueue(1, 0, None)) == OneJob(Job(Enqueued, 1, None, true, 0, 1, 0, 0), [0], [], 1)
  {
    var idle := Job(Idle, 0, None, false, 0, 0, 0, 0);
    var s1 := OneJob(idle, [], [], 0);
    assert s.jobs[0 := idle] == s1.jobs;
    assert s1.jobs[0 := idle.(state := Enqueued, dependencies := 1, unfinished := true, enqueueCount := 1)]
      == OneJob(Job(Enqueued, 1, None, true, 0, 1, 0, 0), [0], [], 1).jobs;
  }

  lemma OneJobStarted(s: System)
    requires s == OneJob(Job(Enqueued, 1, None, true, 0, 1, 0, 0), [0], [], 1)
    ensures var s1 := OneJob(Job(Enqueued, 1, None, true, 0, 1, 0, 0), [], [0], 1);
            && Enabled(s, Take(0)) && After(s, Take(0)) == s1
            && Enabled(s1, Start(0)) && After(s1, Start(0)) == OneJob(Job(Running, 1, None, true, 0, 1, 1, 0), [], [0], 1)
  {
    var s1 := OneJob(Job(Enqueued, 1, None, true, 0, 1, 0, 0), [], [0], 1);
    assert s.stacks[0 := [0]] == s1.stacks;
    assert s1.jobs[0 := Job(Running, 1, None, true, 0, 1, 1, 0)] == map[0 := Job(Running, 1, None, true, 0, 1, 1, 0)];
  }

  lemma OneJobFinished(s: System)
    requires s == OneJob(Job(Running, 1, None, true, 0, 1, 1, 0), [], [0], 1)
    ensures Enabled(s, Finish(0)) && After(s, Finish(0)) == OneJob(Job(Idle, 0, None, false, 0, 1, 1, 1), [], [], 1)
  {
    var jobs := Returned(s.jobs, 0);
    assert jobs == map[0 := Job(Running, 1, None, false, 0, 1, 1, 0)];
    assert jobs[0 := Job(Idle, 0, None, false, 0, 1, 1, 1)] == map[0 := Job(Idle, 0, None, false, 0, 1, 1, 1)];
    assert s.stacks[0 := []] == [[], []];
  }

  /** One worker and one client: the job that the client enqueues is taken, started and finished. */
  lemma OneJobRuns() returns (s: System, steps: seq<Step>, s': System)
    ensures Initial(s) && Runs(s, steps, s')
    ensures forall e :: Times(s, steps, e, 0) == 1
    ensures InState(s'.jobs, 0, Idle) && s'.jobs[0].dependencies == 0
  {
    hide After;
    s := System(map[], [], 1, [[], []], 1, 0);
    OneJobEnqueued(s);
    var s1 := After(s, Create(0));
    var s2 := After(s1, Enqueue(1, 0, None));
    OneJobStarted(s2);
    var s3 := After(s2, Take(0));
    var s4 := After(s3, Start(0));
    OneJobFinished(s4);
    s' := After(s4, Finish(0));
    OneStep(s4, Finish(0), [], s');
    OneStep(s3, Start(0), [Finish(0)], s');
    OneStep(s2, Take(0), [Start(0)] + [Finish(0)], s');
    OneStep(s1, Enqueue(1, 0, None), [Take(0)] + ([Start(0)] + [Finish(0)]), s');
    steps := [Create(0)] + ([Enqueue(1, 0, None)] + ([Take(0)] + ([Start(0)] + [Finish(0)])));
    OneStep(s, Create(0), [Enqueue(1, 0, None)] + ([Take(0)] + ([Start(0)] + [Finish(0)])), s');
    forall e ensures Times(s, steps, e, 0) == 1 {
      assert Times(s', [], e, 0) == 0;
    }
  }
}
