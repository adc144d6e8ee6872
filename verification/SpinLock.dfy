/** The reader/writer spin lock of tpie/spin_lock.h, one atomic operation of one thread at a time. */
module SpinLock {

  type Thread = nat

  const UNIQUE_BIT: nat := 0x8000_0000
  const WIDTH: nat := 0x1_0000_0000_0000_0000

  // The counter, and what the threads are doing: holding uniquely, spinning for a share, sharing.
  datatype Lock = Lock(spin: nat, unique: set<Thread>, waiting: set<Thread>, sharing: set<Thread>)

  datatype Step =
    | AcquireUnique(t: Thread)
    | ReleaseUnique(t: Thread)
    | ArriveShared(t: Thread)
    | EnterShared(t: Thread)
    | ReleaseShared(t: Thread)

  predicate Idle(l: Lock, t: Thread) {
    t !in l.unique && t !in l.waiting && t !in l.sharing
  }

  // A compare-exchange that fails changes nothing, and so is no step.
  predicate Enabled(l: Lock, step: Step, threads: nat) {
    step.t < threads
    && match step
       case AcquireUnique(t) => Idle(l, t) && l.spin == 0
       case ReleaseUnique(t) => t in l.unique
       case ArriveShared(t) => Idle(l, t)
       case EnterShared(t) => t in l.waiting && l.spin < UNIQUE_BIT
       case ReleaseShared(t) => t in l.sharing
  }

  // size_t arithmetic on the counter.
  function Next(l: Lock, step: Step): Lock {
    match step
    case AcquireUnique(t) => l.(spin := UNIQUE_BIT, unique := l.unique + {t})
    case ReleaseUnique(t) => l.(spin := (l.spin + WIDTH - UNIQUE_BIT) % WIDTH, unique := l.unique - {t})
    case ArriveShared(t) => l.(spin := (l.spin + 1) % WIDTH, waiting := l.waiting + {t})
    case EnterShared(t) => l.(waiting := l.waiting - {t}, sharing := l.sharing + {t})
    case ReleaseShared(t) => l.(spin := (l.spin + WIDTH - 1) % WIDTH, sharing := l.sharing - {t})
  }

  ghost predicate AllBelow(s: set<Thread>, n: nat) {
    forall t :: t in s ==> t < n
  }

  ghost predicate Inv(l: Lock, threads: nat) {
    Counter(l) && AllBelow(l.unique, threads) && AllBelow(l.waiting, threads) && AllBelow(l.sharing, threads)
  }

  // The counter says who is there, and a unique holder is alone.
  ghost predicate Counter(l: Lock) {
    && l.unique !! l.waiting && l.unique !! l.sharing && l.waiting !! l.sharing
    && |l.unique| <= 1 && (l.unique != {} ==> l.sharing == {})
    && l.spin == UNIQUE_BIT * |l.unique| + |l.waiting| + |l.sharing|
  }

  lemma {:induction false} Below(s: set<Thread>, n: nat)
    requires AllBelow(s, n)
    ensures |s| <= n
  {
    if n > 0 {
      Below(s - {n - 1}, n - 1);
    } else {
      assert s == {};
    }
  }

  // Fewer than 2^31 threads cannot make the counter reach the unique bit, or wrap around.
  lemma SharesFit(l: Lock, threads: nat)
    requires Inv(l, threads) && threads < UNIQUE_BIT
    ensures |l.waiting| + |l.sharing| <= threads
    ensures l.unique != {} <==> l.spin >= UNIQUE_BIT
  {
    Below(l.waiting + l.sharing, threads);
    assert |l.waiting + l.sharing| == |l.waiting| + |l.sharing|;
    if l.unique != {} {
      assert |l.unique| == 1;
    }
  }

  lemma StepStaysBelow(l: Lock, step: Step, threads: nat)
    requires Enabled(l, step, threads) && AllBelow(l.unique, threads) && AllBelow(l.waiting, threads)
      && AllBelow(l.sharing, threads)
    ensures var l' := Next(l, step);
      AllBelow(l'.unique, threads) && AllBelow(l'.waiting, threads) && AllBelow(l'.sharing, threads)
  {
  }

  /** Every step keeps the counter right, and never lets a unique holder in beside another holder. */
  lemma StepKeepsInv(l: Lock, step: Step, threads: nat)
    requires Inv(l, threads) && threads < UNIQUE_BIT && Enabled(l, step, threads)
    ensures Inv(Next(l, step), threads)
  {
    hide AllBelow, Enabled;
    SharesFit(l, threads);
    StepStaysBelow(l, step, threads);
    match step
    case AcquireUnique(t) => UniqueKeepsCounter(l, t, threads);
    case ReleaseUnique(t) => UniqueKeepsCounter(l, t, threads);
    case ArriveShared(t) => ArriveKeepsCounter(l, t, threads);
    case EnterShared(t) => EnterKeepsCounter(l, t, threads);
    case ReleaseShared(t) => ReleaseKeepsCounter(l, t, threads);
  }

  lemma OneThread(s: set<Thread>, t: Thread)
    ensures t in s ==> |s - {t}| == |s| - 1
    ensures t !in s ==> |s + {t}| == |s| + 1
  {
  }

  lemma UniqueKeepsCounter(l: Lock, t: Thread, threads: nat)
    requires Inv(l, threads) && threads < UNIQUE_BIT
    ensures Enabled(l, AcquireUnique(t), threads) ==> Counter(Next(l, AcquireUnique(t)))
    ensures Enabled(l, ReleaseUnique(t), threads) ==> Counter(Next(l, ReleaseUnique(t)))
  {
    hide AllBelow;
    SharesFit(l, threads);
    if t in l.unique {
      assert l.unique == {t} by {
        assert |l.unique - {t}| == 0;
      }
    }
    if Enabled(l, AcquireUnique(t), threads) {
      assert l.unique == {} && l.waiting == {} && l.sharing == {};
    }
  }

  lemma ArriveKeepsCounter(l: Lock, t: Thread, threads: nat)
    requires Inv(l, threads) && threads < UNIQUE_BIT && Enabled(l, ArriveShared(t), threads)
    ensures Counter(Next(l, ArriveShared(t)))
  {
    hide AllBelow;
    SharesFit(l, threads);
    assert l.spin + 1 < WIDTH && Next(l, ArriveShared(t)).spin == l.spin + 1;
    OneThread(l.waiting, t);
  }

  lemma EnterKeepsCounter(l: Lock, t: Thread, threads: nat)
    requires Inv(l, threads) && threads < UNIQUE_BIT && Enabled(l, EnterShared(t), threads)
    ensures Counter(Next(l, EnterShared(t)))
  {
    hide AllBelow;
    SharesFit(l, threads);
    OneThread(l.waiting, t);
    OneThread(l.sharing, t);
  }

  lemma ReleaseKeepsCounter(l: Lock, t: Thread, threads: nat)
    requires Inv(l, threads) && threads < UNIQUE_BIT && Enabled(l, ReleaseShared(t), threads)
    ensures Counter(Next(l, ReleaseShared(t)))
  {
    hide AllBelow;
    SharesFit(l, threads);
    OneThread(l.waiting, t);
    OneThread(l.sharing, t);
  }

  ghost predicate Runs(l: Lock, steps: seq<Step>, l': Lock, threads: nat)
    decreases |steps|
  {
    if steps == [] then l' == l
    else Enabled(l, steps[0], threads) && Runs(Next(l, steps[0]), steps[1..], l', threads)
  }

  lemma {:induction false} RunKeepsInv(l: Lock, steps: seq<Step>, l': Lock, threads: nat)
    requires Inv(l, threads) && threads < UNIQUE_BIT && Runs(l, steps, l', threads)
    ensures Inv(l', threads)
    decreases |steps|
  {
    if steps != [] {
      StepKeepsInv(l, steps[0], threads);
      RunKeepsInv(Next(l, steps[0]), steps[1..], l', threads);
    }
  }

  // ---------- Who is where, read off the steps of a run

  const FREE: Lock := Lock(0, {}, {}, {})

  // The first step has been made, and the second one not since then.
  ghost predicate Since(steps: seq<Step>, begin: Step, end: Step) {
    exists i :: 0 <= i < |steps| && steps[i] == begin && end !in steps[i..]
  }

  ghost predicate HoldsUnique(steps: seq<Step>, t: Thread) {
    Since(steps, AcquireUnique(t), ReleaseUnique(t))
  }

  ghost predicate Spins(steps: seq<Step>, t: Thread) {
    Since(steps, ArriveShared(t), EnterShared(t))
  }

  ghost predicate HoldsShared(steps: seq<Step>, t: Thread) {
    Since(steps, EnterShared(t), ReleaseShared(t))
  }

  lemma SinceNext(steps: seq<Step>, step: Step, begin: Step, end: Step)
    requires begin != end
    ensures Since(steps + [step], begin, end) <==> step == begin || (Since(steps, begin, end) && step != end)
  {
    var longer := steps + [step];
    assert longer[|steps|..] == [step];
    if Since(steps, begin, end) && step != end {
      var i :| 0 <= i < |steps| && steps[i] == begin && end !in steps[i..];
      assert longer[i] == begin && longer[i..] == steps[i..] + [step];
    }
    if Since(longer, begin, end) {
      var i :| 0 <= i < |longer| && longer[i] == begin && end !in longer[i..];
      assert longer[i..][|longer| - 1 - i] == step;
      if i < |steps| {
        assert longer[i..] == steps[i..] + [step];
      }
    }
  }

  lemma {:induction false} LastStep(l: Lock, steps: seq<Step>, l': Lock, threads: nat) returns (mid: Lock)
    requires Runs(l, steps, l', threads) && steps != []
    ensures Runs(l, steps[..|steps| - 1], mid, threads)
    ensures Enabled(mid, steps[|steps| - 1], threads) && l' == Next(mid, steps[|steps| - 1])
    decreases |steps|
  {
    if |steps| == 1 {
      mid := l;
    } else {
      mid := LastStep(Next(l, steps[0]), steps[1..], l', threads);
      assert steps[1..][..|steps| - 2] == steps[..|steps| - 1][1..];
    }
  }

  ghost predicate Traced(l: Lock, steps: seq<Step>, t: Thread) {
    && (t in l.unique <==> HoldsUnique(steps, t))
    && (t in l.waiting <==> Spins(steps, t))
    && (t in l.sharing <==> HoldsShared(steps, t))
  }

  lemma NothingTraced()
    ensures forall t :: Traced(FREE, [], t)
  {
  }

  lemma {:induction false} AllTraced(steps: seq<Step>, l: Lock, threads: nat)
    requires threads < UNIQUE_BIT && Runs(FREE, steps, l, threads)
    ensures forall t :: Traced(l, steps, t)
    decreases |steps|
  {
    hide Traced;
    NothingTraced();
    if steps != [] {
      var n := |steps| - 1;
      var mid := LastStep(FREE, steps, l, threads);
      AllTraced(steps[..n], mid, threads);
      RunKeepsInv(FREE, steps[..n], mid, threads);
      assert steps == steps[..n] + [steps[n]];
      forall t ensures Traced(l, steps, t) {
        assert Traced(mid, steps[..n], t);
        TracedNext(mid, steps[..n], steps[n], threads, t);
      }
    }
  }

  lemma TracedNext(l: Lock, steps: seq<Step>, step: Step, threads: nat, t: Thread)
    requires Enabled(l, step, threads) && Traced(l, steps, t)
    ensures Traced(Next(l, step), steps + [step], t)
  {
    hide Since;
    SinceNext(steps, step, AcquireUnique(t), ReleaseUnique(t));
    SinceNext(steps, step, ArriveShared(t), EnterShared(t));
    SinceNext(steps, step, EnterShared(t), ReleaseShared(t));
  }

  /** The sets of the state are what the steps say: who acquired, arrived or entered, and has not moved on since. */
  lemma StateIsTrace(steps: seq<Step>, l: Lock, threads: nat)
    requires threads < UNIQUE_BIT && Runs(FREE, steps, l, threads)
    ensures forall t :: t in l.unique <==> HoldsUnique(steps, t)
    ensures forall t :: t in l.waiting <==> Spins(steps, t)
    ensures forall t :: t in l.sharing <==> HoldsShared(steps, t)
  {
    hide Since;
    AllTraced(steps, l, threads);
    forall t
      ensures t in l.unique <==> HoldsUnique(steps, t)
      ensures t in l.waiting <==> Spins(steps, t)
      ensures t in l.sharing <==> HoldsShared(steps, t)
    {
      assert Traced(l, steps, t);
    }
  }

  lemma {:induction false} Prefix(l: Lock, steps: seq<Step>, l': Lock, threads: nat, n: nat) returns (mid: Lock)
    requires Runs(l, steps, l', threads) && n < |steps|
    ensures Runs(l, steps[..n], mid, threads) && Enabled(mid, steps[n], threads)
    decreases |steps|
  {
    if n == 0 {
      mid := l;
    } else {
      mid := Prefix(Next(l, steps[0]), steps[1..], l', threads, n - 1);
      assert steps[1..][..n - 1] == steps[..n][1..];
    }
  }

  /** While a thread holds the lock uniquely no other one acquires or enters, and while one shares none acquires. */
  lemma MutualExclusion(steps: seq<Step>, l: Lock, threads: nat, n: nat, t: Thread)
    requires threads < UNIQUE_BIT && Runs(FREE, steps, l, threads) && n < |steps|
    ensures HoldsUnique(steps[..n], t) ==> !steps[n].AcquireUnique? && !steps[n].EnterShared?
    ensures HoldsShared(steps[..n], t) ==> !steps[n].AcquireUnique?
  {
    var mid := Prefix(FREE, steps, l, threads, n);
    StateIsTrace(steps[..n], mid, threads);
    RunKeepsInv(FREE, steps[..n], mid, threads);
    SharesFit(mid, threads);
  }

  /** The counter is the unique bit for the holder, if any, plus one for everyone who spins or shares. */
  lemma CounterIsTrace(steps: seq<Step>, l: Lock, threads: nat)
    requires threads < UNIQUE_BIT && Runs(FREE, steps, l, threads)
    ensures var unique, shares := set t: nat | t < threads && HoldsUnique(steps, t),
                                  set t: nat | t < threads && (Spins(steps, t) || HoldsShared(steps, t));
            |unique| <= 1 && l.spin == UNIQUE_BIT * |unique| + |shares|
  {
    hide Since, Runs, HoldsUnique, HoldsShared, Spins;
    RunKeepsInv(FREE, steps, l, threads);
    StateIsTrace(steps, l, threads);
    assert (set t: nat | t < threads && HoldsUnique(steps, t)) == l.unique;
    assert (set t: nat | t < threads && (Spins(steps, t) || HoldsShared(steps, t))) == l.waiting + l.sharing;
    assert |l.waiting + l.sharing| == |l.waiting| + |l.sharing|;
  }

  /** When everyone has released again the counter is zero, and everyone can acquire. */
  lemma FreeAgain(steps: seq<Step>, l: Lock, threads: nat)
    requires threads < UNIQUE_BIT && Runs(FREE, steps, l, threads)
    requires forall t :: !HoldsUnique(steps, t) && !Spins(steps, t) && !HoldsShared(steps, t)
    ensures l.spin == 0 && forall t: nat :: t < threads ==> Enabled(l, AcquireUnique(t), threads)
  {
    hide Since, Runs, HoldsUnique, HoldsShared, Spins;
    RunKeepsInv(FREE, steps, l, threads);
    StateIsTrace(steps, l, threads);
    assert l.unique == {} && l.waiting == {} && l.sharing == {};
  }

  /** Holders can release, all others can arrive, and whoever spins can enter unless there is a unique holder. */
  lemma NobodyIsStuck(steps: seq<Step>, l: Lock, threads: nat, t: Thread)
    requires threads < UNIQUE_BIT && Runs(FREE, steps, l, threads) && t < threads
    ensures HoldsUnique(steps, t) ==> Enabled(l, ReleaseUnique(t), threads)
    ensures HoldsShared(steps, t) ==> Enabled(l, ReleaseShared(t), threads)
    ensures Spins(steps, t) && (forall u :: !HoldsUnique(steps, u)) ==> Enabled(l, EnterShared(t), threads)
    ensures !HoldsUnique(steps, t) && !Spins(steps, t) && !HoldsShared(steps, t) ==>
      Enabled(l, ArriveShared(t), threads)
  {
    hide Since, Runs, HoldsUnique, HoldsShared, Spins;
    RunKeepsInv(FREE, steps, l, threads);
    StateIsTrace(steps, l, threads);
    SharesFit(l, threads);
    if forall u :: !HoldsUnique(steps, u) {
      assert l.unique == {};
    }
  }
}
