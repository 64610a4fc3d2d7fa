/** The accounting of lazy-value mutexes (`LazyValueMutex` in vm/vm.cpp, `Semaphore` in vm/sem.hpp):
    every live thread that holds no lazy value has put one unit into a semaphore, which it takes out
    before it locks its first. Threads run interleaved; a lock is two steps, since other threads may
    run while it waits for the mutex. */
module LazyMutexes {
  import opened Options

  type Thread = nat
  type Mutex = nat

  /** What a thread is doing: locking a mutex takes it out of the semaphore before it has it. */
  datatype Phase = Idle | Waiting(m: Mutex, isTry: bool)

  /** `counts` is the thread-local number of locked mutexes of every live thread. */
  datatype State = State(sem: int, counts: map<Thread, nat>, phases: map<Thread, Phase>, owner: map<Mutex, Thread>)

  datatype Step =
    | Start(t: Thread)
    | End(t: Thread)
    | Begin(t: Thread, m: Mutex, isTry: bool)
    | Acquire(t: Thread)
    | Unlock(t: Thread, m: Mutex)

  /** `op(-1)` goes on as soon as there is a unit. */
  predicate CanTake(s: State) {
    s.sem >= 1
  }

  predicate IsIdle(s: State, t: Thread) {
    t in s.counts && t in s.phases && s.phases[t].Idle?
  }

  /** Whether a thread would now take a unit out of the semaphore. */
  predicate Takes(s: State, step: Step) {
    (step.End? && IsIdle(s, step.t)) || (step.Begin? && IsIdle(s, step.t) && s.counts[step.t] == 0)
  }

  predicate Enabled(s: State, step: Step) {
    match step
    case Start(t) => t !in s.counts && t !in s.phases
    case End(t) => IsIdle(s, t) && CanTake(s)
    case Begin(t, m, _) => IsIdle(s, t) && (s.counts[t] == 0 ==> CanTake(s))
    case Acquire(t) => t in s.counts && t in s.phases && s.phases[t].Waiting? && (s.phases[t].isTry || s.phases[t].m !in s.owner)
    case Unlock(t, m) => IsIdle(s, t)
  }

  /** One less, and back into the semaphore at zero. */
  function Release(s: State, t: Thread): State
    requires t in s.counts
  {
    var c := if s.counts[t] > 0 then s.counts[t] - 1 else 0;
    s.(counts := s.counts[t := c], sem := if c == 0 then s.sem + 1 else s.sem)
  }

  function Apply(s: State, step: Step): State
    requires Enabled(s, step)
  {
    match step
    case Start(t) => s.(sem := s.sem + 1, counts := s.counts[t := 0], phases := s.phases[t := Idle])
    case End(t) => s.(sem := s.sem - 1, counts := s.counts - {t}, phases := s.phases - {t})
    case Begin(t, m, isTry) =>
      s.(sem := if s.counts[t] == 0 then s.sem - 1 else s.sem,
         counts := s.counts[t := s.counts[t] + 1], phases := s.phases[t := Waiting(m, isTry)])
    case Acquire(t) =>
      var m, idle := s.phases[t].m, s.(phases := s.phases[t := Idle]);
      if m !in s.owner then idle.(owner := s.owner[m := t]) else Release(idle, t)
    case Unlock(t, m) => Release(s.(owner := s.owner - {m}), t)
  }

  // ------------------------------------------------------------------ the balance

  function Busy(counts: map<Thread, nat>): set<Thread> {
    set t | t in counts && counts[t] > 0
  }

  /** The units in the semaphore and the threads that took theirs out make up the live threads. */
  ghost predicate Balanced(s: State) {
    s.sem + |Busy(s.counts)| == |s.counts|
  }

  lemma BusyUpdate(counts: map<Thread, nat>, t: Thread, c: nat)
    requires t in counts
    ensures |counts[t := c]| == |counts|
    ensures |Busy(counts[t := c])| == |Busy(counts)| - (if counts[t] > 0 then 1 else 0) + (if c > 0 then 1 else 0)
  {
    assert counts[t := c].Keys == counts.Keys;
    assert |counts[t := c].Keys| == |counts[t := c]|;
    if c > 0 {
      assert Busy(counts[t := c]) == (Busy(counts) - {t}) + {t};
    } else {
      assert Busy(counts[t := c]) == Busy(counts) - {t};
    }
  }

  lemma BusyEnds(counts: map<Thread, nat>, t: Thread)
    requires t in counts
    ensures |counts - {t}| == |counts| - 1
    ensures |Busy(counts - {t})| == |Busy(counts)| - if counts[t] > 0 then 1 else 0
  {
    assert (counts - {t}).Keys == counts.Keys - {t};
    assert |(counts - {t}).Keys| == |counts - {t}|;
    assert Busy(counts - {t}) == Busy(counts) - {t};
  }

  lemma BusyStarts(counts: map<Thread, nat>, t: Thread)
    requires t !in counts
    ensures |counts[t := 0]| == |counts| + 1 && |Busy(counts[t := 0])| == |Busy(counts)|
  {
    assert counts[t := 0].Keys == counts.Keys + {t};
    assert |counts[t := 0].Keys| == |counts[t := 0]|;
    assert Busy(counts[t := 0]) == Busy(counts);
  }

  /** A thread that is not busy has its unit in the semaphore. */
  lemma IdleUnit(s: State, t: Thread)
    requires Balanced(s) && t in s.counts && s.counts[t] == 0
    ensures CanTake(s)
  {
    assert t !in Busy(s.counts);
    BusyBound(s.counts, t);
  }

  lemma BusyBound(counts: map<Thread, nat>, t: Thread)
    requires t in counts && counts[t] == 0
    ensures |Busy(counts)| < |counts|
  {
    assert Busy(counts) <= counts.Keys - {t};
    SubsetSize(Busy(counts), counts.Keys - {t});
    assert |counts.Keys - {t}| == |counts.Keys| - 1;
  }

  lemma {:induction false} SubsetSize(a: set<Thread>, b: set<Thread>)
    requires a <= b
    ensures |a| <= |b|
    decreases a
  {
    if a != {} {
      var x :| x in a;
      SubsetSize(a - {x}, b - {x});
    }
  }

  /** Releasing keeps the balance exactly when the thread counted something. */
  lemma ReleaseBalancesExactly(s: State, t: Thread)
    requires t in s.counts && Balanced(s)
    ensures Balanced(Release(s, t)) <==> s.counts[t] > 0
  {
    BusyUpdate(s.counts, t, if s.counts[t] > 0 then s.counts[t] - 1 else 0);
  }

  // ------------------------------------------------------------------ ownership

  function HeldBy(owner: map<Mutex, Thread>, t: Thread): set<Mutex> {
    set m | m in owner && owner[m] == t
  }

  /** A thread counts the mutexes it owns and the one it is locking. */
  ghost predicate Counted(s: State) {
    && s.counts.Keys == s.phases.Keys
    && (forall t :: t in s.counts ==> s.counts[t] == |HeldBy(s.owner, t)| + if s.phases[t].Waiting? then 1 else 0)
    && (forall m :: m in s.owner ==> s.owner[m] in s.counts)
  }

  ghost predicate Inv(s: State) {
    Balanced(s) && Counted(s)
  }

  /** Threads unlock what they own and end owning nothing. */
  predicate Proper(s: State, step: Step) {
    match step
    case Unlock(t, m) => m in s.owner && s.owner[m] == t
    case End(t) => t in s.counts ==> s.counts[t] == 0
    case _ => true
  }

  lemma AcquiredHeld(owner: map<Mutex, Thread>, t: Thread, m: Mutex, u: Thread)
    requires m !in owner
    ensures |HeldBy(owner[m := t], u)| == |HeldBy(owner, u)| + if u == t then 1 else 0
  {
    assert HeldBy(owner[m := t], u) == HeldBy(owner, u) + if u == t then {m} else {};
  }

  lemma ReleasedHeld(owner: map<Mutex, Thread>, m: Mutex, u: Thread)
    requires m in owner
    ensures |HeldBy(owner - {m}, u)| == |HeldBy(owner, u)| - if u == owner[m] then 1 else 0
  {
    assert HeldBy(owner - {m}, u) == HeldBy(owner, u) - {m};
  }

  lemma StartKeeps(s: State, t: Thread)
    requires Inv(s) && Enabled(s, Start(t))
    ensures Inv(Apply(s, Start(t)))
  {
    BusyStarts(s.counts, t);
    assert HeldBy(s.owner, t) == {};
  }

  lemma EndKeeps(s: State, t: Thread)
    requires Inv(s) && Enabled(s, End(t)) && Proper(s, End(t))
    ensures Inv(Apply(s, End(t)))
  {
    BusyEnds(s.counts, t);
    assert HeldBy(s.owner, t) == {};
    forall m | m in s.owner ensures s.owner[m] != t {
      assert m !in HeldBy(s.owner, t);
    }
  }

  lemma BeginKeeps(s: State, t: Thread, m: Mutex, isTry: bool)
    requires Inv(s) && Enabled(s, Begin(t, m, isTry))
    ensures Inv(Apply(s, Begin(t, m, isTry)))
  {
    BusyUpdate(s.counts, t, s.counts[t] + 1);
  }

  lemma AcquireKeeps(s: State, t: Thread)
    requires Inv(s) && Enabled(s, Acquire(t))
    ensures Inv(Apply(s, Acquire(t)))
  {
    var m, idle := s.phases[t].m, s.(phases := s.phases[t := Idle]);
    if m !in s.owner {
      forall u | u in s.counts ensures |HeldBy(s.owner[m := t], u)| == |HeldBy(s.owner, u)| + if u == t then 1 else 0 {
        AcquiredHeld(s.owner, t, m, u);
      }
    } else {
      ReleaseBalancesExactly(idle, t);
    }
  }

  lemma UnlockKeeps(s: State, t: Thread, m: Mutex)
    requires Inv(s) && Enabled(s, Unlock(t, m)) && Proper(s, Unlock(t, m))
    ensures Inv(Apply(s, Unlock(t, m)))
  {
    var free := s.(owner := s.owner - {m});
    assert m in HeldBy(s.owner, t);
    ReleaseBalancesExactly(free, t);
    forall u | u in s.counts ensures |HeldBy(free.owner, u)| == |HeldBy(s.owner, u)| - if u == t then 1 else 0 {
      ReleasedHeld(s.owner, m, u);
    }
  }

  lemma StepKeeps(s: State, step: Step)
    requires Inv(s) && Enabled(s, step) && Proper(s, step)
    ensures Inv(Apply(s, step))
  {
    match step
    case Start(t) => StartKeeps(s, t);
    case End(t) => EndKeeps(s, t);
    case Begin(t, m, isTry) => BeginKeeps(s, t, m, isTry);
    case Acquire(t) => AcquireKeeps(s, t);
    case Unlock(t, m) => UnlockKeeps(s, t, m);
  }

  // ------------------------------------------------------------------ runs

  predicate IsRun(s: State, steps: seq<Step>)
    decreases |steps|
  {
    steps == [] || (Enabled(s, steps[0]) && Proper(s, steps[0]) && IsRun(Apply(s, steps[0]), steps[1..]))
  }

  function After(s: State, steps: seq<Step>): State
    requires IsRun(s, steps)
    decreases |steps|
  {
    if steps == [] then s else After(Apply(s, steps[0]), steps[1..])
  }

  const INITIAL := State(0, map[], map[], map[])

  lemma {:induction false} RunKeeps(s: State, steps: seq<Step>)
    requires Inv(s) && IsRun(s, steps)
    ensures Inv(After(s, steps))
    decreases |steps|
  {
    if steps != [] {
      StepKeeps(s, steps[0]);
      RunKeeps(Apply(s, steps[0]), steps[1..]);
    }
  }

  /** In every interleaving the semaphore and the threads that hold or wait for a lazy value make up
      the live threads, and no thread ever waits for the semaphore. */
  lemma SemaphoreNeverWaits(steps: seq<Step>, next: Step)
    requires IsRun(INITIAL, steps) && Proper(After(INITIAL, steps), next) && Takes(After(INITIAL, steps), next)
    ensures Balanced(After(INITIAL, steps)) && CanTake(After(INITIAL, steps)) && Enabled(After(INITIAL, steps), next)
  {
    var s := After(INITIAL, steps);
    assert Inv(INITIAL);
    RunKeeps(INITIAL, steps);
    IdleUnit(s, next.t);
  }

  // ------------------------------------------------------------------ error unwinding

  /** What an unwinding thread does for a recorded lazy value: it tries to lock it and unlocks it. */
  function UnwindSteps(t: Thread, m: Mutex): seq<Step> {
    [Begin(t, m, true), Acquire(t), Unlock(t, m)]
  }

  function AllUnwindSteps(t: Thread, refs: seq<Mutex>): seq<Step> {
    if refs == [] then [] else UnwindSteps(t, refs[0]) + AllUnwindSteps(t, refs[1..])
  }

  /** Trying to lock a mutex that one owns changes nothing. */
  lemma TryOwnedChangesNothing(s: State, t: Thread, m: Mutex)
    requires Inv(s) && IsIdle(s, t) && m in s.owner && s.owner[m] == t
    ensures Enabled(s, Begin(t, m, true)) && Enabled(Apply(s, Begin(t, m, true)), Acquire(t))
    ensures Apply(Apply(s, Begin(t, m, true)), Acquire(t)) == s
  {
    assert m in HeldBy(s.owner, t);
    var s2 := Apply(Apply(s, Begin(t, m, true)), Acquire(t));
    assert s2.counts == s.counts && s2.phases == s.phases;
  }

  lemma UnwindOne(s: State, t: Thread, m: Mutex, rest: seq<Step>)
    requires Inv(s) && IsIdle(s, t) && m in s.owner && s.owner[m] == t
    requires IsRun(Apply(s, Unlock(t, m)), rest)
    ensures IsRun(s, UnwindSteps(t, m) + rest)
    ensures After(s, UnwindSteps(t, m) + rest) == After(Apply(s, Unlock(t, m)), rest)
  {
    TryOwnedChangesNothing(s, t, m);
    hide *;
    RunCons(s, Unlock(t, m), rest);
    RunCons(Apply(s, Begin(t, m, true)), Acquire(t), [Unlock(t, m)] + rest);
    RunCons(s, Begin(t, m, true), [Acquire(t)] + ([Unlock(t, m)] + rest));
    UnwindStepsAre(t, m, rest);
    ProperUnwind(s, t, m);
  }

  lemma RunCons(s: State, step: Step, rest: seq<Step>)
    ensures IsRun(s, [step] + rest) <==> Enabled(s, step) && Proper(s, step) && IsRun(Apply(s, step), rest)
    ensures IsRun(s, [step] + rest) ==> After(s, [step] + rest) == After(Apply(s, step), rest)
  {
    assert ([step] + rest)[1..] == rest;
  }

  lemma UnwindStepsAre(t: Thread, m: Mutex, rest: seq<Step>)
    ensures UnwindSteps(t, m) + rest == [Begin(t, m, true)] + ([Acquire(t)] + ([Unlock(t, m)] + rest))
  {
  }

  lemma ProperUnwind(s: State, t: Thread, m: Mutex)
    requires IsIdle(s, t) && m in s.owner && s.owner[m] == t
    ensures Enabled(s, Unlock(t, m)) && Proper(s, Unlock(t, m)) && Proper(s, Begin(t, m, true))
    ensures forall u :: Proper(u, Acquire(t))
  {
  }

  lemma UnlockFrame(s: State, t: Thread, m: Mutex)
    requires Inv(s) && IsIdle(s, t) && m in s.owner && s.owner[m] == t
    ensures var s1 := Apply(s, Unlock(t, m));
            && Inv(s1) && s1.owner == s.owner - {m} && s1.phases == s.phases
            && t in s1.counts && s1.counts == s.counts[t := s1.counts[t]] && s1.counts[t] + 1 == s.counts[t]
  {
    assert m in HeldBy(s.owner, t);
    UnlockKeeps(s, t, m);
  }

  function Without(owner: map<Mutex, Thread>, refs: seq<Mutex>): map<Mutex, Thread> {
    map m | m in owner && m !in refs :: owner[m]
  }

  lemma WithoutNext(owner: map<Mutex, Thread>, refs: seq<Mutex>)
    requires refs != []
    ensures Without(owner - {refs[0]}, refs[1..]) == Without(owner, refs)
  {
    forall m ensures m in refs <==> m == refs[0] || m in refs[1..] {}
  }

  /** The recorded lazy values of a thread: it holds them, each once. */
  ghost predicate Recorded(s: State, t: Thread, refs: seq<Mutex>) {
    && (forall m :: m in refs ==> m in s.owner && s.owner[m] == t)
    && (forall j, k :: 0 <= j < k < |refs| ==> refs[j] != refs[k])
  }

  lemma RecordedRest(s: State, s1: State, t: Thread, refs: seq<Mutex>)
    requires refs != [] && Recorded(s, t, refs) && s1.owner == s.owner - {refs[0]}
    ensures Recorded(s1, t, refs[1..]) && refs[0] in s.owner && s.owner[refs[0]] == t
  {
    forall m | m in refs[1..] ensures m in s1.owner && s1.owner[m] == t {
      var k :| 0 <= k < |refs| - 1 && refs[1..][k] == m;
      assert refs[0] != refs[k + 1] && refs[k + 1] in refs;
    }
  }

  lemma AllUnwindStepsAre(t: Thread, refs: seq<Mutex>)
    requires refs != []
    ensures AllUnwindSteps(t, refs) == UnwindSteps(t, refs[0]) + AllUnwindSteps(t, refs[1..])
  {
  }

  lemma UnwindFirst(s: State, t: Thread, refs: seq<Mutex>)
    requires refs != [] && Inv(s) && IsIdle(s, t) && Recorded(s, t, refs)
    ensures refs[0] in s.owner && s.owner[refs[0]] == t && Enabled(s, Unlock(t, refs[0]))
    ensures var s1 := Apply(s, Unlock(t, refs[0]));
            && Inv(s1) && IsIdle(s1, t) && Recorded(s1, t, refs[1..])
            && s1.owner == s.owner - {refs[0]} && s1.phases == s.phases
            && t in s1.counts && s1.counts == s.counts[t := s1.counts[t]] && s1.counts[t] + 1 == s.counts[t]
  {
    RecordedRest(s, s.(owner := s.owner - {refs[0]}), t, refs);
    UnlockFrame(s, t, refs[0]);
    RecordedRest(s, Apply(s, Unlock(t, refs[0])), t, refs);
  }

  /** Of the mutexes of a thread some are released, and nothing else changes but its count and, if it
      then holds nothing more, its unit in the semaphore. */
  ghost predicate Unwound(s: State, s': State, t: Thread, refs: seq<Mutex>) {
    && Inv(s') && s'.owner == Without(s.owner, refs) && s'.phases == s.phases
    && t in s.counts && t in s'.counts && s'.counts == s.counts[t := s'.counts[t]] && s'.counts[t] + |refs| == s.counts[t]
  }

  lemma UnwoundNothing(s: State, t: Thread)
    requires Inv(s) && IsIdle(s, t)
    ensures Unwound(s, s, t, [])
  {
    assert s.counts[t := s.counts[t]] == s.counts;
    assert Without(s.owner, []) == s.owner;
  }

  lemma UnwoundNext(s: State, s1: State, s2: State, t: Thread, refs: seq<Mutex>)
    requires refs != [] && s1.owner == s.owner - {refs[0]} && s1.phases == s.phases
    requires t in s.counts && t in s1.counts && s1.counts == s.counts[t := s1.counts[t]] && s1.counts[t] + 1 == s.counts[t]
    requires Unwound(s1, s2, t, refs[1..])
    ensures Unwound(s, s2, t, refs)
  {
    hide Inv, Without;
    WithoutNext(s.owner, refs);
  }

  /** An unwinding thread releases exactly the recorded lazy values, which it holds. */
  lemma {:induction false} UnwindReleasesExactly(s: State, t: Thread, refs: seq<Mutex>)
    requires Inv(s) && IsIdle(s, t) && Recorded(s, t, refs)
    ensures IsRun(s, AllUnwindSteps(t, refs)) && Unwound(s, After(s, AllUnwindSteps(t, refs)), t, refs)
    decreases |refs|, 1
  {
    if refs == [] {
      UnwoundNothing(s, t);
    } else {
      UnwindMore(s, t, refs);
    }
  }

  lemma {:induction false} UnwindMore(s: State, t: Thread, refs: seq<Mutex>)
    requires refs != [] && Inv(s) && IsIdle(s, t) && Recorded(s, t, refs)
    ensures IsRun(s, AllUnwindSteps(t, refs)) && Unwound(s, After(s, AllUnwindSteps(t, refs)), t, refs)
    decreases |refs|, 0
  {
    hide *;
    UnwindFirst(s, t, refs);
    AllUnwindStepsAre(t, refs);
    var s1, rest := Apply(s, Unlock(t, refs[0])), AllUnwindSteps(t, refs[1..]);
    UnwindReleasesExactly(s1, t, refs[1..]);
    UnwindOne(s, t, refs[0], rest);
    IdleIsLive(s, t);
    UnwoundNext(s, s1, After(s1, rest), t, refs);
  }

  lemma IdleIsLive(s: State, t: Thread)
    requires IsIdle(s, t)
    ensures t in s.counts
  {
  }

  /** Unlocking a mutex that another thread owns, as an unwinding thread without locks would, takes
      it away from its owner and puts a unit too many into the semaphore. */
  lemma UnwindOfForeignLockBreaksBalance(s: State, t: Thread, m: Mutex)
    requires Inv(s) && IsIdle(s, t) && s.counts[t] == 0 && m in s.owner
    ensures !Balanced(Apply(s, Unlock(t, m)))
  {
    ReleaseBalancesExactly(s.(owner := s.owner - {m}), t);
  }
}