/** Stopping and continuing the threads of a machine around a marking pass: the signal handlers,
    the flag and the two semaphores of vm/thread_stop_cont.cpp, the locking of the thread
    contexts in vm/impl_gc_base.cpp and the interruptible regions of vm/vm.cpp. The protocol is a
    step system: any enabled step may come next, and memory is sequentially consistent. */
module StopTheWorld {

  /** Where a thread is in the handler of SIGUSR1; `App` is outside it. SIGUSR1 is blocked inside
      the handler, SIGUSR2 everywhere but in the suspension of the handler's loop. */
  datatype HandlerPc = App | HTest | HPost | HLoop | HSuspend | HCont | HReturn

  /** Where a thread is with respect to an interruptible function: the constructor and the
      destructor that surround it take the mutex of the thread's context to change its flag. */
  datatype Region = Outside | Entering | EnteringHeld | Inside | Leaving | LeavingHeld

  datatype Thread = Thread(
    registered: bool,                  // in the set of contexts of the collector
    alive: bool,                       // can be signalled
    pc: HandlerPc,
    region: Region,
    flag: bool,                        // the interruptible-function flag of its context
    usr1: bool, usr2: bool,            // pending signals; equal pending signals merge
    stops: nat,                        // how many cycles have stopped it
    stopPosts: nat, contPosts: nat)    // how often each semaphore was posted by it or for it

  /** What the collector is doing; the index is the position of its loop over the contexts. */
  datatype Phase =
    | Idle
    | Locking(k: nat)
    | Signalling(k: nat)
    | AwaitStop(k: nat)
    | Stopped
    | Resuming(k: nat)
    | AwaitCont(k: nat)
    | Unlocking(k: nat)

  datatype State = State(threads: seq<Thread>, phase: Phase, hasStopping: bool, stopSem: nat, contSem: nat)

  datatype Step =
    | Collector
    | Deliver(i: nat)
    | Handler(i: nat)
    | Enter(i: nat)
    | Acquire(i: nat)
    | Release(i: nat)
    | Leave(i: nat)
    | Register(i: nat)
    | Unregister(i: nat)
    | Die(i: nat)

  predicate IsTarget(t: Thread) {
    t.registered && !t.flag
  }

  predicate Holds(r: Region) {
    r.EnteringHeld? || r.LeavingHeld?
  }

  /** Whether the collector has the mutex of context `i`. */
  predicate CollectorHolds(t: Thread, phase: Phase, i: nat) {
    t.registered &&
    match phase
    case Idle => false
    case Locking(k) => i < k
    case Unlocking(k) => k <= i
    case _ => true
  }

  // ------------------------------------------------------------------ steps

  predicate CollectorEnabled(s: State) {
    match s.phase
    case Locking(k) => k < |s.threads| && s.threads[k].registered ==> !Holds(s.threads[k].region)
    case AwaitStop(k) => k < |s.threads| && IsTarget(s.threads[k]) ==> s.stopSem > 0
    case AwaitCont(k) => k < |s.threads| && IsTarget(s.threads[k]) ==> s.contSem > 0
    case _ => true
  }

  /** Sends SIGUSR1, or posts for a thread that cannot be signalled. */
  function SignalStop(s: State, k: nat): State
    requires k < |s.threads|
  {
    var t := s.threads[k];
    if !IsTarget(t) then s.(phase := Signalling(k + 1))
    else if t.alive then
      s.(phase := Signalling(k + 1), threads := s.threads[k := t.(usr1 := true, stops := t.stops + 1)])
    else
      s.(phase := Signalling(k + 1), stopSem := s.stopSem + 1,
         threads := s.threads[k := t.(stops := t.stops + 1, stopPosts := t.stopPosts + 1)])
  }

  function SignalCont(s: State, k: nat): State
    requires k < |s.threads|
  {
    var t := s.threads[k];
    if !IsTarget(t) then s.(phase := Resuming(k + 1))
    else if t.alive then s.(phase := Resuming(k + 1), threads := s.threads[k := t.(usr2 := true)])
    else
      s.(phase := Resuming(k + 1), contSem := s.contSem + 1,
         threads := s.threads[k := t.(contPosts := t.contPosts + 1)])
  }

  function CollectorStep(s: State): State
    requires CollectorEnabled(s)
  {
    var n := |s.threads|;
    match s.phase
    case Idle => s.(phase := Locking(0))
    case Locking(k) => if k < n then s.(phase := Locking(k + 1)) else s.(phase := Signalling(0), hasStopping := true)
    case Signalling(k) => if k < n then SignalStop(s, k) else s.(phase := AwaitStop(0))
    case AwaitStop(k) =>
      if k < n then s.(phase := AwaitStop(k + 1), stopSem := if IsTarget(s.threads[k]) then s.stopSem - 1 else s.stopSem)
      else s.(phase := Stopped)
    case Stopped => s.(phase := Resuming(0), hasStopping := false)
    case Resuming(k) => if k < n then SignalCont(s, k) else s.(phase := AwaitCont(0))
    case AwaitCont(k) =>
      if k < n then s.(phase := AwaitCont(k + 1), contSem := if IsTarget(s.threads[k]) then s.contSem - 1 else s.contSem)
      else s.(phase := Unlocking(0))
    case Unlocking(k) => if k < n then s.(phase := Unlocking(k + 1)) else s.(phase := Idle)
  }

  /** One step of the handler of SIGUSR1, as the thread itself sees it. */
  function Handled(t: Thread, hasStopping: bool): Thread {
    match t.pc
    case App => t
    case HTest => t.(pc := if hasStopping then HPost else HReturn)
    case HPost => t.(pc := HLoop, stopPosts := t.stopPosts + 1)
    case HLoop => t.(pc := if hasStopping then HSuspend else HCont)
    case HSuspend => t.(pc := HLoop, usr2 := false)
    case HCont => t.(pc := HReturn, contPosts := t.contPosts + 1)
    case HReturn => t.(pc := App)
  }

  function HandlerStep(s: State, i: nat): State
    requires i < |s.threads|
  {
    var t := s.threads[i];
    s.(threads := s.threads[i := Handled(t, s.hasStopping)],
       stopSem := if t.pc.HPost? then s.stopSem + 1 else s.stopSem,
       contSem := if t.pc.HCont? then s.contSem + 1 else s.contSem)
  }

  predicate Enabled(s: State, e: Step) {
    match e
    case Collector => CollectorEnabled(s)
    case Deliver(i) => i < |s.threads| && s.threads[i].alive && s.threads[i].pc.App? && s.threads[i].usr1
    case Handler(i) =>
      && i < |s.threads| && s.threads[i].alive && !s.threads[i].pc.App?
      && (s.threads[i].pc.HSuspend? ==> s.threads[i].usr2)
    case Enter(i) => Runs(s, i) && s.threads[i].region.Outside?
    case Acquire(i) => Runs(s, i) && (s.threads[i].region.Entering? || s.threads[i].region.Leaving?) && !CollectorHolds(s.threads[i], s.phase, i)
    case Release(i) => Runs(s, i) && Holds(s.threads[i].region)
    case Leave(i) => Runs(s, i) && s.threads[i].region.Inside?
    case Register(i) => s.phase.Idle? && Runs(s, i) && s.threads[i].region.Outside? && !s.threads[i].registered
    case Unregister(i) => s.phase.Idle? && Runs(s, i) && s.threads[i].region.Outside? && s.threads[i].registered
    case Die(i) => Runs(s, i) && s.threads[i].region.Outside? && (s.phase.Idle? || !s.threads[i].registered)
  }

  /** The thread executes its own code, not a signal handler. */
  predicate Runs(s: State, i: nat) {
    i < |s.threads| && s.threads[i].alive && s.threads[i].pc.App?
  }

  function Apply(s: State, e: Step): State
    requires Enabled(s, e)
  {
    match e
    case Collector => CollectorStep(s)
    case Deliver(i) => s.(threads := s.threads[i := s.threads[i].(pc := HTest, usr1 := false)])
    case Handler(i) => HandlerStep(s, i)
    case Enter(i) => s.(threads := s.threads[i := s.threads[i].(region := Entering)])
    case Acquire(i) =>
      s.(threads := s.threads[i := s.threads[i].(region := if s.threads[i].region.Entering? then EnteringHeld else LeavingHeld)])
    case Release(i) =>
      var entering := s.threads[i].region.EnteringHeld?;
      s.(threads := s.threads[i := s.threads[i].(region := if entering then Inside else Outside, flag := entering)])
    case Leave(i) => s.(threads := s.threads[i := s.threads[i].(region := Leaving)])
    case Register(i) => s.(threads := s.threads[i := s.threads[i].(registered := true)])
    case Unregister(i) => s.(threads := s.threads[i := s.threads[i].(registered := false)])
    case Die(i) => s.(threads := s.threads[i := s.threads[i].(alive := false)])
  }

  predicate Init(s: State) {
    && s.phase.Idle? && !s.hasStopping && s.stopSem == 0 && s.contSem == 0
    && forall i :: 0 <= i < |s.threads| ==>
         var t := s.threads[i];
         && t.alive && t.pc.App? && t.region.Outside? && !t.flag && !t.usr1
         && t.stops == 0 && t.stopPosts == 0 && t.contPosts == 0
  }

  predicate Run(s: State, steps: seq<Step>)
    decreases |steps|
  {
    steps == [] || (Enabled(s, steps[0]) && Run(Apply(s, steps[0]), steps[1..]))
  }

  function End(s: State, steps: seq<Step>): State
    requires Run(s, steps)
    decreases |steps|
  {
    if steps == [] then s else End(Apply(s, steps[0]), steps[1..])
  }

  // ------------------------------------------------------------------ counting

  function Count(bs: seq<bool>): nat {
    if bs == [] then 0 else Count(bs[..|bs| - 1]) + if bs[|bs| - 1] then 1 else 0
  }

  lemma {:induction false} CountUpdate(bs: seq<bool>, i: nat, b: bool)
    requires i < |bs|
    ensures Count(bs[i := b]) + (if bs[i] then 1 else 0) == Count(bs) + if b then 1 else 0
  {
    var bs', last := bs[i := b], |bs| - 1;
    if i < last {
      CountUpdate(bs[..last], i, b);
      assert bs'[..last] == bs[..last][i := b];
    } else {
      assert bs'[..last] == bs[..last];
    }
  }

  lemma {:induction false} CountBelow(a: seq<bool>, b: seq<bool>)
    requires |a| == |b| && forall i :: 0 <= i < |a| && a[i] ==> b[i]
    ensures Count(a) <= Count(b)
    ensures Count(a) == Count(b) ==> a == b
  {
    if a != [] {
      var last := |a| - 1;
      CountBelow(a[..last], b[..last]);
      assert a == a[..last] + [a[last]] && b == b[..last] + [b[last]];
    }
  }

  lemma {:induction false} CountPrefix(bs: seq<bool>, k: nat)
    requires k <= |bs|
    ensures Count(bs[..k]) <= Count(bs)
    ensures k < |bs| && bs[k] ==> Count(bs[..k]) < Count(bs)
    decreases |bs|
  {
    if k < |bs| {
      CountPrefix(bs[..|bs| - 1], k);
      assert bs[..|bs| - 1][..k] == bs[..k];
    } else {
      assert bs[..k] == bs;
    }
  }

  lemma CountStep(bs: seq<bool>, k: nat)
    requires k < |bs|
    ensures Count(bs[..k + 1]) == Count(bs[..k]) + if bs[k] then 1 else 0
  {
    assert bs[..k + 1][..k] == bs[..k];
  }

  lemma {:induction false} CountNone(bs: seq<bool>)
    requires forall i :: 0 <= i < |bs| ==> !bs[i]
    ensures Count(bs) == 0
  {
    if bs != [] {
      CountNone(bs[..|bs| - 1]);
    }
  }

  // ------------------------------------------------------------------ the invariant

  function Targets(ts: seq<Thread>): (r: seq<bool>)
    ensures |r| == |ts| && forall i :: 0 <= i < |r| ==> r[i] == IsTarget(ts[i])
  {
    seq(|ts|, i requires 0 <= i < |ts| => IsTarget(ts[i]))
  }

  /** Context `i` has been sent SIGUSR1, respectively SIGUSR2, in the current cycle. */
  predicate StopSent(phase: Phase, i: nat) {
    match phase
    case Signalling(k) => i < k
    case AwaitStop(_) => true
    case Stopped => true
    case Resuming(_) => true
    case AwaitCont(_) => true
    case _ => false
  }

  predicate ContSent(phase: Phase, i: nat) {
    match phase
    case Resuming(k) => i < k
    case AwaitCont(_) => true
    case _ => false
  }

  /** The stopping semaphore has been posted for this target in the current cycle. */
  predicate StopPosted(t: Thread, phase: Phase, i: nat) {
    IsTarget(t) && if t.alive then t.pc.HLoop? || t.pc.HSuspend? else StopSent(phase, i)
  }

  predicate ContPosted(t: Thread, phase: Phase, i: nat) {
    IsTarget(t) && if t.alive then t.pc.HReturn? || t.pc.App? else ContSent(phase, i)
  }

  function StopPosts(ts: seq<Thread>, phase: Phase): (r: seq<bool>)
    ensures |r| == |ts| && forall i :: 0 <= i < |r| ==> r[i] == StopPosted(ts[i], phase, i)
  {
    seq(|ts|, i requires 0 <= i < |ts| => StopPosted(ts[i], phase, i))
  }

  function ContPosts(ts: seq<Thread>, phase: Phase): (r: seq<bool>)
    ensures |r| == |ts| && forall i :: 0 <= i < |r| ==> r[i] == ContPosted(ts[i], phase, i)
  {
    seq(|ts|, i requires 0 <= i < |ts| => ContPosted(ts[i], phase, i))
  }

  /** Nothing of the protocol is going on in this thread. A SIGUSR2 may still be pending. */
  predicate Quiet(t: Thread) {
    !t.usr1 && (t.pc.App? || t.pc.HReturn?)
  }

  predicate OnItsWayToStop(t: Thread) {
    if t.usr1 then t.pc.App? || t.pc.HReturn? else t.pc.HTest? || t.pc.HPost? || t.pc.HLoop? || t.pc.HSuspend?
  }

  predicate OnItsWayBack(t: Thread) {
    !t.usr1 && !t.pc.HTest? && !t.pc.HPost?
  }

  /** What a signallable target of the current cycle is doing, phase by phase. Once the cycle
      has sent it SIGUSR2, a suspended thread has that signal pending: the wake-up is not lost. */
  predicate TargetOk(t: Thread, phase: Phase, i: nat) {
    match phase
    case Signalling(k) => if i < k then OnItsWayToStop(t) else Quiet(t)
    case AwaitStop(_) => OnItsWayToStop(t)
    case Stopped => !t.usr1 && (t.pc.HLoop? || t.pc.HSuspend?)
    case Resuming(k) => OnItsWayBack(t) && (i < k && t.pc.HSuspend? ==> t.usr2)
    case AwaitCont(_) => OnItsWayBack(t) && (t.pc.HSuspend? ==> t.usr2)
    case _ => Quiet(t)
  }

  /** The thread has been stopped once more than the semaphore has been posted for it. */
  predicate OwesStop(t: Thread, phase: Phase, i: nat) {
    IsTarget(t) && StopSent(phase, i) && (phase.Signalling? || phase.AwaitStop?) && !StopPosted(t, phase, i)
  }

  predicate OwesCont(t: Thread, phase: Phase, i: nat) {
    IsTarget(t) && StopSent(phase, i) && ((phase.Resuming? || phase.AwaitCont?) ==> !ContPosted(t, phase, i))
  }

  predicate ThreadOk(t: Thread, phase: Phase, i: nat) {
    && (t.flag <==> t.region.Inside? || t.region.Leaving? || t.region.LeavingHeld?)
    && (CollectorHolds(t, phase, i) ==> !Holds(t.region))
    && (!t.alive ==> Quiet(t) && t.pc.App? && t.region.Outside?)
    && (if IsTarget(t) && t.alive then TargetOk(t, phase, i) else Quiet(t))
    && t.stops == t.stopPosts + (if OwesStop(t, phase, i) then 1 else 0)
    && t.stops == t.contPosts + (if OwesCont(t, phase, i) then 1 else 0)
  }

  predicate StopSemOk(s: State) {
    match s.phase
    case Signalling(_) => s.stopSem == Count(StopPosts(s.threads, s.phase))
    case AwaitStop(k) => k <= |s.threads| && s.stopSem + Count(Targets(s.threads)[..k]) == Count(StopPosts(s.threads, s.phase))
    case _ => s.stopSem == 0
  }

  predicate ContSemOk(s: State) {
    match s.phase
    case Resuming(_) => s.contSem == Count(ContPosts(s.threads, s.phase))
    case AwaitCont(k) => k <= |s.threads| && s.contSem + Count(Targets(s.threads)[..k]) == Count(ContPosts(s.threads, s.phase))
    case _ => s.contSem == 0
  }

  predicate PhaseOk(s: State) {
    && (s.hasStopping <==> s.phase.Signalling? || s.phase.AwaitStop? || s.phase.Stopped?)
    && match s.phase
       case Locking(k) => k <= |s.threads|
       case Signalling(k) => k <= |s.threads|
       case Resuming(k) => k <= |s.threads|
       case Unlocking(k) => k <= |s.threads|
       case _ => true
  }

  predicate ThreadsOk(ts: seq<Thread>, phase: Phase) {
    forall i :: 0 <= i < |ts| ==> ThreadOk(ts[i], phase, i)
  }

  predicate Inv(s: State) {
    PhaseOk(s) && StopSemOk(s) && ContSemOk(s) && ThreadsOk(s.threads, s.phase)
  }

  lemma InitInv(s: State)
    requires Init(s)
    ensures Inv(s)
  {
  }

  // ------------------------------------------------------------------ steps of threads

  /** When one thread changes, both tables of posts change at that thread only. */
  lemma StopPostsUpdate(ts: seq<Thread>, phase: Phase, i: nat, t: Thread)
    requires i < |ts|
    ensures Count(StopPosts(ts[i := t], phase)) + (if StopPosted(ts[i], phase, i) then 1 else 0)
         == Count(StopPosts(ts, phase)) + if StopPosted(t, phase, i) then 1 else 0
  {
    assert StopPosts(ts[i := t], phase) == StopPosts(ts, phase)[i := StopPosted(t, phase, i)];
    CountUpdate(StopPosts(ts, phase), i, StopPosted(t, phase, i));
  }

  lemma ContPostsUpdate(ts: seq<Thread>, phase: Phase, i: nat, t: Thread)
    requires i < |ts|
    ensures Count(ContPosts(ts[i := t], phase)) + (if ContPosted(ts[i], phase, i) then 1 else 0)
         == Count(ContPosts(ts, phase)) + if ContPosted(t, phase, i) then 1 else 0
  {
    assert ContPosts(ts[i := t], phase) == ContPosts(ts, phase)[i := ContPosted(t, phase, i)];
    CountUpdate(ContPosts(ts, phase), i, ContPosted(t, phase, i));
  }

  lemma TargetsUpdate(ts: seq<Thread>, i: nat, t: Thread)
    requires i < |ts| && IsTarget(t) == IsTarget(ts[i])
    ensures Targets(ts[i := t]) == Targets(ts)
  {
  }

  /** A step of one thread keeps the invariant when it keeps that thread in order and posts what
      it says it posts. */
  lemma OneThread(s: State, i: nat, t: Thread, stops: nat, conts: nat)
    requires Inv(s) && i < |s.threads|
    requires ThreadOk(t, s.phase, i)
    requires (s.phase.Signalling? || s.phase.AwaitStop? || s.phase.Resuming? || s.phase.AwaitCont?) ==> IsTarget(t) == IsTarget(s.threads[i])
    requires (s.phase.Signalling? || s.phase.AwaitStop?)
             ==> stops + (if StopPosted(s.threads[i], s.phase, i) then 1 else 0) == if StopPosted(t, s.phase, i) then 1 else 0
    requires !(s.phase.Signalling? || s.phase.AwaitStop?) ==> stops == 0
    requires (s.phase.Resuming? || s.phase.AwaitCont?)
             ==> conts + (if ContPosted(s.threads[i], s.phase, i) then 1 else 0) == if ContPosted(t, s.phase, i) then 1 else 0
    requires !(s.phase.Resuming? || s.phase.AwaitCont?) ==> conts == 0
    ensures Inv(s.(threads := s.threads[i := t], stopSem := s.stopSem + stops, contSem := s.contSem + conts))
  {
    hide ThreadOk, StopPosted, ContPosted;
    StopPostsUpdate(s.threads, s.phase, i, t);
    ContPostsUpdate(s.threads, s.phase, i, t);
    if IsTarget(t) == IsTarget(s.threads[i]) {
      TargetsUpdate(s.threads, i, t);
    }
  }

  lemma HandledInOrder(t: Thread, phase: Phase, hasStopping: bool, i: nat)
    requires ThreadOk(t, phase, i) && t.alive && !t.pc.App? && (t.pc.HSuspend? ==> t.usr2)
    requires hasStopping <==> phase.Signalling? || phase.AwaitStop? || phase.Stopped?
    ensures ThreadOk(Handled(t, hasStopping), phase, i)
    ensures t.pc.HPost? ==> phase.Signalling? || phase.AwaitStop?
    ensures t.pc.HCont? ==> phase.Resuming? || phase.AwaitCont?
  {
  }

  /** What a step of the handler posts, and that it changes nothing else that counts. */
  lemma HandledPosts(t: Thread, phase: Phase, hasStopping: bool, i: nat)
    requires ThreadOk(t, phase, i) && t.alive && !t.pc.App? && (t.pc.HSuspend? ==> t.usr2)
    requires hasStopping <==> phase.Signalling? || phase.AwaitStop? || phase.Stopped?
    ensures IsTarget(Handled(t, hasStopping)) == IsTarget(t)
    ensures phase.Signalling? || phase.AwaitStop? ==>
              (if t.pc.HPost? then 1 else 0) + (if StopPosted(t, phase, i) then 1 else 0)
              == if StopPosted(Handled(t, hasStopping), phase, i) then 1 else 0
    ensures phase.Resuming? || phase.AwaitCont? ==>
              (if t.pc.HCont? then 1 else 0) + (if ContPosted(t, phase, i) then 1 else 0)
              == if ContPosted(Handled(t, hasStopping), phase, i) then 1 else 0
  {
  }

  lemma HandlerKeepsInv(s: State, i: nat)
    requires Inv(s) && Enabled(s, Handler(i))
    ensures Inv(Apply(s, Handler(i)))
  {
    var t, t' := s.threads[i], Handled(s.threads[i], s.hasStopping);
    assert ThreadOk(t, s.phase, i);
    HandledInOrder(t, s.phase, s.hasStopping, i);
    HandledPosts(t, s.phase, s.hasStopping, i);
    hide ThreadOk, StopPosted, ContPosted, Handled;
    OneThread(s, i, t', if t.pc.HPost? then 1 else 0, if t.pc.HCont? then 1 else 0);
    assert Apply(s, Handler(i)) == HandlerStep(s, i);
  }

  lemma DeliverKeepsInv(s: State, i: nat)
    requires Inv(s) && Enabled(s, Deliver(i))
    ensures Inv(Apply(s, Deliver(i)))
  {
    var t := s.threads[i];
    assert ThreadOk(t, s.phase, i);
    OneThread(s, i, t.(pc := HTest, usr1 := false), 0, 0);
  }

  lemma RegionStepKeepsInv(s: State, e: Step)
    requires Inv(s) && Enabled(s, e) && (e.Enter? || e.Acquire? || e.Release? || e.Leave?)
    ensures Inv(Apply(s, e))
  {
    RegionStepThread(s, e);
    hide ThreadOk, StopPosted, ContPosted;
    OneThread(s, e.i, Apply(s, e).threads[e.i], 0, 0);
  }

  /** A step into or out of an interruptible region; the collector holds the mutex of the context
      while it counts. */
  lemma RegionStepThread(s: State, e: Step)
    requires ThreadsOk(s.threads, s.phase) && Enabled(s, e) && (e.Enter? || e.Acquire? || e.Release? || e.Leave?)
    ensures var t, t' := s.threads[e.i], Apply(s, e).threads[e.i];
            ThreadOk(t', s.phase, e.i)
    ensures var t, t' := s.threads[e.i], Apply(s, e).threads[e.i];
            s.phase.Signalling? || s.phase.AwaitStop? || s.phase.Resuming? || s.phase.AwaitCont? ==>
              IsTarget(t') == IsTarget(t) && StopPosted(t', s.phase, e.i) == StopPosted(t, s.phase, e.i)
              && ContPosted(t', s.phase, e.i) == ContPosted(t, s.phase, e.i)
  {
    assert ThreadOk(s.threads[e.i], s.phase, e.i);
  }

  lemma IdleStepKeepsInv(s: State, e: Step)
    requires Inv(s) && Enabled(s, e) && (e.Register? || e.Unregister? || e.Die?)
    ensures Inv(Apply(s, e))
  {
    var t := s.threads[e.i];
    assert ThreadOk(t, s.phase, e.i);
    OneThread(s, e.i, Apply(s, e).threads[e.i], 0, 0);
  }

  // ------------------------------------------------------------------ steps of the collector

  /** Moving to a phase in which every thread is in order too. */
  lemma SignalKeepsInv(s: State, k: nat)
    requires Inv(s) && s.phase == Signalling(k) && k < |s.threads|
    ensures Inv(SignalStop(s, k))
  {
    var ts, s' := s.threads, SignalStop(s, k);
    StopSignalled(s, k);
    hide Targets;
    assert s'.threads == ts[k := s'.threads[k]];
    assert StopPosts(s'.threads, s'.phase) == StopPosts(ts, s.phase)[k := StopPosted(s'.threads[k], s'.phase, k)];
    CountUpdate(StopPosts(ts, s.phase), k, StopPosted(s'.threads[k], s'.phase, k));
    forall j | 0 <= j < |ts| ensures ThreadOk(s'.threads[j], s'.phase, j) {
      if j != k { SignalsElsewhere(ts[j], k, j); }
    }
    hide ThreadOk;
  }

  lemma SignalsElsewhere(t: Thread, k: nat, j: nat)
    requires j != k
    ensures ThreadOk(t, Signalling(k), j) <==> ThreadOk(t, Signalling(k + 1), j)
    ensures ThreadOk(t, Resuming(k), j) <==> ThreadOk(t, Resuming(k + 1), j)
  {
  }

  lemma StopSignalled(s: State, k: nat)
    requires Inv(s) && s.phase == Signalling(k) && k < |s.threads|
    ensures ThreadOk(SignalStop(s, k).threads[k], Signalling(k + 1), k)
  {
    assert ThreadOk(s.threads[k], s.phase, k);
  }

  lemma ContSignalled(s: State, k: nat)
    requires Inv(s) && s.phase == Resuming(k) && k < |s.threads|
    ensures ThreadOk(SignalCont(s, k).threads[k], Resuming(k + 1), k)
  {
    assert ThreadOk(s.threads[k], s.phase, k);
  }

  lemma AwaitsAlikeAt(t: Thread, k: nat, k': nat, i: nat)
    ensures ThreadOk(t, AwaitStop(k), i) <==> ThreadOk(t, AwaitStop(k'), i)
    ensures ThreadOk(t, AwaitCont(k), i) <==> ThreadOk(t, AwaitCont(k'), i)
  {
  }

  lemma SignalContKeepsInv(s: State, k: nat)
    requires Inv(s) && s.phase == Resuming(k) && k < |s.threads|
    ensures Inv(SignalCont(s, k))
  {
    var ts, s' := s.threads, SignalCont(s, k);
    ContSignalled(s, k);
    assert s'.threads == ts[k := s'.threads[k]];
    assert ContPosts(s'.threads, s'.phase) == ContPosts(ts, s.phase)[k := ContPosted(s'.threads[k], s'.phase, k)];
    CountUpdate(ContPosts(ts, s.phase), k, ContPosted(s'.threads[k], s'.phase, k));
    forall j | 0 <= j < |ts| ensures ThreadOk(s'.threads[j], s'.phase, j) {
      if j != k { SignalsElsewhere(ts[j], k, j); }
    }
  }

  /** The collector has waited once for every target: each has posted exactly once, and nothing
      is left in the semaphore. */
  lemma AllStopsCollected(s: State)
    requires Inv(s) && s.phase == AwaitStop(|s.threads|)
    ensures s.stopSem == 0
    ensures forall i :: 0 <= i < |s.threads| && IsTarget(s.threads[i]) ==> StopPosted(s.threads[i], s.phase, i)
  {
    var ts := s.threads;
    assert Targets(ts)[..|ts|] == Targets(ts);
    CountBelow(StopPosts(ts, s.phase), Targets(ts));
    assert StopPosts(ts, s.phase) == Targets(ts);
    forall i | 0 <= i < |ts| && IsTarget(ts[i]) ensures StopPosted(ts[i], s.phase, i) {
      assert Targets(ts)[i] && StopPosts(ts, s.phase)[i];
    }
  }

  lemma AllContsCollected(s: State)
    requires Inv(s) && s.phase == AwaitCont(|s.threads|)
    ensures s.contSem == 0
    ensures forall i :: 0 <= i < |s.threads| && IsTarget(s.threads[i]) ==> ContPosted(s.threads[i], s.phase, i)
  {
    var ts := s.threads;
    assert Targets(ts)[..|ts|] == Targets(ts);
    CountBelow(ContPosts(ts, s.phase), Targets(ts));
    assert ContPosts(ts, s.phase) == Targets(ts);
    forall i | 0 <= i < |ts| && IsTarget(ts[i]) ensures ContPosted(ts[i], s.phase, i) {
      assert Targets(ts)[i] && ContPosts(ts, s.phase)[i];
    }
  }

  lemma AwaitsAlike(ts: seq<Thread>, k: nat, k': nat)
    requires ThreadsOk(ts, AwaitStop(k)) || ThreadsOk(ts, AwaitCont(k))
    ensures ThreadsOk(ts, AwaitStop(k)) ==> ThreadsOk(ts, AwaitStop(k')) && StopPosts(ts, AwaitStop(k')) == StopPosts(ts, AwaitStop(k))
    ensures ThreadsOk(ts, AwaitCont(k)) ==> ThreadsOk(ts, AwaitCont(k')) && ContPosts(ts, AwaitCont(k')) == ContPosts(ts, AwaitCont(k))
  {
    hide ThreadOk;
    forall i | 0 <= i < |ts|
      ensures ThreadOk(ts[i], AwaitStop(k), i) <==> ThreadOk(ts[i], AwaitStop(k'), i)
      ensures ThreadOk(ts[i], AwaitCont(k), i) <==> ThreadOk(ts[i], AwaitCont(k'), i)
    {
      AwaitsAlikeAt(ts[i], k, k', i);
    }
  }

  lemma StopWaitKeepsInv(s: State)
    requires Inv(s) && CollectorEnabled(s) && s.phase.AwaitStop? && s.phase.k < |s.threads|
    ensures Inv(CollectorStep(s))
  {
    hide ThreadsOk, StopPosts, Targets;
    CountStep(Targets(s.threads), s.phase.k);
    AwaitsAlike(s.threads, s.phase.k, s.phase.k + 1);
  }

  lemma ContWaitKeepsInv(s: State)
    requires Inv(s) && CollectorEnabled(s) && s.phase.AwaitCont? && s.phase.k < |s.threads|
    ensures Inv(CollectorStep(s))
  {
    hide ThreadsOk, ContPosts, Targets;
    CountStep(Targets(s.threads), s.phase.k);
    AwaitsAlike(s.threads, s.phase.k, s.phase.k + 1);
  }

  lemma LockOrUnlockKeepsInv(s: State)
    requires Inv(s) && CollectorEnabled(s)
    requires s.phase.Idle? || (s.phase.Locking? && s.phase.k < |s.threads|) || s.phase.Unlocking?
    ensures Inv(CollectorStep(s))
  {
    var s' := CollectorStep(s);
    forall j | 0 <= j < |s.threads| ensures ThreadOk(s'.threads[j], s'.phase, j) {
      assert ThreadOk(s.threads[j], s.phase, j);
    }
  }

  lemma StartStopKeepsInv(s: State)
    requires Inv(s) && s.phase == Locking(|s.threads|)
    ensures Inv(CollectorStep(s))
  {
    var s' := CollectorStep(s);
    forall j | 0 <= j < |s.threads|
      ensures ThreadOk(s'.threads[j], s'.phase, j) && !StopPosted(s'.threads[j], s'.phase, j)
    {
      assert ThreadOk(s.threads[j], s.phase, j);
    }
    CountNone(StopPosts(s'.threads, s'.phase));
  }

  lemma StartContKeepsInv(s: State)
    requires Inv(s) && s.phase.Stopped?
    ensures Inv(CollectorStep(s))
  {
    var s' := CollectorStep(s);
    forall j | 0 <= j < |s.threads|
      ensures ThreadOk(s'.threads[j], s'.phase, j) && !ContPosted(s'.threads[j], s'.phase, j)
    {
      assert ThreadOk(s.threads[j], s.phase, j);
    }
    CountNone(ContPosts(s'.threads, s'.phase));
  }

  lemma StartWaitKeepsInv(s: State)
    requires Inv(s) && (s.phase == Signalling(|s.threads|) || s.phase == Resuming(|s.threads|))
    ensures Inv(CollectorStep(s))
  {
    var ts, s' := s.threads, CollectorStep(s);
    assert Targets(ts)[..0] == [];
    assert StopPosts(ts, s'.phase) == StopPosts(ts, s.phase);
    assert ContPosts(ts, s'.phase) == ContPosts(ts, s.phase);
    forall j | 0 <= j < |ts| ensures ThreadOk(ts[j], s'.phase, j) {
      assert ThreadOk(ts[j], s.phase, j);
    }
  }

  lemma EndWaitKeepsInv(s: State)
    requires Inv(s) && (s.phase == AwaitStop(|s.threads|) || s.phase == AwaitCont(|s.threads|))
    ensures Inv(CollectorStep(s))
  {
    var ts, s' := s.threads, CollectorStep(s);
    if s.phase.AwaitStop? {
      AllStopsCollected(s);
    } else {
      AllContsCollected(s);
    }
    forall j | 0 <= j < |ts| ensures ThreadOk(ts[j], s'.phase, j) {
      assert ThreadOk(ts[j], s.phase, j);
    }
  }

  lemma CollectorKeepsInv(s: State)
    requires Inv(s) && CollectorEnabled(s)
    ensures Inv(CollectorStep(s))
  {
    match s.phase {
      case Idle => LockOrUnlockKeepsInv(s);
      case Locking(k) => if k < |s.threads| { LockOrUnlockKeepsInv(s); } else { StartStopKeepsInv(s); }
      case Signalling(k) => if k < |s.threads| { SignalKeepsInv(s, k); } else { StartWaitKeepsInv(s); }
      case AwaitStop(k) => if k < |s.threads| { StopWaitKeepsInv(s); } else { EndWaitKeepsInv(s); }
      case Stopped => StartContKeepsInv(s);
      case Resuming(k) => if k < |s.threads| { SignalContKeepsInv(s, k); } else { StartWaitKeepsInv(s); }
      case AwaitCont(k) => if k < |s.threads| { ContWaitKeepsInv(s); } else { EndWaitKeepsInv(s); }
      case Unlocking(_) => LockOrUnlockKeepsInv(s);
    }
  }

  lemma StepKeepsInv(s: State, e: Step)
    requires Inv(s) && Enabled(s, e)
    ensures Inv(Apply(s, e))
  {
    match e {
      case Collector => CollectorKeepsInv(s);
      case Deliver(i) => DeliverKeepsInv(s, i);
      case Handler(i) => HandlerKeepsInv(s, i);
      case Enter(_) => RegionStepKeepsInv(s, e);
      case Acquire(_) => RegionStepKeepsInv(s, e);
      case Release(_) => RegionStepKeepsInv(s, e);
      case Leave(_) => RegionStepKeepsInv(s, e);
      case Register(_) => IdleStepKeepsInv(s, e);
      case Unregister(_) => IdleStepKeepsInv(s, e);
      case Die(_) => IdleStepKeepsInv(s, e);
    }
  }

  lemma {:induction false} RunKeepsInv(s: State, steps: seq<Step>)
    requires Inv(s) && Run(s, steps)
    ensures Inv(End(s, steps))
    decreases |steps|
  {
    if steps != [] {
      StepKeepsInv(s, steps[0]);
      RunKeepsInv(Apply(s, steps[0]), steps[1..]);
    }
  }

  // ------------------------------------------------------------------ safety

  /** The thread executes none of its own code, or is inside an interruptible function. */
  predicate Suspended(t: Thread) {
    t.pc.HLoop? || t.pc.HSuspend?
  }

  predicate InInterruptibleRegion(t: Thread) {
    t.flag && (t.region.Inside? || t.region.Leaving?)
  }

  /** Stop-the-world safety. In every interleaving, from the moment the locking of the threads
      returns until it is undone, each registered thread that can be signalled is suspended in
      the handler's loop or inside an interruptible region. */
  lemma WorldIsStopped(s: State, steps: seq<Step>)
    requires Init(s) && Run(s, steps) && End(s, steps).phase.Stopped?
    ensures forall i :: 0 <= i < |End(s, steps).threads| ==>
              var t := End(s, steps).threads[i];
              t.registered && t.alive ==> Suspended(t) || InInterruptibleRegion(t)
  {
    InitInv(s);
    RunKeepsInv(s, steps);
    forall i | 0 <= i < |End(s, steps).threads|
      ensures var t := End(s, steps).threads[i];
              t.registered && t.alive ==> Suspended(t) || InInterruptibleRegion(t)
    {
      assert ThreadOk(End(s, steps).threads[i], End(s, steps).phase, i);
    }
  }

  /** While the world is stopped no step but the collector's lets a thread out: a suspended one
      stays suspended, and one in an interruptible region stays in it. */
  lemma NobodyGetsOut(s: State, e: Step, i: nat)
    requires Inv(s) && s.phase.Stopped? && Enabled(s, e) && !e.Collector?
    requires i < |s.threads| && s.threads[i].registered && s.threads[i].alive
    ensures Apply(s, e).phase.Stopped?
    ensures Suspended(s.threads[i]) && !s.threads[i].flag ==> Suspended(Apply(s, e).threads[i])
    ensures InInterruptibleRegion(s.threads[i]) ==> InInterruptibleRegion(Apply(s, e).threads[i])
  {
    assert ThreadOk(s.threads[i], s.phase, i);
  }

  // ------------------------------------------------------------------ conservation

  /** Over any number of cycles: whenever the collector is idle, both semaphores are zero, and
      each has been posted for each thread exactly as often as a cycle has stopped it. */
  lemma SemaphoresAreConserved(s: State, steps: seq<Step>)
    requires Init(s) && Run(s, steps) && (End(s, steps).phase.Idle? || End(s, steps).phase.Unlocking?)
    ensures End(s, steps).stopSem == 0 && End(s, steps).contSem == 0
    ensures forall i :: 0 <= i < |End(s, steps).threads| ==>
              var t := End(s, steps).threads[i];
              t.stopPosts == t.stops && t.contPosts == t.stops
  {
    InitInv(s);
    RunKeepsInv(s, steps);
    forall i | 0 <= i < |End(s, steps).threads|
      ensures var t := End(s, steps).threads[i]; t.stopPosts == t.stops && t.contPosts == t.stops
    {
      assert ThreadOk(End(s, steps).threads[i], End(s, steps).phase, i);
    }
  }

  // ------------------------------------------------------------------ progress

  /** The steps the protocol itself takes. */
  predicate IsProtocolStep(s: State, e: Step) {
    (e.Collector? && !s.phase.Idle?) || e.Deliver? || e.Handler?
  }

  lemma {:induction false} CountWitness(a: seq<bool>, b: seq<bool>) returns (i: nat)
    requires |a| == |b| && Count(a) < Count(b)
    ensures i < |a| && !a[i] && b[i]
  {
    if forall j :: 0 <= j < |a| && b[j] ==> a[j] {
      CountBelow(b, a);
    }
    i :| 0 <= i < |a| && b[i] && !a[i];
  }

  /** A waiting collector never waits in vain for a stop: some target has its signal pending or
      is on its way through the handler. */
  lemma StopWaitProgress(s: State) returns (e: Step)
    requires Inv(s) && s.phase.AwaitStop? && !CollectorEnabled(s)
    ensures IsProtocolStep(s, e) && Enabled(s, e)
  {
    var ts := s.threads;
    CountPrefix(Targets(ts), s.phase.k);
    var i := CountWitness(StopPosts(ts, s.phase), Targets(ts));
    assert ThreadOk(ts[i], s.phase, i);
    e := if ts[i].pc.App? then Deliver(i) else Handler(i);
  }

  lemma ContWaitProgress(s: State) returns (e: Step)
    requires Inv(s) && s.phase.AwaitCont? && !CollectorEnabled(s)
    ensures IsProtocolStep(s, e) && Enabled(s, e)
  {
    var ts := s.threads;
    CountPrefix(Targets(ts), s.phase.k);
    var i := CountWitness(ContPosts(ts, s.phase), Targets(ts));
    assert ThreadOk(ts[i], s.phase, i);
    e := Handler(i);
  }

  /** No lost wake-up and no deadlock: whenever a cycle is under way, some step of the protocol
      is enabled, or the collector waits for the mutex of a context whose thread is about to
      release it and can. Stale and merged SIGUSR2 signals make no difference. */
  lemma SomeStepIsEnabled(s: State) returns (e: Step)
    requires Inv(s) && !s.phase.Idle?
    ensures Enabled(s, e)
    ensures IsProtocolStep(s, e)
            || (!CollectorEnabled(s) && s.phase.Locking? && s.phase.k < |s.threads| && e == Release(s.phase.k))
  {
    if CollectorEnabled(s) {
      e := Collector;
    } else if s.phase.AwaitStop? {
      e := StopWaitProgress(s);
    } else if s.phase.AwaitCont? {
      e := ContWaitProgress(s);
    } else {
      var k := s.phase.k;
      assert ThreadOk(s.threads[k], s.phase, k);
      e := if s.threads[k].pc.App? then Release(k) else Handler(k);
    }
  }

  /** What is left of a cycle for the collector, and for one thread. */
  function CollectorWork(phase: Phase, n: nat): int {
    match phase
    case Idle => 0
    case Locking(k) => 7 * (n + 2) - k
    case Signalling(k) => 6 * (n + 2) - k
    case AwaitStop(k) => 5 * (n + 2) - k
    case Stopped => 4 * (n + 2)
    case Resuming(k) => 3 * (n + 2) - k
    case AwaitCont(k) => 2 * (n + 2) - k
    case Unlocking(k) => n + 2 - k
  }

  function ThreadWork(t: Thread): nat {
    (if t.usr1 then 8 else 0) + (if t.usr2 then 3 else 0) +
    match t.pc
    case App => 0
    case HTest => 7
    case HPost => 6
    case HLoop => 5
    case HSuspend => 4
    case HCont => 2
    case HReturn => 1
  }

  function Work(ts: seq<Thread>): nat {
    if ts == [] then 0 else Work(ts[..|ts| - 1]) + ThreadWork(ts[|ts| - 1])
  }

  function Remaining(s: State): int {
    10 * CollectorWork(s.phase, |s.threads|) + Work(s.threads)
  }

  lemma {:induction false} WorkUpdate(ts: seq<Thread>, i: nat, t: Thread)
    requires i < |ts|
    ensures Work(ts[i := t]) == Work(ts) - ThreadWork(ts[i]) + ThreadWork(t)
  {
    var last := |ts| - 1;
    if i < last {
      WorkUpdate(ts[..last], i, t);
      assert ts[i := t][..last] == ts[..last][i := t];
    } else {
      assert ts[i := t][..last] == ts[..last];
    }
  }

  lemma CollectorWorkDecreases(s: State)
    requires Inv(s) && CollectorEnabled(s) && !s.phase.Idle?
    ensures CollectorWork(CollectorStep(s).phase, |s.threads|) < CollectorWork(s.phase, |s.threads|)
    ensures |CollectorStep(s).threads| == |s.threads|
    ensures Work(CollectorStep(s).threads) <= Work(s.threads) + 8
  {
    hide ThreadsOk, Work;
    var s' := CollectorStep(s);
    if (s.phase.Signalling? || s.phase.Resuming?) && s.phase.k < |s.threads| && IsTarget(s.threads[s.phase.k]) {
      WorkUpdate(s.threads, s.phase.k, s'.threads[s.phase.k]);
      assert s'.threads == s.threads[s.phase.k := s'.threads[s.phase.k]];
    } else {
      assert s'.threads == s.threads;
    }
  }

  /** A step of a thread changes that thread only, and only the protocol's steps change what is
      left for it to do. */
  lemma ThreadWorkChanges(s: State, e: Step)
    requires Enabled(s, e) && !e.Collector?
    ensures e.i < |s.threads| && Apply(s, e).phase == s.phase
    ensures Apply(s, e).threads == s.threads[e.i := Apply(s, e).threads[e.i]]
    ensures if e.Deliver? || e.Handler? then ThreadWork(Apply(s, e).threads[e.i]) < ThreadWork(s.threads[e.i])
            else ThreadWork(Apply(s, e).threads[e.i]) == ThreadWork(s.threads[e.i])
  {
  }

  /** Every cycle ends after a bounded number of protocol steps: each of them leaves strictly less
      to do, and nothing the threads do of their own accord adds to it. */
  lemma CyclesAreBounded(s: State, e: Step)
    requires Inv(s) && Enabled(s, e)
    ensures !s.phase.Idle? ==> Remaining(s) > 0
    ensures IsProtocolStep(s, e) ==> Remaining(Apply(s, e)) < Remaining(s)
    ensures !IsProtocolStep(s, e) && !e.Collector? ==> Remaining(Apply(s, e)) == Remaining(s)
  {
    WorkRemains(s);
    if e.Collector? {
      if !s.phase.Idle? {
        CollectorWorkDecreases(s);
      }
    } else {
      ThreadWorkChanges(s, e);
      WorkUpdate(s.threads, e.i, Apply(s, e).threads[e.i]);
    }
  }

  lemma WorkRemains(s: State)
    requires PhaseOk(s) && StopSemOk(s) && ContSemOk(s)
    ensures !s.phase.Idle? ==> Remaining(s) > 0
  {
  }

  /** One step on the way through a cycle: it leaves less to do, or it lets the collector go on. */
  lemma StepOnTheWay(s: State) returns (e: Step)
    requires Inv(s) && !s.phase.Idle?
    ensures Enabled(s, e) && Inv(Apply(s, e)) && Remaining(s) > 0
    ensures Remaining(Apply(s, e)) < Remaining(s)
            || (Remaining(Apply(s, e)) == Remaining(s) && !CollectorEnabled(s) && CollectorEnabled(Apply(s, e)))
    ensures Apply(s, e).phase == s.phase || Apply(s, e).phase == CollectorStep(s).phase
    ensures Apply(s, e).phase != s.phase ==> CollectorEnabled(s)
  {
    hide Remaining, Inv;
    e := SomeStepIsEnabled(s);
    StepKeepsInv(s, e);
    CyclesAreBounded(s, e);
    if !e.Collector? { ThreadWorkChanges(s, e); }
  }

  predicate IsStopping(phase: Phase) {
    phase.Locking? || phase.Signalling? || phase.AwaitStop?
  }

  /** Every cycle that has begun can stop the world: whatever state the interleaving is in, some
      run leads to it. */
  lemma {:induction false} StopIsReached(s: State) returns (steps: seq<Step>)
    requires Inv(s) && IsStopping(s.phase)
    ensures Run(s, steps) && Inv(End(s, steps)) && End(s, steps).phase.Stopped?
    decreases Remaining(s), if CollectorEnabled(s) then 0 else 1
  {
    hide Inv, Remaining, Enabled, Apply;
    var e := StepOnTheWay(s);
    var next, rest := Apply(s, e), [];
    if IsStopping(next.phase) { rest := StopIsReached(next); }
    steps := [e] + rest;
    assert steps[1..] == rest;
  }

  /** And every cycle can come to its end, however many threads it has stopped. */
  lemma {:induction false} CycleEnds(s: State) returns (steps: seq<Step>)
    requires Inv(s)
    ensures Run(s, steps) && Inv(End(s, steps)) && End(s, steps).phase.Idle?
    decreases Remaining(s), if CollectorEnabled(s) then 0 else 1
  {
    steps := [];
    if !s.phase.Idle? {
      hide Inv, Remaining, Enabled, Apply;
      var e := StepOnTheWay(s);
      var rest := CycleEnds(Apply(s, e));
      steps := [e] + rest;
      assert steps[1..] == rest;
    }
  }
}
