/** Memoized calls (vm/strategy/memo_eval_strategy.cpp). A function is a program that calls others
    and goes on with their results; a machine runs it on a stack of frames with the cache and the
    cached-result flag, which every frame keeps for its caller. The machine gives the results that
    the functions have without a cache. */
module Memoization {
  import opened Options
  import opened MemoCaches
  import opened EvalStrategies

  /** A function returns all three readings of its result; a call takes one of them. */
  datatype ReturnValue = ReturnValue(i: int, f: int, r: int)

  type CallType = ty: ValueType | !ty.TypeOther? witness TypeInt

  function As(ty: CallType, rv: ReturnValue): Value {
    match ty
    case TypeInt => IntValue(rv.i)
    case TypeFloat => FloatValue(rv.f)
    case TypeRef => RefValue(rv.r)
  }

  /** A value as a result, whose other readings are nothing. */
  function Returned(v: Value): ReturnValue {
    match v
    case IntValue(i) => ReturnValue(i, 0, 0)
    case FloatValue(f) => ReturnValue(0, f, 0)
    case RefValue(r) => ReturnValue(0, 0, r)
    case OtherValue => ReturnValue(0, 0, 0)
  }

  /** What is left to do in a function: return, call a function and go on with its result, or start
      again with other arguments. */
  datatype Program<!A> =
    | Ret(rv: ReturnValue)
    | CallFun(fun: nat, ty: CallType, args: A, k: Value -> Program<A>)
    | Retry(args: A)

  type Code<!A> = (nat, A) -> Program<A>

  // ------------------------------------------------------------------ without a cache

  function Eval<A>(code: Code<A>, i: nat, p: Program<A>, fuel: nat): Option<ReturnValue>
    decreases fuel
  {
    if fuel == 0 then None
    else
      match p
      case Ret(rv) => Some(rv)
      case CallFun(j, ty, args, k) =>
        (match Eval(code, j, code(j, args), fuel - 1)
         case None => None
         case Some(rv) => Eval(code, i, k(As(ty, rv)), fuel - 1))
      case Retry(args) => Eval(code, i, code(i, args), fuel - 1)
  }

  ghost predicate Evaluates<A(!new)>(code: Code<A>, i: nat, p: Program<A>, rv: ReturnValue) {
    exists fuel: nat :: Eval(code, i, p, fuel) == Some(rv)
  }

  lemma {:induction false} MoreFuel<A>(code: Code<A>, i: nat, p: Program<A>, fuel: nat, more: nat)
    requires fuel <= more && Eval(code, i, p, fuel).Some?
    ensures Eval(code, i, p, more) == Eval(code, i, p, fuel)
    decreases fuel
  {
    match p
    case Ret(_) =>
    case CallFun(j, ty, args, k) =>
      MoreFuel(code, j, code(j, args), fuel - 1, more - 1);
      MoreFuel(code, i, k(As(ty, Eval(code, j, code(j, args), fuel - 1).value)), fuel - 1, more - 1);
    case Retry(args) =>
      MoreFuel(code, i, code(i, args), fuel - 1, more - 1);
  }

  lemma EvaluatesOnce<A(!new)>(code: Code<A>, i: nat, p: Program<A>, rv: ReturnValue, rv': ReturnValue)
    requires Evaluates(code, i, p, rv) && Evaluates(code, i, p, rv')
    ensures rv == rv'
  {
    var f: nat :| Eval(code, i, p, f) == Some(rv);
    var f': nat :| Eval(code, i, p, f') == Some(rv');
    if f <= f' { MoreFuel(code, i, p, f, f'); } else { MoreFuel(code, i, p, f', f); }
  }

  lemma CallEvaluates<A(!new)>(code: Code<A>, i: nat, p: Program<A>, v: ReturnValue, rv: ReturnValue)
    requires p.CallFun? && Evaluates(code, p.fun, code(p.fun, p.args), v) && Evaluates(code, i, p.k(As(p.ty, v)), rv)
    ensures Evaluates(code, i, p, rv)
  {
    var f: nat :| Eval(code, p.fun, code(p.fun, p.args), f) == Some(v);
    var f': nat :| Eval(code, i, p.k(As(p.ty, v)), f') == Some(rv);
    var m := if f <= f' then f' else f;
    MoreFuel(code, p.fun, code(p.fun, p.args), f, m);
    MoreFuel(code, i, p.k(As(p.ty, v)), f', m);
    assert Eval(code, i, p, m + 1) == Some(rv);
  }

  lemma RetryEvaluates<A(!new)>(code: Code<A>, i: nat, p: Program<A>, rv: ReturnValue)
    requires p.Retry? && Evaluates(code, i, code(i, p.args), rv)
    ensures Evaluates(code, i, p, rv)
  {
    var f: nat :| Eval(code, i, code(i, p.args), f) == Some(rv);
    assert Eval(code, i, p, f + 1) == Some(rv);
  }

  lemma RetEvaluates<A(!new)>(code: Code<A>, i: nat, rv: ReturnValue)
    ensures Evaluates(code, i, Program<A>.Ret(rv), rv)
  {
    assert Eval(code, i, Program<A>.Ret(rv), 1) == Some(rv);
  }

  // ------------------------------------------------------------------ the machine

  /** A running function: its arguments, where it goes on, and the flag of its caller. */
  datatype Frame<!A> = Frame(fun: nat, args: A, program: Program<A>, callerFlag: nat)

  datatype Machine<!A, Q> =
    | Running(slots: seq<Results<Q>>, flag: nat, frames: seq<Frame<A>>)
    | Done(slots: seq<Results<Q>>, rv: ReturnValue)
    | Failed

  /** `slotOf` is the slot of the cache that a memoized function has. */
  datatype Setting<!A, !Q> =
    Setting(code: Code<A>, keys: Keys<A, Q>, bucketCount: nat, slotOf: nat -> Option<nat>)

  function Above<A>(frames: seq<Frame<A>>, p: Program<A>): seq<Frame<A>>
    requires frames != []
  {
    frames[|frames| - 1 := frames[|frames| - 1].(program := p)]
  }

  function Find<A, Q>(env: Setting<A, Q>, slots: seq<Results<Q>>, fun: nat, ty: ValueType, args: A): Option<Value> {
    if env.slotOf(fun).None? then None else Lookup(slots, env.keys, env.slotOf(fun).value, ty, args)
  }

  /** A call finds its result in the cache and sets the flag, or clears the flag and enters the
      function, whose frame keeps the flag. A function without a slot is just entered. */
  function StepCall<A, Q>(env: Setting<A, Q>, m: Machine<A, Q>, forTable: bool, forEntry: bool): Machine<A, Q>
    requires m.Running? && m.frames != [] && m.frames[|m.frames| - 1].program.CallFun?
  {
    var p := m.frames[|m.frames| - 1].program;
    if env.slotOf(p.fun).None? then EnterFun(env, m, p.fun, p.args)
    else
      match Find(env, m.slots, p.fun, p.ty, p.args)
      case Some(v) => PostLeave(env, m.(flag := 1), p.args, Returned(v), forTable, forEntry)
      case None => EnterFun(env, m.(flag := 0), p.fun, p.args)
  }

  function EnterFun<A, Q>(env: Setting<A, Q>, m: Machine<A, Q>, fun: nat, args: A): Machine<A, Q>
    requires m.Running?
  {
    m.(frames := m.frames + [Frame(fun, args, env.code(fun, args), m.flag)])
  }

  /** The flag is read back from the frame that is left. */
  function LeaveFun<A, Q>(m: Machine<A, Q>): Machine<A, Q>
    requires m.Running? && m.frames != []
  {
    Running(m.slots, m.frames[|m.frames| - 1].callerFlag, m.frames[..|m.frames| - 1])
  }

  /** After a call, found or returned from, the caller stores the result of a memoized function
      under the arguments that lie on the stack, unless the flag says that it came from the cache. */
  function PostLeave<A, Q>(env: Setting<A, Q>, m: Machine<A, Q>, args: A, rv: ReturnValue, forTable: bool, forEntry: bool)
    : Machine<A, Q>
    requires m.Running? && m.frames != [] && m.frames[|m.frames| - 1].program.CallFun?
  {
    var p := m.frames[|m.frames| - 1].program;
    var v := As(p.ty, rv);
    var on := Above(m.frames, p.k(v));
    match env.slotOf(p.fun)
    case None => m.(frames := on)
    case Some(slot) =>
      if m.flag != 0 then m.(frames := on)
      else
        var stored := Store(m.slots, env.keys, slot, p.ty, args, v, env.bucketCount, forTable, forEntry);
        if stored.1 then Running(stored.0, 1, on) else Failed
  }

  /** A return reads the flag of the caller back, who goes on. */
  function StepReturn<A, Q>(env: Setting<A, Q>, m: Machine<A, Q>, forTable: bool, forEntry: bool): Machine<A, Q>
    requires m.Running? && m.frames != [] && m.frames[|m.frames| - 1].program.Ret?
  {
    var n := |m.frames|;
    var top := m.frames[n - 1];
    if n == 1 || !m.frames[n - 2].program.CallFun? then Done(m.slots, top.program.rv)
    else PostLeave(env, LeaveFun(m), top.args, top.program.rv, forTable, forEntry)
  }

  function Step<A, Q>(env: Setting<A, Q>, m: Machine<A, Q>, forTable: bool, forEntry: bool): Machine<A, Q> {
    if !m.Running? || m.frames == [] then m
    else
      var top := m.frames[|m.frames| - 1];
      match top.program
      case Ret(_) => StepReturn(env, m, forTable, forEntry)
      case CallFun(_, _, _, _) => StepCall(env, m, forTable, forEntry)
      case Retry(args) =>
        m.(frames := m.frames[|m.frames| - 1 := top.(args := args, program := env.code(top.fun, args))])
  }

  /** A run, with the fortunes of its allocations. */
  function Run<A, Q>(env: Setting<A, Q>, m: Machine<A, Q>, memory: seq<(bool, bool)>): Machine<A, Q>
    decreases |memory|
  {
    if memory == [] then m else Run(env, Step(env, m, memory[0].0, memory[0].1), memory[1..])
  }

  function Start<A, Q>(env: Setting<A, Q>, slots: seq<Results<Q>>, flag: nat, i: nat, args: A): Machine<A, Q> {
    Running(slots, flag, [Frame(i, args, env.code(i, args), flag)])
  }

  // ------------------------------------------------------------------ soundness of the cache

  /** Everything that can be looked up is the result of its function. */
  ghost predicate Sound<A(!new), Q>(env: Setting<A, Q>, slots: seq<Results<Q>>) {
    forall i, ty: CallType, args ::
      Find(env, slots, i, ty, args).Some? ==> IsResult(env, i, ty, args, Find(env, slots, i, ty, args).value)
  }

  ghost predicate IsResult<A(!new), Q>(env: Setting<A, Q>, i: nat, ty: CallType, args: A, v: Value) {
    exists rv :: Evaluates(env.code, i, env.code(i, args), rv) && As(ty, rv) == v
  }

  /** No two functions share a slot. */
  ghost predicate SlotsApart<A(!new), Q>(env: Setting<A, Q>) {
    forall i, j :: env.slotOf(i).Some? && env.slotOf(i) == env.slotOf(j) ==> i == j
  }

  /** Functions do not tell equal arguments apart. */
  ghost predicate RespectsKeys<A(!new), Q>(env: Setting<A, Q>) {
    forall i, a, a', rv {:trigger Evaluates(env.code, i, env.code(i, a), rv), env.keys.keyOf(a')} ::
      env.keys.keyOf(a) == env.keys.keyOf(a') && Evaluates(env.code, i, env.code(i, a), rv)
      ==> Evaluates(env.code, i, env.code(i, a'), rv)
  }

  /** What a function returns on its later arguments it returns on the earlier ones. */
  ghost predicate Follows<A(!new), Q>(env: Setting<A, Q>, i: nat, earlier: A, later: A) {
    forall rv :: Evaluates(env.code, i, env.code(i, later), rv) ==> Evaluates(env.code, i, env.code(i, earlier), rv)
  }

  /** What is left to do in a frame gives the result of its function on its arguments. */
  ghost predicate FrameOk<A(!new), Q>(env: Setting<A, Q>, f: Frame<A>) {
    forall rv :: Evaluates(env.code, f.fun, f.program, rv) ==> Evaluates(env.code, f.fun, env.code(f.fun, f.args), rv)
  }

  ghost predicate LinkOk<A(!new), Q>(env: Setting<A, Q>, caller: Frame<A>, callee: Frame<A>) {
    && caller.program.CallFun? && caller.program.fun == callee.fun && (env.slotOf(callee.fun).Some? ==> callee.callerFlag == 0)
    && Follows(env, callee.fun, caller.program.args, callee.args)
  }

  ghost predicate FramesOk<A(!new), Q>(env: Setting<A, Q>, frames: seq<Frame<A>>, i: nat, args: A) {
    && frames != []
    && (forall k :: 0 <= k < |frames| ==> FrameOk(env, frames[k]))
    && (forall k {:trigger frames[k]} :: 0 < k < |frames| ==> LinkOk(env, frames[k - 1], frames[k]))
    && frames[0].fun == i && Follows(env, i, args, frames[0].args)
  }

  ghost predicate Inv<A(!new), Q>(env: Setting<A, Q>, m: Machine<A, Q>, i: nat, args: A) {
    match m
    case Running(slots, _, frames) => Sound(env, slots) && FramesOk(env, frames, i, args)
    case Done(slots, rv) => Sound(env, slots) && Evaluates(env.code, i, env.code(i, args), rv)
    case Failed => true
  }

  lemma StoreKeepsSound<A(!new), Q>(env: Setting<A, Q>, slots: seq<Results<Q>>, i: nat, ty: CallType, args: A,
                                    rv: ReturnValue, forTable: bool, forEntry: bool)
    requires Sound(env, slots) && RespectsKeys(env) && SlotsApart(env) && env.slotOf(i).Some?
    requires Evaluates(env.code, i, env.code(i, args), rv)
    ensures Sound(env, Store(slots, env.keys, env.slotOf(i).value, ty, args, As(ty, rv), env.bucketCount, forTable, forEntry).0)
  {
    var slot := env.slotOf(i).value;
    var after := Store(slots, env.keys, slot, ty, args, As(ty, rv), env.bucketCount, forTable, forEntry).0;
    forall i', ty': CallType, args' | Find(env, after, i', ty', args').Some?
      ensures IsResult(env, i', ty', args', Find(env, after, i', ty', args').value)
    {
      var slot' := env.slotOf(i').value;
      StoreThenLookup(slots, env.keys, slot, ty, args, As(ty, rv), env.bucketCount, forTable, forEntry, slot', ty', args');
      if Find(env, after, i', ty', args') != Find(env, slots, i', ty', args') {
        assert Evaluates(env.code, i', env.code(i', args'), rv);
      }
    }
  }

  /** Going on with the result of a call is what is left of the frame. */
  lemma GoOnKeeps<A(!new), Q>(env: Setting<A, Q>, f: Frame<A>, v: ReturnValue)
    requires FrameOk(env, f) && f.program.CallFun?
    requires Evaluates(env.code, f.program.fun, env.code(f.program.fun, f.program.args), v)
    ensures FrameOk(env, f.(program := f.program.k(As(f.program.ty, v))))
  {
    var p := f.program;
    forall rv | Evaluates(env.code, f.fun, p.k(As(p.ty, v)), rv) ensures Evaluates(env.code, f.fun, env.code(f.fun, f.args), rv) {
      CallEvaluates(env.code, f.fun, p, v, rv);
    }
  }

  /** The stack below and at a caller whose frame changes. */
  lemma TopChanges<A(!new), Q>(env: Setting<A, Q>, frames: seq<Frame<A>>, f: Frame<A>, i: nat, args: A)
    requires FramesOk(env, frames, i, args) && FrameOk(env, f)
    requires var top := frames[|frames| - 1]; f.fun == top.fun && f.callerFlag == top.callerFlag && Follows(env, f.fun, top.args, f.args)
    ensures FramesOk(env, frames[|frames| - 1 := f], i, args)
  {
    var n, frames' := |frames|, frames[|frames| - 1 := f];
    forall k | 0 < k < n ensures LinkOk(env, frames'[k - 1], frames'[k]) {
      assert LinkOk(env, frames[k - 1], frames[k]);
    }
  }

  /** What is found is the result of its function. */
  lemma FoundIsResult<A(!new), Q>(env: Setting<A, Q>, slots: seq<Results<Q>>, i: nat, ty: CallType, args: A) returns (rv: ReturnValue)
    requires Sound(env, slots) && Find(env, slots, i, ty, args).Some?
    ensures Evaluates(env.code, i, env.code(i, args), rv)
    ensures As(ty, rv) == As(ty, Returned(Find(env, slots, i, ty, args).value)) == Find(env, slots, i, ty, args).value
  {
    rv :| Evaluates(env.code, i, env.code(i, args), rv) && As(ty, rv) == Find(env, slots, i, ty, args).value;
  }

  /** Going on after a call whose result is the function's on arguments from which it may have gone
      on to those on the stack. */
  lemma PostLeaveKeeps<A(!new), Q>(env: Setting<A, Q>, m: Machine<A, Q>, last: A, rv: ReturnValue, v: ReturnValue,
                                   forTable: bool, forEntry: bool, i: nat, args: A)
    requires m.Running? && Inv(env, m, i, args) && RespectsKeys(env) && SlotsApart(env)
    requires m.frames[|m.frames| - 1].program.CallFun?
    requires var p := m.frames[|m.frames| - 1].program;
             && Evaluates(env.code, p.fun, env.code(p.fun, p.args), v) && As(p.ty, v) == As(p.ty, rv)
             && (m.flag == 0 ==> v == rv && Evaluates(env.code, p.fun, env.code(p.fun, last), rv))
    ensures Inv(env, PostLeave(env, m, last, rv, forTable, forEntry), i, args)
  {
    hide Sound, RespectsKeys, SlotsApart, Evaluates, Store;
    var top := m.frames[|m.frames| - 1];
    var p := top.program;
    GoOnKeeps(env, top, v);
    TopChanges(env, m.frames, top.(program := p.k(As(p.ty, v))), i, args);
    if m.flag == 0 && env.slotOf(p.fun).Some? {
      StoreKeepsSound(env, m.slots, p.fun, p.ty, last, rv, forTable, forEntry);
    }
  }

  lemma CallKeeps<A(!new), Q>(env: Setting<A, Q>, m: Machine<A, Q>, forTable: bool, forEntry: bool, i: nat, args: A)
    requires m.Running? && Inv(env, m, i, args) && RespectsKeys(env) && SlotsApart(env)
    requires m.frames[|m.frames| - 1].program.CallFun?
    ensures Inv(env, StepCall(env, m, forTable, forEntry), i, args)
  {
    hide Sound, RespectsKeys, SlotsApart, Evaluates, Store;
    var n := |m.frames|;
    var p := m.frames[n - 1].program;
    if Find(env, m.slots, p.fun, p.ty, p.args).Some? {
      var rv := FoundIsResult(env, m.slots, p.fun, p.ty, p.args);
      var found := Returned(Find(env, m.slots, p.fun, p.ty, p.args).value);
      PostLeaveKeeps(env, m.(flag := 1), p.args, found, rv, forTable, forEntry, i, args);
    } else {
      var flag := if env.slotOf(p.fun).None? then m.flag else 0;
      var callee := Frame(p.fun, p.args, env.code(p.fun, p.args), flag);
      var frames' := m.frames + [callee];
      forall k | 0 < k <= n ensures LinkOk(env, frames'[k - 1], frames'[k]) {
        if k < n { assert LinkOk(env, m.frames[k - 1], m.frames[k]); }
      }
    }
  }

  lemma RetGives<A(!new), Q>(env: Setting<A, Q>, f: Frame<A>)
    requires FrameOk(env, f) && f.program.Ret?
    ensures Evaluates(env.code, f.fun, env.code(f.fun, f.args), f.program.rv)
  {
    RetEvaluates(env.code, f.fun, f.program.rv);
  }

  /** The frames below a returning function. */
  lemma LinkedCaller<A(!new), Q>(env: Setting<A, Q>, m: Machine<A, Q>, i: nat, args: A)
    requires m.Running? && Inv(env, m, i, args) && |m.frames| > 1
    ensures Inv(env, LeaveFun(m), i, args) && LinkOk(env, m.frames[|m.frames| - 2], m.frames[|m.frames| - 1])
  {
    hide Sound, FrameOk, LinkOk, Follows;
    assert LinkOk(env, m.frames[|m.frames| - 2], m.frames[|m.frames| - 1]);
  }

  lemma ReturnKeeps<A(!new), Q>(env: Setting<A, Q>, m: Machine<A, Q>, forTable: bool, forEntry: bool, i: nat, args: A)
    requires m.Running? && Inv(env, m, i, args) && RespectsKeys(env) && SlotsApart(env)
    requires m.frames[|m.frames| - 1].program.Ret?
    ensures Inv(env, StepReturn(env, m, forTable, forEntry), i, args)
  {
    var n := |m.frames|;
    var top := m.frames[n - 1];
    var rv := top.program.rv;
    RetGives(env, top);
    hide Sound, RespectsKeys, SlotsApart, Evaluates, PostLeave, FrameOk;
    if n > 1 {
      LinkedCaller(env, m, i, args);
      PostLeaveKeeps(env, LeaveFun(m), top.args, rv, rv, forTable, forEntry, i, args);
    }
  }

  lemma RetryKeeps<A(!new), Q>(env: Setting<A, Q>, m: Machine<A, Q>, forTable: bool, forEntry: bool, i: nat, args: A)
    requires m.Running? && Inv(env, m, i, args) && m.frames[|m.frames| - 1].program.Retry?
    ensures Inv(env, Step(env, m, forTable, forEntry), i, args)
  {
    var top := m.frames[|m.frames| - 1];
    var again := top.program.args;
    forall rv | Evaluates(env.code, top.fun, env.code(top.fun, again), rv)
      ensures Evaluates(env.code, top.fun, env.code(top.fun, top.args), rv)
    {
      RetryEvaluates(env.code, top.fun, top.program, rv);
    }
    TopChanges(env, m.frames, top.(args := again, program := env.code(top.fun, again)), i, args);
  }

  lemma StepKeeps<A(!new), Q>(env: Setting<A, Q>, m: Machine<A, Q>, forTable: bool, forEntry: bool, i: nat, args: A)
    requires Inv(env, m, i, args) && RespectsKeys(env) && SlotsApart(env)
    ensures Inv(env, Step(env, m, forTable, forEntry), i, args)
  {
    if m.Running? {
      match m.frames[|m.frames| - 1].program
      case Ret(_) => ReturnKeeps(env, m, forTable, forEntry, i, args);
      case CallFun(_, _, _, _) => CallKeeps(env, m, forTable, forEntry, i, args);
      case Retry(_) => RetryKeeps(env, m, forTable, forEntry, i, args);
    }
  }

  lemma {:induction false} RunKeeps<A(!new), Q>(env: Setting<A, Q>, m: Machine<A, Q>, memory: seq<(bool, bool)>, i: nat, args: A)
    requires Inv(env, m, i, args) && RespectsKeys(env) && SlotsApart(env)
    ensures Inv(env, Run(env, m, memory), i, args)
    decreases |memory|
  {
    if memory != [] {
      StepKeeps(env, m, memory[0].0, memory[0].1, i, args);
      RunKeeps(env, Step(env, m, memory[0].0, memory[0].1), memory[1..], i, args);
    }
  }

  /** Memoization is invisible: a run with any sound cache, any nesting of calls and any failing
      allocations that comes to an end without an error gives the result of the function without a
      cache, and leaves the cache sound. */
  lemma CacheIsInvisible<A(!new), Q>(env: Setting<A, Q>, slots: seq<Results<Q>>, flag: nat, i: nat, args: A,
                                     memory: seq<(bool, bool)>, rv: ReturnValue)
    requires Sound(env, slots) && RespectsKeys(env) && SlotsApart(env)
    requires Run(env, Start(env, slots, flag, i, args), memory).Done?
    ensures var done := Run(env, Start(env, slots, flag, i, args), memory);
            Sound(env, done.slots) && (Evaluates(env.code, i, env.code(i, args), rv) <==> rv == done.rv)
  {
    RunKeeps(env, Start(env, slots, flag, i, args), memory, i, args);
    var done := Run(env, Start(env, slots, flag, i, args), memory);
    if Evaluates(env.code, i, env.code(i, args), rv) {
      EvaluatesOnce(env.code, i, env.code(i, args), rv, done.rv);
    }
  }

  /** The slots that the functions are given are not shared. */
  lemma StrategySlotsApart<A(!new), Q>(env: Setting<A, Q>, infos: seq<FunctionInfo>, default_: bv32)
    requires env.slotOf == SlotsOf(infos, default_)
    ensures SlotsApart(env)
  {
    forall i, j | env.slotOf(i).Some? && env.slotOf(i) == env.slotOf(j) ensures i == j {
      SlotsAreDistinct(infos, default_, i, j);
    }
  }

  // ------------------------------------------------------------------ hits and misses

  /** A hit takes the flag test that stores nothing: the cache stays as it is, even when memory fails,
      and the caller goes on at once. */
  lemma HitKeepsSlots<A, Q>(env: Setting<A, Q>, m: Machine<A, Q>, forTable: bool, forEntry: bool)
    requires m.Running? && m.frames != [] && m.frames[|m.frames| - 1].program.CallFun?
    requires var p := m.frames[|m.frames| - 1].program; Find(env, m.slots, p.fun, p.ty, p.args).Some?
    ensures var p, m' := m.frames[|m.frames| - 1].program, StepCall(env, m, forTable, forEntry);
            && m'.Running? && m'.slots == m.slots
            && m'.frames == Above(m.frames, p.k(Find(env, m.slots, p.fun, p.ty, p.args).value))
  {
  }

  /** A missed call stores its result when it returns, whatever hits and misses lie in between: the
      result is found under the arguments that the callee ended with, if they and the result are
      memoizable, and there is a table or buckets for one in the slot. */
  lemma MissIsStored<A(!new), Q>(env: Setting<A, Q>, m: Machine<A, Q>, i: nat, args: A)
    requires m.Running? && Inv(env, m, i, args) && |m.frames| > 1 && m.frames[|m.frames| - 1].program.Ret?
    requires env.slotOf(m.frames[|m.frames| - 1].fun).Some?
    ensures m.frames[|m.frames| - 2].program.CallFun? && StepReturn(env, m, true, true).Running?
    ensures var callee, p := m.frames[|m.frames| - 1], m.frames[|m.frames| - 2].program;
            var v, after, slot := As(p.ty, callee.program.rv), StepReturn(env, m, true, true), env.slotOf(callee.fun).value;
            && p.fun == callee.fun
            && (env.keys.argsOk(callee.args) && env.keys.resultOk(v) ==>
                  (Find(env, after.slots, callee.fun, p.ty, callee.args) == Some(v) <==>
                   slot < |m.slots| && (env.bucketCount > 0 || HasTable(m.slots[slot], p.ty))))
  {
    var n := |m.frames|;
    var callee := m.frames[n - 1];
    assert LinkOk(env, m.frames[n - 2], m.frames[n - 1]);
    var p := m.frames[n - 2].program;
    var v := As(p.ty, callee.program.rv);
    if env.keys.argsOk(callee.args) && env.keys.resultOk(v) {
      StoredIsFound(m.slots, env.keys, env.slotOf(callee.fun).value, callee.args, v, env.bucketCount);
    }
  }

  // ------------------------------------------------------------------ termination

  /** A run in which memory never fails. */
  function Steps<A, Q>(env: Setting<A, Q>, m: Machine<A, Q>, n: nat): Machine<A, Q>
    decreases n
  {
    if n == 0 then m else Steps(env, Step(env, m, true, true), n - 1)
  }

  lemma {:induction false} StepsAdd<A, Q>(env: Setting<A, Q>, m: Machine<A, Q>, a: nat, b: nat)
    ensures Steps(env, m, a + b) == Steps(env, Steps(env, m, a), b)
    decreases a
  {
    if a > 0 { StepsAdd(env, Step(env, m, true, true), a - 1, b); }
  }

  lemma {:induction false} StepsKeep<A(!new), Q>(env: Setting<A, Q>, m: Machine<A, Q>, n: nat, i: nat, args: A)
    requires Inv(env, m, i, args) && RespectsKeys(env) && SlotsApart(env)
    ensures Inv(env, Steps(env, m, n), i, args)
    decreases n
  {
    if n > 0 {
      StepKeeps(env, m, true, true, i, args);
      StepsKeep(env, Step(env, m, true, true), n - 1, i, args);
    }
  }

  /** The running function has come to its result; only its arguments may have changed. */
  ghost predicate Returning<A, Q>(m: Machine<A, Q>, m': Machine<A, Q>, rv: ReturnValue)
    requires m.Running? && m.frames != []
  {
    var top := m.frames[|m.frames| - 1];
    && m'.Running? && |m'.frames| == |m.frames|
    && m'.frames == m.frames[|m.frames| - 1 := top.(args := m'.frames[|m.frames| - 1].args, program := Ret(rv))]
  }

  /** A step that changes only the program and arguments on top, and a run from there. */
  lemma ReturningAfter<A, Q>(m: Machine<A, Q>, next: Machine<A, Q>, m': Machine<A, Q>, rv: ReturnValue, f: Frame<A>)
    requires m.Running? && m.frames != [] && next.Running? && next.frames == m.frames[|m.frames| - 1 := f]
    requires f.fun == m.frames[|m.frames| - 1].fun && f.callerFlag == m.frames[|m.frames| - 1].callerFlag
    requires Returning(next, m', rv)
    ensures Returning(m, m', rv)
  {
  }

  lemma HitGoesOn<A(!new), Q>(env: Setting<A, Q>, m: Machine<A, Q>, v: ReturnValue)
    requires m.Running? && m.frames != [] && Sound(env, m.slots)
    requires m.frames[|m.frames| - 1].program.CallFun?
    requires var p := m.frames[|m.frames| - 1].program;
             Evaluates(env.code, p.fun, env.code(p.fun, p.args), v) && Find(env, m.slots, p.fun, p.ty, p.args).Some?
    ensures GoesOn(m, Step(env, m, true, true), v)
  {
    var p := m.frames[|m.frames| - 1].program;
    var rv := FoundIsResult(env, m.slots, p.fun, p.ty, p.args);
    EvaluatesOnce(env.code, p.fun, env.code(p.fun, p.args), rv, v);
    HitKeepsSlots(env, m, true, true);
  }

  /** The caller goes on with the result of its call. */
  ghost predicate GoesOn<A, Q>(m: Machine<A, Q>, next: Machine<A, Q>, v: ReturnValue)
    requires m.Running? && m.frames != [] && m.frames[|m.frames| - 1].program.CallFun?
  {
    var p := m.frames[|m.frames| - 1].program;
    next.Running? && next.frames == Above(m.frames, p.k(As(p.ty, v)))
  }

  lemma MissEnters<A, Q>(env: Setting<A, Q>, m: Machine<A, Q>)
    requires m.Running? && m.frames != [] && m.frames[|m.frames| - 1].program.CallFun?
    requires var p := m.frames[|m.frames| - 1].program; Find(env, m.slots, p.fun, p.ty, p.args).None?
    ensures var p, next := m.frames[|m.frames| - 1].program, Step(env, m, true, true);
            && next.Running? && |next.frames| == |m.frames| + 1
            && next.frames[|m.frames|].fun == p.fun && next.frames[|m.frames|].program == env.code(p.fun, p.args)
  {
  }

  lemma MissGoesOn<A, Q>(env: Setting<A, Q>, m: Machine<A, Q>, back: Machine<A, Q>, v: ReturnValue)
    requires m.Running? && m.frames != [] && m.frames[|m.frames| - 1].program.CallFun?
    requires var p := m.frames[|m.frames| - 1].program; Find(env, m.slots, p.fun, p.ty, p.args).None?
    requires Returning(Step(env, m, true, true), back, v)
    ensures GoesOn(m, Step(env, back, true, true), v)
  {
    assert back.frames[..|m.frames|] == m.frames;
  }

  /** Where the function without a cache returns, the machine gets to the same result. */
  lemma {:induction false} Completes<A(!new), Q>(env: Setting<A, Q>, m: Machine<A, Q>, fuel: nat, i: nat, args: A)
    returns (n: nat)
    requires m.Running? && Inv(env, m, i, args) && RespectsKeys(env) && SlotsApart(env)
    requires var top := m.frames[|m.frames| - 1]; Eval(env.code, top.fun, top.program, fuel).Some?
    ensures var top := m.frames[|m.frames| - 1];
            Returning(m, Steps(env, m, n), Eval(env.code, top.fun, top.program, fuel).value)
    decreases fuel, 1
  {
    var top := m.frames[|m.frames| - 1];
    var rv := Eval(env.code, top.fun, top.program, fuel).value;
    match top.program
    case Ret(_) =>
      n := 0;
    case Retry(again) =>
      var next := Step(env, m, true, true);
      StepKeeps(env, m, true, true, i, args);
      var rest := Completes(env, next, fuel - 1, i, args);
      ReturningAfter(m, next, Steps(env, next, rest), rv, next.frames[|m.frames| - 1]);
      n := rest + 1;
    case CallFun(j, ty, a, k) =>
      n := CompletesCall(env, m, fuel, i, args);
  }

  lemma {:induction false} CompletesCall<A(!new), Q>(env: Setting<A, Q>, m: Machine<A, Q>, fuel: nat, i: nat, args: A)
    returns (n: nat)
    requires m.Running? && Inv(env, m, i, args) && RespectsKeys(env) && SlotsApart(env)
    requires m.frames[|m.frames| - 1].program.CallFun?
    requires var top := m.frames[|m.frames| - 1]; Eval(env.code, top.fun, top.program, fuel).Some?
    ensures var top := m.frames[|m.frames| - 1];
            Returning(m, Steps(env, m, n), Eval(env.code, top.fun, top.program, fuel).value)
    decreases fuel, 0
  {
    hide Sound, FrameOk, LinkOk, Follows, RespectsKeys, SlotsApart, Step;
    var top := m.frames[|m.frames| - 1];
    var p := top.program;
    var v := Eval(env.code, p.fun, env.code(p.fun, p.args), fuel - 1).value;
    var before := 1;
    if Find(env, m.slots, p.fun, p.ty, p.args).Some? {
      assert Evaluates(env.code, p.fun, env.code(p.fun, p.args), v);
      HitGoesOn(env, m, v);
      assert Steps(env, m, 1) == Step(env, m, true, true);
    } else {
      before := CompletesMiss(env, m, fuel - 1, i, args);
    }
    StepsKeep(env, m, before, i, args);
    var next := Steps(env, m, before);
    var rest := Completes(env, next, fuel - 1, i, args);
    ReturningAfter(m, next, Steps(env, next, rest), Eval(env.code, top.fun, p, fuel).value, next.frames[|m.frames| - 1]);
    StepsAdd(env, m, before, rest);
    n := before + rest;
  }

  /** Entering a function, running it and returning from it. */
  lemma {:induction false} CompletesMiss<A(!new), Q>(env: Setting<A, Q>, m: Machine<A, Q>, fuel: nat, i: nat, args: A)
    returns (n: nat)
    requires m.Running? && Inv(env, m, i, args) && RespectsKeys(env) && SlotsApart(env)
    requires m.frames[|m.frames| - 1].program.CallFun?
    requires var p := m.frames[|m.frames| - 1].program;
             Find(env, m.slots, p.fun, p.ty, p.args).None? && Eval(env.code, p.fun, env.code(p.fun, p.args), fuel).Some?
    ensures var p := m.frames[|m.frames| - 1].program;
            GoesOn(m, Steps(env, m, n), Eval(env.code, p.fun, env.code(p.fun, p.args), fuel).value)
    decreases fuel, 2
  {
    hide Sound, FrameOk, LinkOk, Follows, RespectsKeys, SlotsApart, Step;
    var p := m.frames[|m.frames| - 1].program;
    var next := Step(env, m, true, true);
    StepKeeps(env, m, true, true, i, args);
    MissEnters(env, m);
    var inner := Completes(env, next, fuel, i, args);
    var back := Steps(env, next, inner);
    MissGoesOn(env, m, back, Eval(env.code, p.fun, env.code(p.fun, p.args), fuel).value);
    StepsAdd(env, m, 1, inner);
    StepsAdd(env, m, 1 + inner, 1);
    n := 1 + inner + 1;
  }

  /** A function that returns without a cache returns the same with it, as long as memory lasts. */
  lemma MemoizedCallReturns<A(!new), Q>(env: Setting<A, Q>, slots: seq<Results<Q>>, flag: nat, i: nat, args: A, rv: ReturnValue)
    requires Sound(env, slots) && RespectsKeys(env) && SlotsApart(env) && Evaluates(env.code, i, env.code(i, args), rv)
    ensures exists n: nat :: var m := Steps(env, Start(env, slots, flag, i, args), n); m.Done? && m.rv == rv
  {
    var start := Start(env, slots, flag, i, args);
    var fuel: nat :| Eval(env.code, i, env.code(i, args), fuel) == Some(rv);
    var n := Completes(env, start, fuel, i, args);
    StepsAdd(env, start, n, 1);
    assert Steps(env, Steps(env, start, n), 1) == Step(env, Steps(env, start, n), true, true);
    assert Steps(env, start, n + 1).Done? && Steps(env, start, n + 1).rv == rv;
  }
}
