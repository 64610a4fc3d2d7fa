/** Runs of stack operations, and the abstract stack of activations that they keep. The slots that
    `Enter` writes encode one activation each; a native call starts a new chain of them on top of
    the seven slots that `Save` writes. */
module CallRuns {
  import opened Options
  import opened CallStack

  /** What a call stores about its caller. The instruction pointer is the stored one. */
  datatype Activation = Activation(abp: nat, ac: nat, lvc: nat, ip: nat, fp: int, index: nat, cached: nat,
                                   evbp: nat, evc: nat)

  /** The memory, and the callers of the running function back to the last native call. */
  datatype State = State(m: Mem, frames: seq<Activation>)

  datatype Op =
    | Call(fun: int)
    | Return
    | PushLocal(v: Value)
    | Push(v: Value)
    | DropArgs
    | DropArgsAndLocals
    | Allocate
    | Hide
    | Unhide
    | DropTmp
    | PushExpression(size: nat)
    | DropExpressions(n: nat)
    | Write(at: nat, v: Value)
    | Assign(to: Registers)
    | Try(arg2: Value, io: Ref)
    | TryForForce
    | PushTry
    | PopTry
    | Fail(error: int, ref: Ref)
    | NativeCall(body: seq<Op>)

  function Top(frames: seq<Activation>): Activation
    requires frames != []
  {
    frames[|frames| - 1]
  }

  function Rest(frames: seq<Activation>): seq<Activation>
    requires frames != []
  {
    frames[..|frames| - 1]
  }

  function ActivationOf(r: Registers): Activation {
    Activation(r.abp, r.ac, r.lvc, Before(r.ip), r.fp, r.leavingIndex, r.cached, r.evbp, r.evc)
  }

  /** The first slot above the frame of a function. */
  function Floor(base: nat, abp: nat, ac: nat, frames: seq<Activation>): nat {
    if frames == [] then base else abp + ac + 4
  }

  ghost predicate HoldsFrame(stack: seq<Value>, fbp: nat, f: Activation) {
    && fbp + 4 < |stack|
    && stack[fbp] == VPair(f.abp, f.ac)
    && stack[fbp + 1] == VPair(f.lvc, f.ip)
    && stack[fbp + 2].VInt?
    && UnpackFp(stack[fbp + 2].i) == f.fp && UnpackIndex(stack[fbp + 2].i) == f.index
    && UnpackCached(stack[fbp + 2].i) == f.cached
    && stack[fbp + 3] == VPair(f.evbp, f.evc)
  }

  ghost predicate Plausible(fp: int, index: nat, cached: nat, frames: seq<Activation>) {
    FpFits(fp) && index < 2 && cached < 2 && (frames == [] <==> fp == NO_FUN)
  }

  /** The stack encodes the callers: the frame of the running function lies behind its arguments,
      those of its callers below them, and the outermost caller runs at the base. */
  ghost predicate Chain(stack: seq<Value>, base: nat, abp: nat, ac: nat, frames: seq<Activation>)
    decreases |frames|
  {
    if frames == [] then abp == base && ac == 0
    else
      var f, rest := Top(frames), Rest(frames);
      && HoldsFrame(stack, abp + ac, f)
      && Plausible(f.fp, f.index, f.cached, rest)
      && Floor(base, f.abp, f.ac, rest) <= abp
      && Chain(stack, base, f.abp, f.ac, rest)
  }

  ghost predicate Inv(s: State) {
    var r := s.m.regs;
    && Chain(s.m.stack, r.nfbp, r.abp, r.ac, s.frames)
    && Plausible(r.fp, r.leavingIndex, r.cached, s.frames)
    && Floor(r.nfbp, r.abp, r.ac, s.frames) <= r.abp2
    && r.abp2 + r.ac2 <= |s.m.stack|
    && r.esec == r.evbp + r.evc
  }

  function FloorOf(s: State): nat {
    Floor(s.m.regs.nfbp, s.m.regs.abp, s.m.regs.ac, s.frames)
  }

  /** Base and number of the arguments of the activation at a depth; depth 0 is the base. */
  function ArgsAt(s: State, d: nat): (nat, nat)
    requires d <= |s.frames|
  {
    if d == |s.frames| then (s.m.regs.abp, s.m.regs.ac) else (s.frames[d].abp, s.frames[d].ac)
  }

  // ------------------------------------------------------------------ steps

  /** The registers that delimit stack regions, which only the stack operations change. */
  ghost predicate SameBounds(r: Registers, r': Registers) {
    && r'.abp == r.abp && r'.ac == r.ac && r'.abp2 == r.abp2 && r'.ac2 == r.ac2
    && r'.evbp == r.evbp && r'.evc == r.evc && r'.esec == r.esec && r'.nfbp == r.nfbp && r'.enfbp == r.enfbp
    && r'.fp == r.fp && r'.leavingIndex < 2 && r'.cached < 2
  }

  /** A try whose function is running: its activation has the arguments that were being pushed
      when the try registers were set. */
  ghost predicate TriedAt(s: State, d: nat) {
    0 < d <= |s.frames| && ArgsAt(s, d) == (s.m.regs.tryAbp, s.m.regs.tryAc)
  }

  ghost predicate HasTry(r: Registers) {
    r.tryFlag && r.nfbp <= r.tryAbp
  }

  function Lift(m: Option<Mem>, frames: seq<Activation>): Option<State> {
    match m
    case None => None
    case Some(m) => Some(State(m, frames))
  }

  /** One operation other than a native call; `None` where the operation fails, or leaves the part
      of the stack that belongs to the running function. */
  ghost function Step(s: State, op: Op): Option<State>
    requires !op.NativeCall?
  {
    var m, r, floor := s.m, s.m.regs, FloorOf(s);
    match op
    case Call(fun) => if 0 <= fun < TWO55 then Lift(Enter(m, fun), s.frames + [ActivationOf(r)]) else None
    case Return => if s.frames == [] then None else Lift(Leave(m), Rest(s.frames))
    case PushLocal(v) => Lift(PushLocalVar(m, v), s.frames)
    case Push(v) => Lift(PushArg(m, v), s.frames)
    case DropArgs => Some(State(PopArgs(m), s.frames))
    case DropArgsAndLocals => if s.frames == [] then None else Some(State(PopArgsAndLocalVars(m), s.frames))
    case Allocate => Some(State(In(m), s.frames))
    case Hide => Some(State(HideArgs(m), s.frames))
    case Unhide => if floor + r.tmpAc2 <= r.abp2 then Some(State(RestoreArgs(m), s.frames)) else None
    case DropTmp => if floor < r.abp2 && 0 < r.sec then Some(State(PopTmp(m), s.frames)) else None
    case PushExpression(size) => Lift(PushExpr(m, size), s.frames)
    case DropExpressions(n) => Lift(PopExprs(m, n), s.frames)
    case Write(at, v) =>
      if (r.abp <= at < r.abp + r.ac || floor <= at < r.abp2 + r.ac2) && at < |m.stack| then
        Some(State(m.(stack := m.stack[at := v]), s.frames))
      else None
    case Assign(to) => if SameBounds(r, to) then Some(State(m.(regs := to), s.frames)) else None
    case Try(arg2, io) => Some(State(SetTryRegs(m, arg2, io), s.frames))
    case TryForForce => Some(State(m.(regs := r.(tryAbp := r.abp2, tryAc := r.ac2)), s.frames))
    case PushTry => Lift(PushTryRegs(m), s.frames)
    case PopTry => if floor + 6 <= r.abp2 <= |m.stack| && 6 <= r.sec then Lift(PopTryRegs(m), s.frames) else None
    case Fail(error, ref) =>
      if !HasTry(r) then Some(State(SetError(m, error, ref), []))
      else if exists d :: TriedAt(s, d) then
        var d :| TriedAt(s, d);
        Some(State(SetError(m, error, ref), s.frames[..d - 1]))
      else None
  }

  /** `Step`, or a native call that returns: its registers are saved, the native function runs the
      interpreter on a chain of its own, and the registers are restored. */
  ghost function Perform(s: State, op: Op): Option<State>
    decreases op, 0
  {
    if !op.NativeCall? then Step(s, op)
    else
      match Save(s.m)
      case None => None
      case Some(m) =>
        match Run(NativeStart(m), op.body, 0)
        case None => None
        case Some(inner) => Some(State(Restore(inner.m, SavedOf(s.m.regs)), s.frames))
  }

  /** A run in which no function below a depth returns or is unwound. */
  ghost function Run(s: State, ops: seq<Op>, depth: nat): Option<State>
    decreases ops, 1
  {
    if |s.frames| < depth then None
    else if ops == [] then Some(s)
    else
      match Perform(s, ops[0])
      case None => None
      case Some(s') => Run(s', ops[1..], depth)
  }

  // ------------------------------------------------------------------ what a step keeps

  /** Everything below a depth is as before: the callers, the arguments of the activation at that
      depth, and every slot below its arguments. */
  ghost predicate Kept(s: State, s': State, d: nat) {
    && d <= |s.frames| && d <= |s'.frames|
    && s'.frames[..d] == s.frames[..d]
    && ArgsAt(s', d) == ArgsAt(s, d)
    && s'.m.regs.nfbp == s.m.regs.nfbp && s'.m.regs.enfbp == s.m.regs.enfbp
    && |s'.m.stack| == |s.m.stack|
    && ArgsAt(s, d).0 <= |s.m.stack|
    && forall i :: 0 <= i < ArgsAt(s, d).0 ==> s'.m.stack[i] == s.m.stack[i]
  }

  lemma {:induction false} ChainFrame(stack: seq<Value>, stack': seq<Value>, base: nat, abp: nat, ac: nat,
                                      frames: seq<Activation>)
    requires Chain(stack, base, abp, ac, frames) && |stack'| == |stack|
    requires forall i :: 0 <= i < abp && i < |stack| ==> stack'[i] == stack[i]
    requires frames != [] ==> forall i :: abp + ac <= i < abp + ac + 4 && i < |stack| ==> stack'[i] == stack[i]
    ensures Chain(stack', base, abp, ac, frames)
    decreases |frames|
  {
    if frames != [] {
      var f := Top(frames);
      ChainFrame(stack, stack', base, f.abp, f.ac, Rest(frames));
    }
  }

  /** Activations lie above each other, and above the base. */
  lemma {:induction false} ChainAbove(stack: seq<Value>, base: nat, abp: nat, ac: nat, frames: seq<Activation>, d: nat)
    requires Chain(stack, base, abp, ac, frames) && d < |frames|
    ensures base <= frames[d].abp && Floor(base, frames[d].abp, frames[d].ac, frames[..d]) <= abp
    ensures frames[d].abp + frames[d].ac <= abp
    decreases |frames|
  {
    var f, rest := Top(frames), Rest(frames);
    if d == |frames| - 1 {
      assert rest == frames[..d];
      if rest != [] { ChainAbove(stack, base, f.abp, f.ac, rest, 0); }
    } else {
      ChainAbove(stack, base, f.abp, f.ac, rest, d);
      assert rest[..d] == frames[..d];
    }
  }

  lemma {:induction false} ChainPrefix(stack: seq<Value>, base: nat, abp: nat, ac: nat, frames: seq<Activation>, d: nat)
    requires Chain(stack, base, abp, ac, frames) && d < |frames|
    ensures Chain(stack, base, frames[d].abp, frames[d].ac, frames[..d])
    ensures Plausible(frames[d].fp, frames[d].index, frames[d].cached, frames[..d])
    decreases |frames|
  {
    var f, rest := Top(frames), Rest(frames);
    if d == |frames| - 1 {
      assert rest == frames[..d];
    } else {
      ChainPrefix(stack, base, f.abp, f.ac, rest, d);
      assert rest[..d] == frames[..d];
    }
  }

  /** The arguments and local variables of the running function, and what it pushed. */
  ghost predicate Own(s: State, i: nat) {
    s.m.regs.abp <= i && (s.frames != [] ==> i < s.m.regs.abp + s.m.regs.ac || s.m.regs.abp + s.m.regs.ac + 4 <= i)
  }

  ghost predicate LocalStep(s: State, s': State) {
    var r, r' := s.m.regs, s'.m.regs;
    && s'.frames == s.frames && |s'.m.stack| == |s.m.stack|
    && r'.abp == r.abp && r'.ac == r.ac && r'.fp == r.fp && r'.nfbp == r.nfbp && r'.enfbp == r.enfbp
    && r'.leavingIndex < 2 && r'.cached < 2
    && FloorOf(s) <= r'.abp2 && r'.abp2 + r'.ac2 <= |s.m.stack|
    && r'.esec == r'.evbp + r'.evc
    && forall i: nat :: i < |s.m.stack| && !Own(s, i) ==> s'.m.stack[i] == s.m.stack[i]
  }

  lemma LocalStepKeeps(s: State, s': State, d: nat)
    requires Inv(s) && LocalStep(s, s') && d <= |s.frames|
    ensures Inv(s') && Kept(s, s', d)
  {
    var r := s.m.regs;
    ChainFrame(s.m.stack, s'.m.stack, r.nfbp, r.abp, r.ac, s.frames);
    if d < |s.frames| { ChainAbove(s.m.stack, r.nfbp, r.abp, r.ac, s.frames, d); }
  }

  lemma {:induction false} PushAllFits(m: Mem, vs: seq<Value>)
    requires vs != []
    ensures PushAll(m, vs).Some? <==> m.regs.abp2 + |vs| <= |m.stack|
    ensures PushAll(m, vs).Some? ==>
              PushAll(m, vs).value.regs == m.regs.(abp2 := m.regs.abp2 + |vs|, ac2 := 0, sec := m.regs.abp2 + |vs|)
    decreases |vs|
  {
    if m.regs.abp2 < |m.stack| && |vs| > 1 {
      PushAllFits(PushLocalVar(m, vs[0]).value, vs[1..]);
    }
  }

  /** The pushed values lie in the slots from `abp2` on, the others are unchanged. */
  lemma {:induction false} PushAllWrites(m: Mem, vs: seq<Value>)
    requires vs != [] && PushAll(m, vs).Some?
    ensures var s' := PushAll(m, vs).value.stack;
            && |s'| == |m.stack| && m.regs.abp2 + |vs| <= |m.stack|
            && (forall i :: 0 <= i < |vs| ==> s'[m.regs.abp2 + i] == vs[i])
            && forall i {:trigger s'[i]} :: 0 <= i < |s'| && !(m.regs.abp2 <= i < m.regs.abp2 + |vs|) ==> s'[i] == m.stack[i]
    decreases |vs|
  {
    var m' := PushLocalVar(m, vs[0]).value;
    var s', b := PushAll(m, vs).value.stack, m.regs.abp2;
    if |vs| > 1 {
      PushAllWrites(m', vs[1..]);
      forall i | 0 <= i < |vs| ensures s'[b + i] == vs[i] {
        if i > 0 { assert s'[m'.regs.abp2 + (i - 1)] == vs[1..][i - 1]; }
      }
    }
  }

  ghost predicate IsLocal(op: Op) {
    !op.Call? && !op.Return? && !op.Fail? && !op.NativeCall?
  }

  lemma PushesAreLocal(s: State, op: Op)
    requires Inv(s) && (op.PushLocal? || op.Push? || op.Write? || op.PushTry? || op.PushExpression?)
    requires Step(s, op).Some?
    ensures LocalStep(s, Step(s, op).value)
  {
    if op.PushTry? {
      PushAllFits(s.m, TrySlots(s.m.regs));
      PushAllWrites(s.m, TrySlots(s.m.regs));
    }
  }

  lemma LocalOpsAreLocal(s: State, op: Op)
    requires Inv(s) && IsLocal(op) && Step(s, op).Some?
    ensures LocalStep(s, Step(s, op).value)
  {
    if op.PushLocal? || op.Push? || op.Write? || op.PushTry? || op.PushExpression? { PushesAreLocal(s, op); }
  }

  lemma EnterStores(m: Mem, fun: int)
    requires Enter(m, fun).Some?
    ensures var s', r, top := Enter(m, fun).value.stack, m.regs, m.regs.abp2 + m.regs.ac2;
            && |s'| == |m.stack| && top + 4 < |s'|
            && s'[top] == VPair(r.abp, r.ac) && s'[top + 1] == VPair(r.lvc, Before(r.ip))
            && s'[top + 2] == VInt(Pack(r.fp, r.leavingIndex, r.cached)) && s'[top + 3] == VPair(r.evbp, r.evc)
            && forall i :: 0 <= i < top ==> s'[i] == m.stack[i]
  {
  }

  lemma EnterWrites(m: Mem, fun: int)
    requires Enter(m, fun).Some? && FpFits(m.regs.fp) && m.regs.leavingIndex < 2 && m.regs.cached < 2
    ensures var s', top := Enter(m, fun).value.stack, m.regs.abp2 + m.regs.ac2;
            && |s'| == |m.stack| && HoldsFrame(s', top, ActivationOf(m.regs))
            && forall i :: 0 <= i < top ==> s'[i] == m.stack[i]
  {
    EnterStores(m, fun);
    PackFits(m.regs.fp, m.regs.leavingIndex, m.regs.cached);
  }

  /** After a call the chain has one more activation, the one of the caller. */
  lemma CallChain(s: State, stack': seq<Value>)
    requires Inv(s) && |stack'| == |s.m.stack|
    requires HoldsFrame(stack', s.m.regs.abp2 + s.m.regs.ac2, ActivationOf(s.m.regs))
    requires forall i :: 0 <= i < s.m.regs.abp2 + s.m.regs.ac2 ==> stack'[i] == s.m.stack[i]
    ensures Chain(stack', s.m.regs.nfbp, s.m.regs.abp2, s.m.regs.ac2, s.frames + [ActivationOf(s.m.regs)])
  {
    var r, frames' := s.m.regs, s.frames + [ActivationOf(s.m.regs)];
    assert Rest(frames') == s.frames && Top(frames') == ActivationOf(r);
    ChainFrame(s.m.stack, stack', r.nfbp, r.abp, r.ac, s.frames);
  }

  lemma ArgsBelow(s: State, d: nat)
    requires Inv(s) && d <= |s.frames|
    ensures ArgsAt(s, d).0 <= s.m.regs.abp2
  {
    if d < |s.frames| { ChainAbove(s.m.stack, s.m.regs.nfbp, s.m.regs.abp, s.m.regs.ac, s.frames, d); }
  }

  lemma CallKeepsInv(s: State, fun: int)
    requires Inv(s) && Step(s, Call(fun)).Some?
    ensures Inv(Step(s, Call(fun)).value)
  {
    EnterWrites(s.m, fun);
    hide HoldsFrame, Chain;
    CallChain(s, Enter(s.m, fun).value.stack);
  }

  lemma CallKeeps(s: State, fun: int, d: nat)
    requires Inv(s) && Step(s, Call(fun)).Some? && d <= |s.frames|
    ensures Inv(Step(s, Call(fun)).value) && Kept(s, Step(s, Call(fun)).value, d)
  {
    CallKeepsInv(s, fun);
    ArgsBelow(s, d);
    EnterStores(s.m, fun);
    hide Inv, Pack;
  }

  ghost predicate ReadBack(r: Registers, r': Registers, f: Activation) {
    && r'.abp2 == r.abp && r'.ac2 == r.ac && r'.sec == r.abp
    && r'.abp == f.abp && r'.ac == f.ac && r'.lvc == f.lvc && r'.ip == f.ip && r'.fp == f.fp
    && r'.leavingIndex == f.index && r'.cached == f.cached
    && r'.evbp == f.evbp && r'.evc == f.evc && r'.esec == f.evbp + f.evc
    && r'.nfbp == r.nfbp && r'.enfbp == r.enfbp
  }

  /** What `Leave` reads back is what the call stored. */
  lemma LeaveReads(m: Mem, f: Activation)
    requires HoldsFrame(m.stack, m.regs.abp + m.regs.ac, f)
    ensures Leave(m).Some? && Leave(m).value.stack == m.stack && ReadBack(m.regs, Leave(m).value.regs, f)
  {
  }

  lemma ReturnKeeps(s: State, d: nat)
    requires Inv(s) && Step(s, Return).Some? && d < |s.frames|
    ensures Inv(Step(s, Return).value) && Kept(s, Step(s, Return).value, d)
  {
    var r := s.m.regs;
    LeaveReads(s.m, Top(s.frames));
    ChainAbove(s.m.stack, r.nfbp, r.abp, r.ac, s.frames, d);
    ChainAbove(s.m.stack, r.nfbp, r.abp, r.ac, s.frames, 0);
  }

  // ------------------------------------------------------------------ errors

  /** The chain up to a depth, seen from the activation at that depth. */
  lemma ChainAt(s: State, d: nat)
    requires Inv(s) && d <= |s.frames|
    ensures Chain(s.m.stack, s.m.regs.nfbp, ArgsAt(s, d).0, ArgsAt(s, d).1, s.frames[..d])
    ensures Floor(s.m.regs.nfbp, ArgsAt(s, d).0, ArgsAt(s, d).1, s.frames[..d]) <= s.m.regs.abp2
  {
    var r := s.m.regs;
    if d < |s.frames| {
      ChainPrefix(s.m.stack, r.nfbp, r.abp, r.ac, s.frames, d);
      ChainAbove(s.m.stack, r.nfbp, r.abp, r.ac, s.frames, d);
    } else {
      assert s.frames[..d] == s.frames;
    }
  }

  lemma ArgsAscend(s: State, d: nat, e: nat)
    requires Inv(s) && 0 < d < e <= |s.frames|
    ensures ArgsAt(s, d).0 + ArgsAt(s, d).1 + 4 <= ArgsAt(s, e).0
  {
    ChainAt(s, e);
    ChainAbove(s.m.stack, s.m.regs.nfbp, ArgsAt(s, e).0, ArgsAt(s, e).1, s.frames[..e], d);
    assert s.frames[..e][..d] == s.frames[..d];
  }

  lemma TriedOnce(s: State, d: nat, e: nat)
    requires Inv(s) && TriedAt(s, d) && TriedAt(s, e)
    ensures d == e
  {
    if d < e { ArgsAscend(s, d, e); }
    if e < d { ArgsAscend(s, e, d); }
  }

  /** The registers of `SetError` before it leaves the tried function. */
  function Unwinding(m: Mem, error: int, ref: Ref): Mem {
    m.(regs := m.regs.(abp := m.regs.tryAbp, ac := m.regs.tryAc, rv := ReturnValue(0, 0, ref, error), leavingIndex := 0))
  }

  function UnwindingState(s: State, error: int, ref: Ref, d: nat): State
    requires d <= |s.frames|
  {
    State(Unwinding(s.m, error, ref), s.frames[..d])
  }

  lemma UnwindingKeepsInv(s: State, error: int, ref: Ref, d: nat)
    requires Inv(s) && TriedAt(s, d)
    ensures Inv(UnwindingState(s, error, ref, d))
  {
    ChainAt(s, d);
  }

  /** An error leaves the tried function exactly as if it were the running one and returned. */
  lemma ErrorReturns(s: State, error: int, ref: Ref, d: nat)
    requires Inv(s) && HasTry(s.m.regs) && TriedAt(s, d)
    ensures var u := UnwindingState(s, error, ref, d);
            && Inv(u) && Leave(u.m).Some? && SetError(s.m, error, ref) == Leave(u.m).value
            && Step(u, Return) == Some(State(SetError(s.m, error, ref), s.frames[..d - 1]))
  {
    var u := UnwindingState(s, error, ref, d);
    UnwindingKeepsInv(s, error, ref, d);
    assert Leave(u.m).Some? by { LeaveReads(u.m, Top(u.frames)); }
    assert Rest(u.frames) == s.frames[..d - 1];
  }

  lemma FailWithTryKeeps(s: State, error: int, ref: Ref, e: nat, d: nat)
    requires Inv(s) && HasTry(s.m.regs) && TriedAt(s, e) && d < e
    ensures var s' := State(SetError(s.m, error, ref), s.frames[..e - 1]); Inv(s') && Kept(s, s', d)
  {
    var u := UnwindingState(s, error, ref, e);
    ErrorReturns(s, error, ref, e);
    ReturnKeeps(u, d);
    assert u.frames[..d] == s.frames[..d];
  }

  lemma FailWithoutTryKeeps(s: State, error: int, ref: Ref)
    requires Inv(s) && !HasTry(s.m.regs)
    ensures var s' := State(SetError(s.m, error, ref), []); Inv(s') && Kept(s, s', 0)
  {
    if s.frames != [] { ChainAbove(s.m.stack, s.m.regs.nfbp, s.m.regs.abp, s.m.regs.ac, s.frames, 0); }
    ChainAt(s, 0);
  }

  lemma FailKeeps(s: State, error: int, ref: Ref, d: nat)
    requires Inv(s) && Step(s, Fail(error, ref)).Some? && d <= |Step(s, Fail(error, ref)).value.frames|
    ensures var s' := Step(s, Fail(error, ref)).value; Inv(s') && Kept(s, s', d)
  {
    if HasTry(s.m.regs) {
      var e :| TriedAt(s, e) && Step(s, Fail(error, ref)) == Some(State(SetError(s.m, error, ref), s.frames[..e - 1]));
      FailWithTryKeeps(s, error, ref, e, d);
    } else {
      FailWithoutTryKeeps(s, error, ref);
    }
  }

  lemma StepKeeps(s: State, op: Op, d: nat)
    requires Inv(s) && !op.NativeCall? && Step(s, op).Some?
    requires d <= |s.frames| && d <= |Step(s, op).value.frames|
    ensures Inv(Step(s, op).value) && Kept(s, Step(s, op).value, d)
  {
    if op.Call? {
      CallKeeps(s, op.fun, d);
    } else if op.Return? {
      ReturnKeeps(s, d);
    } else if op.Fail? {
      FailKeeps(s, op.error, op.ref, d);
    } else {
      LocalOpsAreLocal(s, op);
      LocalStepKeeps(s, Step(s, op).value, d);
    }
  }

  // ------------------------------------------------------------------ native calls

  function NativeStart(m: Mem): State {
    State(m.(regs := m.regs.(rv := ReturnValue(0, 0, 0, ERROR_SUCCESS))), [])
  }

  /** The slots that a native call fills, and those below them. */
  ghost predicate SavedBelow(stack: seq<Value>, m: Mem) {
    var r, b := m.regs, m.regs.abp2 + m.regs.ac2;
    && |stack| == |m.stack| && b + 7 <= |stack|
    && (forall i :: 0 <= i < b ==> stack[i] == m.stack[i])
    && stack[b] == r.tryArg2 && stack[b + 1] == VRef(r.tryIo)
    && stack[b + 2] == VRef(r.forceRv.r) && stack[b + 3] == VRef(r.forceR)
    && stack[b + 4] == VRef(r.forceR2) && stack[b + 5] == VRef(r.forceRv2.r)
    && stack[b + 6] == VRef(r.tryCatchR)
  }

  lemma OverwriteAt(s: seq<Value>, at: nat, vs: seq<Value>, i: nat)
    requires at + |vs| <= |s| && i < |s|
    ensures Overwrite(s, at, vs)[i] == if at <= i < at + |vs| then vs[i - at] else s[i]
  {
  }

  lemma SaveWrites(m: Mem)
    requires Save(m).Some?
    ensures SavedBelow(Save(m).value.stack, m)
  {
    var b, vs := m.regs.abp2 + m.regs.ac2, NativeSlots(m.regs);
    OverwriteAt(m.stack, b, vs, b);
    OverwriteAt(m.stack, b, vs, b + 1);
    OverwriteAt(m.stack, b, vs, b + 2);
    OverwriteAt(m.stack, b, vs, b + 3);
    OverwriteAt(m.stack, b, vs, b + 4);
    OverwriteAt(m.stack, b, vs, b + 5);
    OverwriteAt(m.stack, b, vs, b + 6);
    forall i: nat | i < b ensures Save(m).value.stack[i] == m.stack[i] {
      OverwriteAt(m.stack, b, vs, i);
    }
  }

  lemma SaveStartsChain(s: State)
    requires Inv(s) && Save(s.m).Some?
    ensures var n := NativeStart(Save(s.m).value); Inv(n) && SavedBelow(n.m.stack, s.m)
    ensures Save(s.m).value.regs.nfbp == s.m.regs.abp2 + s.m.regs.ac2 + 7
  {
    SaveWrites(s.m);
  }

  /** The registers after a native call: all of them as before, but for the result, the scratch
      register and the number of slots that the collector sees. */
  function AfterNative(before: Registers, inner: Registers): Registers {
    before.(sec := before.abp2 + before.ac2, rv := inner.rv, tmpAc2 := inner.tmpAc2)
  }

  lemma RestoreGivesBack(m: Mem, inner: Mem)
    requires SavedBelow(inner.stack, m) && m.regs.esec == m.regs.evbp + m.regs.evc
    ensures CanRestore(inner, SavedOf(m.regs))
    ensures Restore(inner, SavedOf(m.regs)).regs == AfterNative(m.regs, inner.regs)
  {
  }

  /** The caller of the native function gets back an unchanged stack and its registers. */
  ghost predicate NativeReturned(s: State, inner: Mem, s': State) {
    && CanRestore(inner, SavedOf(s.m.regs))
    && s'.m.regs == AfterNative(s.m.regs, inner.regs)
    && s'.frames == s.frames && |s'.m.stack| == |s.m.stack|
    && s.m.regs.abp2 + s.m.regs.ac2 <= |s.m.stack|
    && forall i :: 0 <= i < s.m.regs.abp2 + s.m.regs.ac2 ==> s'.m.stack[i] == s.m.stack[i]
  }

  lemma NativeReturnedKeeps(s: State, inner: Mem, s': State, d: nat)
    requires Inv(s) && NativeReturned(s, inner, s') && d <= |s.frames|
    ensures Inv(s') && Kept(s, s', d)
  {
    var r := s.m.regs;
    ChainFrame(s.m.stack, s'.m.stack, r.nfbp, r.abp, r.ac, s.frames);
    if d < |s.frames| { ChainAbove(s.m.stack, r.nfbp, r.abp, r.ac, s.frames, d); }
  }

  lemma KeptTrans(a: State, b: State, c: State, d: nat)
    requires Kept(a, b, d) && Kept(b, c, d)
    ensures Kept(a, c, d)
  {
  }

  /** A native call gives its caller everything back, whatever the native function ran: nested
      calls, errors that reset its chain, and further native calls. */
  lemma {:induction false} NativeRoundTrip(s: State, body: seq<Op>)
    requires Inv(s) && Save(s.m).Some? && Run(NativeStart(Save(s.m).value), body, 0).Some?
    ensures var inner := Run(NativeStart(Save(s.m).value), body, 0).value;
            && inner.m.regs.nfbp == s.m.regs.abp2 + s.m.regs.ac2 + 7
            && inner.m.regs.nfbp <= |inner.m.stack| == |Save(s.m).value.stack|
            && (forall i :: 0 <= i < inner.m.regs.nfbp ==> inner.m.stack[i] == Save(s.m).value.stack[i])
            && NativeReturned(s, inner.m, Perform(s, NativeCall(body)).value)
    decreases body, 2
  {
    hide Chain, HoldsFrame, Plausible, Step;
    var n := NativeStart(Save(s.m).value);
    SaveStartsChain(s);
    RunKeeps(n, body, 0);
    var inner := Run(n, body, 0).value;
    assert SavedBelow(inner.m.stack, s.m);
    RestoreGivesBack(s.m, inner.m);
  }

  lemma {:induction false} RunKeeps(s: State, ops: seq<Op>, d: nat)
    requires Inv(s) && Run(s, ops, d).Some?
    ensures Inv(Run(s, ops, d).value) && Kept(s, Run(s, ops, d).value, d)
    decreases ops, 1
  {
    if ops == [] {
      ChainAt(s, d);
    } else {
      var s' := Perform(s, ops[0]).value;
      PerformKeeps(s, ops[0], d);
      RunKeeps(s', ops[1..], d);
      KeptTrans(s, s', Run(s', ops[1..], d).value, d);
    }
  }

  lemma {:induction false} PerformKeeps(s: State, op: Op, d: nat)
    requires Inv(s) && Perform(s, op).Some? && d <= |s.frames| && d <= |Perform(s, op).value.frames|
    ensures Inv(Perform(s, op).value) && Kept(s, Perform(s, op).value, d)
    decreases op, 3
  {
    if op.NativeCall? {
      NativeRoundTrip(s, op.body);
      NativeReturnedKeeps(s, Run(NativeStart(Save(s.m).value), op.body, 0).value.m, Perform(s, op).value, d);
    } else {
      StepKeeps(s, op, d);
    }
  }
}