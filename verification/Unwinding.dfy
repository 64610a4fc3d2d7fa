/** Errors and returns. Leaving a function gives its caller the registers it called with, however
    the function ends: by returning, or by an error under a `try`, at any depth of further calls. */
module Unwinding {
  import opened Options
  import opened CallStack
  import opened CallRuns

  /** The registers that a call stores and a return reads back. */
  datatype CallRegisters = CallRegisters(abp: nat, ac: nat, lvc: nat, abp2: nat, ac2: nat, sec: nat, fp: int, ip: nat,
                                         evbp: nat, evc: nat, esec: nat, leavingIndex: nat, cached: nat)

  function CallRegistersOf(r: Registers): CallRegisters {
    CallRegisters(r.abp, r.ac, r.lvc, r.abp2, r.ac2, r.sec, r.fp, r.ip, r.evbp, r.evc, r.esec, r.leavingIndex, r.cached)
  }

  /** The registers of a caller after its call: its pushed arguments are still there, but no longer
      among the slots the collector sees, and it is about to run the call instruction again. */
  function Resumed(r: Registers): CallRegisters {
    CallRegistersOf(r).(sec := r.abp2, ip := Before(r.ip), esec := r.evbp + r.evc)
  }

  /** A state in which the function called from `s` is still active. */
  ghost predicate Within(s: State, t: State) {
    var n := |s.frames|;
    && Inv(t) && n < |t.frames| && t.frames[..n + 1] == s.frames + [ActivationOf(s.m.regs)]
    && ArgsAt(t, n + 1) == (s.m.regs.abp2, s.m.regs.ac2)
    && t.m.regs.nfbp == s.m.regs.nfbp && |t.m.stack| == |s.m.stack|
    && s.m.regs.abp2 <= |s.m.stack|
    && forall i :: 0 <= i < s.m.regs.abp2 ==> t.m.stack[i] == s.m.stack[i]
  }

  /** The caller goes on: its registers, its callers and its slots are back. */
  ghost predicate Back(s: State, t: State) {
    && CallRegistersOf(t.m.regs) == Resumed(s.m.regs)
    && t.frames == s.frames && Inv(t) && |t.m.stack| == |s.m.stack|
    && s.m.regs.abp2 <= |s.m.stack|
    && forall i :: 0 <= i < s.m.regs.abp2 ==> t.m.stack[i] == s.m.stack[i]
  }

  lemma CallIsWithin(s: State, fun: int, entered: State)
    requires Inv(s) && Step(s, Call(fun)) == Some(entered)
    ensures Within(s, entered)
  {
    CallKeeps(s, fun, |s.frames|);
    EnterWrites(s.m, fun);
    assert entered.frames[..|s.frames| + 1] == entered.frames;
  }

  lemma KeptWithin(s: State, entered: State, t: State)
    requires Within(s, entered) && Inv(t) && Kept(entered, t, |s.frames| + 1)
    ensures Within(s, t)
  {
  }

  lemma RunStaysWithin(s: State, fun: int, entered: State, ops: seq<Op>, t: State)
    requires Inv(s) && Step(s, Call(fun)) == Some(entered) && Run(entered, ops, |s.frames| + 1) == Some(t)
    ensures Within(s, t)
  {
    CallIsWithin(s, fun, entered);
    RunKeeps(entered, ops, |s.frames| + 1);
    KeptWithin(s, entered, t);
  }

  /** A call and its return: whatever the callee did, the caller resumes. */
  lemma ReturnResumes(s: State, fun: int, entered: State, ops: seq<Op>, t: State)
    requires Inv(s) && Step(s, Call(fun)) == Some(entered) && Run(entered, ops, |s.frames| + 1) == Some(t)
    requires |t.frames| == |s.frames| + 1
    ensures Step(t, Return).Some? && Back(s, Step(t, Return).value)
  {
    RunStaysWithin(s, fun, entered, ops, t);
    assert t.frames[..|s.frames| + 1] == t.frames;
    LeaveReads(t.m, Top(t.frames));
    assert Rest(t.frames) == s.frames;
    ReturnKeeps(t, |s.frames|);
  }

  lemma ErrorStepUnwinds(t: State, error: int, ref: Ref, d: nat)
    requires Inv(t) && HasTry(t.m.regs) && TriedAt(t, d)
    ensures Step(t, Fail(error, ref)) == Some(State(SetError(t.m, error, ref), t.frames[..d - 1]))
  {
    forall e | TriedAt(t, e) ensures e == d {
      TriedOnce(t, d, e);
    }
  }

  lemma ErrorReadsBack(t: State, error: int, ref: Ref, d: nat)
    requires Inv(t) && HasTry(t.m.regs) && TriedAt(t, d)
    ensures var m := SetError(t.m, error, ref);
            m.stack == t.m.stack && m.regs.rv == ReturnValue(0, 0, ref, error)
            && ReadBack(Unwinding(t.m, error, ref).regs, m.regs, t.frames[d - 1])
  {
    var u := UnwindingState(t, error, ref, d);
    ErrorReturns(t, error, ref, d);
    LeaveReads(u.m, Top(u.frames));
  }

  lemma ErrorBack(s: State, t: State, error: int, ref: Ref)
    requires Within(s, t) && HasTry(t.m.regs) && TriedAt(t, |s.frames| + 1)
    ensures var e := State(SetError(t.m, error, ref), s.frames);
            Back(s, e) && e.m.regs.rv == ReturnValue(0, 0, ref, error)
  {
    hide Chain, HoldsFrame;
    var n := |s.frames|;
    ErrorReadsBack(t, error, ref, n + 1);
    assert t.frames[n] == t.frames[..n + 1][n] == ActivationOf(s.m.regs);
    assert t.frames[..n] == t.frames[..n + 1][..n] == s.frames;
    FailWithTryKeeps(t, error, ref, n + 1, n);
  }

  lemma TryKeeps(s: State, arg2: Value, io: Ref)
    requires Inv(s)
    ensures var tried := State(SetTryRegs(s.m, arg2, io), s.frames);
            && Step(s, Try(arg2, io)) == Some(tried) && Inv(tried)
            && forall t :: Within(tried, t) <==> Within(s, t)
    ensures var tried := State(SetTryRegs(s.m, arg2, io), s.frames); forall t :: Back(tried, t) <==> Back(s, t)
  {
    LocalOpsAreLocal(s, Try(arg2, io));
    LocalStepKeeps(s, Step(s, Try(arg2, io)).value, |s.frames|);
  }

  /** An error anywhere inside a tried function, at any depth of calls, unwinds to the caller that
      set the try registers, which resumes exactly as after a return of that function. */
  lemma ErrorResumes(s: State, arg2: Value, io: Ref, fun: int, entered: State, ops: seq<Op>, t: State, error: int, ref: Ref)
    requires Inv(s) && Step(State(SetTryRegs(s.m, arg2, io), s.frames), Call(fun)) == Some(entered)
    requires Run(entered, ops, |s.frames| + 1) == Some(t)
    requires t.m.regs.tryFlag && t.m.regs.tryAbp == s.m.regs.abp2 && t.m.regs.tryAc == s.m.regs.ac2
    ensures Step(t, Fail(error, ref)) == Some(State(SetError(t.m, error, ref), s.frames))
    ensures Back(s, State(SetError(t.m, error, ref), s.frames))
    ensures SetError(t.m, error, ref).regs.rv == ReturnValue(0, 0, ref, error)
  {
    var n, tried := |s.frames|, State(SetTryRegs(s.m, arg2, io), s.frames);
    TryKeeps(s, arg2, io);
    RunStaysWithin(tried, fun, entered, ops, t);
    ChainAt(s, 0);
    ErrorStepUnwinds(t, error, ref, n + 1);
    ErrorBack(s, t, error, ref);
    assert t.frames[..n] == t.frames[..n + 1][..n] == s.frames;
  }

  // ------------------------------------------------------------------ errors before the call

  /** An error after the try registers are set but before the function is entered (it does not
      exist, or takes other arguments) reads four slots that nobody wrote for this try. It resumes
      the caller exactly if these slots happen to hold the frame the call would have stored. */
  lemma ErrorBeforeCallResumesExactly(s: State, arg2: Value, io: Ref, error: int, ref: Ref)
    requires Inv(s) && s.frames != []
    ensures var r, e := s.m.regs, SetError(SetTryRegs(s.m, arg2, io), error, ref);
            CallRegistersOf(e.regs) == Resumed(r) <==> HoldsFrame(s.m.stack, r.abp2 + r.ac2, ActivationOf(r))
  {
    ChainAt(s, 0);
    ChainAbove(s.m.stack, s.m.regs.nfbp, s.m.regs.abp, s.m.regs.ac, s.frames, 0);
  }

  /** On slots never written the error is not caught: it ends everything back to the last native
      call. */
  lemma ErrorBeforeCallIsNotCaught(s: State, arg2: Value, io: Ref, error: int, ref: Ref)
    requires Inv(s) && !HasFrameAt(s.m.stack, s.m.regs.abp2 + s.m.regs.ac2)
    ensures var r := SetError(SetTryRegs(s.m, arg2, io), error, ref).regs;
            r.fp == NO_FUN && r.abp2 == s.m.regs.nfbp && r.ac == 0 && r.rv == ReturnValue(0, 0, ref, error)
  {
    ChainAt(s, 0);
  }

  /** On slots left over from an earlier call at the same place, the error resumes that call: the
      instruction pointer goes back to the earlier call instruction. */
  lemma StaleFrameResumesEarlierCall(s: State, fun: int, entered: State, ip: nat, arg2: Value, io: Ref, error: int, ref: Ref)
    requires Inv(s) && Step(s, Call(fun)) == Some(entered)
    ensures var back := Step(entered, Return);
            && back.Some?
            && var later := back.value.m.(regs := back.value.m.regs.(ip := ip));
               SetError(SetTryRegs(later, arg2, io), error, ref).regs.ip == Before(s.m.regs.ip)
  {
    hide Chain, HoldsFrame;
    ReturnResumes(s, fun, entered, [], entered);
    ChainAt(s, 0);
    EnterWrites(s.m, fun);
    var back := Step(entered, Return).value;
    var later := SetTryRegs(back.m.(regs := back.m.regs.(ip := ip)), arg2, io);
    assert later.stack == entered.m.stack;
    LeaveReads(Unwinding(later, error, ref), ActivationOf(s.m.regs));
  }

  // ------------------------------------------------------------------ nested tries

  datatype TryRegisters = TryRegisters(flag: bool, catchFlag: bool, abp: nat, ac: nat, arg2: Value, io: Ref, error: int, r: Ref)

  function TryRegistersOf(r: Registers): TryRegisters {
    TryRegisters(r.tryFlag, r.tryCatchFlag, r.tryAbp, r.tryAc, r.tryArg2, r.tryIo, r.tryCatchError, r.tryCatchR)
  }

  lemma WordOfPair(high: nat, low: nat)
    requires high < TWO32 && low < TWO32
    ensures var w := ToInt64(ToUInt64(high * TWO32 + low)); (w / TWO32) % TWO32 == high && w % TWO32 == low
  {
    var u := high * TWO32 + low;
    assert 0 <= u < TWO64;
    var w := ToInt64(ToUInt64(u));
    var q := if u < TWO63 then high else high - TWO32;
    assert w == q * TWO32 + low;
    assert w / TWO32 == q;
  }

  /** The slots of a try that `PushTryRegs` wrote. */
  ghost predicate HoldsTry(stack: seq<Value>, b: nat, r: Registers) {
    && b + 6 <= |stack|
    && stack[b] == TrySlots(r)[0] && stack[b + 1] == TrySlots(r)[1] && stack[b + 2] == r.tryArg2
    && stack[b + 3] == VRef(r.tryIo) && stack[b + 4] == VInt(r.tryCatchError) && stack[b + 5] == VRef(r.tryCatchR)
  }

  lemma PushTryWrites(m: Mem)
    requires PushTryRegs(m).Some?
    ensures HoldsTry(PushTryRegs(m).value.stack, m.regs.abp2, m.regs)
    ensures PushTryRegs(m).value.regs == m.regs.(abp2 := m.regs.abp2 + 6, ac2 := 0, sec := m.regs.abp2 + 6)
    ensures |PushTryRegs(m).value.stack| == |m.stack|
    ensures forall i :: 0 <= i < m.regs.abp2 ==> PushTryRegs(m).value.stack[i] == m.stack[i]
  {
    var b, s', vs := m.regs.abp2, PushTryRegs(m).value.stack, TrySlots(m.regs);
    PushAllFits(m, vs);
    PushAllWrites(m, vs);
    assert s'[b + 0] == vs[0] && s'[b + 1] == vs[1] && s'[b + 2] == vs[2];
    assert s'[b + 3] == vs[3] && s'[b + 4] == vs[4] && s'[b + 5] == vs[5];
  }

  lemma PopTryReads(m: Mem, r: Registers)
    requires m.regs.abp2 >= 6 && m.regs.sec >= 6 && m.regs.abp2 <= |m.stack|
    requires HoldsTry(m.stack, m.regs.abp2 - 6, r)
    requires r.tryAbp < TWO32 && r.tryAc < TWO32 && -TWO31 <= r.tryCatchError < TWO31
    ensures PopTryRegs(m).Some? && TryRegistersOf(PopTryRegs(m).value.regs) == TryRegistersOf(r)
    ensures PopTryRegs(m).value.stack == m.stack
  {
    WordOfPair(r.tryAbp, r.tryAc);
  }

  /** The state in which a try calls its function: the try registers of the outer try lie below the
      pushed arguments. */
  ghost predicate TryPushed(s: State, q: State) {
    var r, r' := s.m.regs, q.m.regs;
    && Inv(q) && q.frames == s.frames && |q.m.stack| == |s.m.stack|
    && r'.abp2 == r.abp2 + 6 <= |q.m.stack| && HoldsTry(q.m.stack, r.abp2, r)
    && CallRegistersOf(r') == CallRegistersOf(r).(abp2 := r'.abp2, ac2 := r'.ac2, sec := r'.sec)
    && forall i :: 0 <= i < r.abp2 ==> q.m.stack[i] == s.m.stack[i]
  }

  lemma {:induction false} PushesKeepTryPushed(s: State, p: State, values: seq<Value>)
    requires TryPushed(s, p) && Run(p, Pushes(values), 0).Some?
    ensures TryPushed(s, Run(p, Pushes(values), 0).value)
    decreases |values|
  {
    hide Chain, HoldsFrame, TrySlots;
    if values != [] {
      var op := Push(values[0]);
      LocalOpsAreLocal(p, op);
      LocalStepKeeps(p, Step(p, op).value, 0);
      assert Pushes(values)[0] == op && Pushes(values)[1..] == Pushes(values[1..]);
      PushesKeepTryPushed(s, Step(p, op).value, values[1..]);
    }
  }

  function Pushes(values: seq<Value>): (ops: seq<Op>)
    ensures |ops| == |values|
  {
    seq(|values|, i requires 0 <= i < |values| => Push(values[i]))
  }

  lemma TryIsPushed(s: State)
    requires Inv(s) && Step(s, PushTry).Some?
    ensures TryPushed(s, Step(s, PushTry).value)
  {
    hide Chain, HoldsFrame, HoldsTry, TrySlots, PushTryRegs;
    PushTryWrites(s.m);
    LocalOpsAreLocal(s, PushTry);
    LocalStepKeeps(s, Step(s, PushTry).value, 0);
  }

  /** Once the tried function is left, by a return or by an error, dropping its arguments and popping
      the try registers leaves the outer try and the stack of the caller as they were. */
  lemma TryIsRestored(s: State, q: State, back: State)
    requires Inv(s) && TryPushed(s, q) && Back(q, back)
    requires s.m.regs.tryAbp < TWO32 && s.m.regs.tryAc < TWO32 && -TWO31 <= s.m.regs.tryCatchError < TWO31
    ensures CanPopTry(PopArgs(back.m))
    ensures var done := PopTryRegs(PopArgs(back.m));
            && done.Some?
            && TryRegistersOf(done.value.regs) == TryRegistersOf(s.m.regs)
            && CallRegistersOf(done.value.regs) == Resumed(s.m.regs).(ac2 := 0)
            && |done.value.stack| == |s.m.stack| && s.m.regs.abp2 <= |s.m.stack|
            && forall i :: 0 <= i < s.m.regs.abp2 ==> done.value.stack[i] == s.m.stack[i]
  {
    PopTryReads(PopArgs(back.m), s.m.regs);
  }

  /** The whole of a failing try: saving the outer try, pushing the arguments, setting the try
      registers, the call, any run inside it, the error, and restoring the outer try. */
  lemma TryExpressionRestores(s: State, values: seq<Value>, q: State, arg2: Value, io: Ref, fun: int, entered: State,
                              ops: seq<Op>, t: State, error: int, ref: Ref)
    requires Inv(s) && Step(s, PushTry).Some? && Run(Step(s, PushTry).value, Pushes(values), 0) == Some(q)
    requires Step(State(SetTryRegs(q.m, arg2, io), q.frames), Call(fun)) == Some(entered)
    requires Run(entered, ops, |s.frames| + 1) == Some(t)
    requires t.m.regs.tryFlag && t.m.regs.tryAbp == q.m.regs.abp2 && t.m.regs.tryAc == q.m.regs.ac2
    requires s.m.regs.tryAbp < TWO32 && s.m.regs.tryAc < TWO32 && -TWO31 <= s.m.regs.tryCatchError < TWO31
    ensures CanPopTry(PopArgs(SetError(t.m, error, ref)))
    ensures var done := PopTryRegs(PopArgs(SetError(t.m, error, ref)));
            && done.Some?
            && TryRegistersOf(done.value.regs) == TryRegistersOf(s.m.regs)
            && CallRegistersOf(done.value.regs) == Resumed(s.m.regs).(ac2 := 0)
            && done.value.regs.rv == ReturnValue(0, 0, ref, error)
  {
    hide Inv, Back, Step, Run, TryPushed, Pushes, SetError, PopTryRegs, CanPopTry, PopArgs, Resumed, TryRegistersOf, CallRegistersOf;
    TryIsPushed(s);
    PushesKeepTryPushed(s, Step(s, PushTry).value, values);
    TryPushedParts(s, q);
    ErrorResumes(q, arg2, io, fun, entered, ops, t, error, ref);
    TryIsRestored(s, q, State(SetError(t.m, error, ref), q.frames));
    PoppingKeepsResult(SetError(t.m, error, ref));
  }

  lemma TryPushedParts(s: State, q: State)
    requires TryPushed(s, q)
    ensures Inv(q) && q.frames == s.frames
  {
  }

  lemma PoppingKeepsResult(m: Mem)
    requires CanPopTry(PopArgs(m)) && PopTryRegs(PopArgs(m)).Some?
    ensures PopTryRegs(PopArgs(m)).value.regs.rv == m.regs.rv
  {
  }
}
