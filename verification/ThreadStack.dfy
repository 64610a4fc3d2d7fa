/** The thread context: registers and a stack changed in place. Every method is proved to have the
    effect of the operation of `CallStack` on the thread's memory. */
module ThreadStack {
  import opened Options
  import opened CallStack
  import opened CallRuns
  import opened StackTrace

  /** The locked lazy values in the slots from `low` to `high`, topmost first. */
  function LockedRefs(stack: seq<Value>, low: nat, high: nat): seq<Ref>
    requires high <= |stack|
    decreases high
  {
    if high <= low then []
    else (if stack[high - 1].VLockedLazyRef? then [stack[high - 1].locked] else []) + LockedRefs(stack, low, high - 1)
  }

  /** The memory after pushing the first values of a try. */
  function Pushed(m: Mem, k: nat): Mem
    requires k <= 6 && m.regs.abp2 + k <= |m.stack|
  {
    if k == 0 then m
    else Mem(m.regs.(abp2 := m.regs.abp2 + k, ac2 := 0, sec := m.regs.abp2 + k),
             Overwrite(m.stack, m.regs.abp2, TrySlots(m.regs)[..k]))
  }

  lemma PushedStart(m: Mem)
    ensures CallStack.PushTryRegs(m).Some? <==> m.regs.abp2 + 6 <= |m.stack|
    ensures CallStack.PushTryRegs(m).Some? ==> CallStack.PushTryRegs(m).value == Pushed(m, 6)
  {
    var vs := TrySlots(m.regs);
    PushAllFits(m, vs);
    if m.regs.abp2 + 6 <= |m.stack| {
      PushAllWrites(m, vs);
      assert vs[..6] == vs;
      assert CallStack.PushTryRegs(m).value.stack == Overwrite(m.stack, m.regs.abp2, vs);
    }
  }

  lemma OverwriteNext(s: seq<Value>, at: nat, vs: seq<Value>, k: nat)
    requires k < |vs| && at + k < |s|
    ensures Overwrite(s, at, vs[..k + 1]) == Overwrite(s, at, vs[..k])[at + k := vs[k]]
  {
    assert vs[..k + 1] == vs[..k] + [vs[k]];
  }

  lemma PushedNext(m: Mem, k: nat)
    requires k < 6 && m.regs.abp2 + k <= |m.stack|
    ensures CallStack.PushLocalVar(Pushed(m, k), TrySlots(m.regs)[k]).Some? <==> m.regs.abp2 + k < |m.stack|
    ensures m.regs.abp2 + k < |m.stack| ==> CallStack.PushLocalVar(Pushed(m, k), TrySlots(m.regs)[k]) == Some(Pushed(m, k + 1))
  {
    var b, vs := m.regs.abp2, TrySlots(m.regs);
    if b + k < |m.stack| {
      OverwriteNext(m.stack, b, vs, k);
      if k == 0 { assert Overwrite(m.stack, b, vs[..0]) == m.stack; }
    }
  }

  /** What a walk appends to. */
  function Earlier(trace: Option<seq<TraceElement>>, isNew: bool): seq<TraceElement> {
    if isNew || trace.None? then [] else trace.value
  }

  /** What a walk down to a height leaves in the trace. */
  ghost function TraceAfter(m: Mem, trace: Option<seq<TraceElement>>, isNew: bool, frames: seq<Activation>, cut: nat)
    : Option<seq<TraceElement>>
  {
    var r := m.regs;
    if Chain(m.stack, r.nfbp, r.abp, r.ac, frames) || r.abp + r.ac <= cut then
      Some(Earlier(trace, isNew) + Trace(frames, r.fp, Before(r.ip), r.abp, r.ac, cut))
    else None
  }

  /** What an error under a try releases and records on top, when there is no frame to leave. */
  function ReleasedAgain(m: Mem): seq<Ref>
    requires m.regs.abp2 + m.regs.ac2 <= |m.stack|
  {
    if HasFrameAt(m.stack, m.regs.tryAbp + m.regs.tryAc) then []
    else LockedRefs(m.stack, m.regs.nfbp, m.regs.abp2 + m.regs.ac2)
  }

  ghost function TraceAgain(m: Mem, trace: Option<seq<TraceElement>>, error: int, ref: Ref, frames: seq<Activation>)
    : Option<seq<TraceElement>>
  {
    if HasFrameAt(m.stack, m.regs.tryAbp + m.regs.tryAc) then trace
    else TraceAfter(Unwinding(m, error, ref), trace, true, frames, m.regs.nfbp)
  }

  /** The lazy values that an error releases: those recorded above the arguments of the tried
      function, or in all of the running native call. */
  ghost function Released(m: Mem): seq<Ref>
    requires m.regs.abp2 + m.regs.ac2 <= |m.stack|
  {
    var r, top := m.regs, m.regs.abp2 + m.regs.ac2;
    if HasTry(r) then LockedRefs(m.stack, r.tryAbp + r.tryAc, top) + ReleasedAgain(m) else LockedRefs(m.stack, r.nfbp, top)
  }

  ghost function ErrorTrace(m: Mem, trace: Option<seq<TraceElement>>, error: int, ref: Ref, isNew: bool,
                            frames: seq<Activation>): Option<seq<TraceElement>>
  {
    var r := m.regs;
    if HasTry(r) then TraceAgain(m, TraceAfter(m, trace, isNew, frames, r.tryAbp + r.tryAc), error, ref, frames)
    else TraceAfter(m, trace, isNew, frames, r.nfbp)
  }

  lemma ChainHasFrame(stack: seq<Value>, base: nat, abp: nat, ac: nat, left: seq<Activation>, cut: nat)
    requires Chain(stack, base, abp, ac, left) && base <= cut < abp + ac
    ensures HasFrameAt(stack, abp + ac)
  {
    assert left != [] && HoldsFrame(stack, abp + ac, Top(left));
  }

  /** One step of a walk: the frame above the cut-off holds the next caller, which lies lower. */
  lemma NextFrame(stack: seq<Value>, base: nat, abp: nat, ac: nat, left: seq<Activation>, fun: int, instr: nat, cut: nat)
    requires Chain(stack, base, abp, ac, left) && HasFrameAt(stack, abp + ac) && base <= cut < abp + ac
    ensures var fbp := abp + ac;
            && left != [] && stack[fbp].first + stack[fbp].second < fbp
            && Chain(stack, base, stack[fbp].first, stack[fbp].second, Rest(left))
            && Trace(left, fun, instr, abp, ac, cut)
               == Element(fun, instr) + Trace(Rest(left), UnpackFp(stack[fbp + 2].i), stack[fbp + 1].second,
                                              stack[fbp].first, stack[fbp].second, cut)
  {
    assert left != [] && HoldsFrame(stack, abp + ac, Top(left));
    if Rest(left) != [] { ChainAbove(stack, base, abp, ac, left, |left| - 1); }
  }

  class ThreadContext {
    var regs: Registers
    const stack: array<Value>
    const exprStackSize: nat
    /** `None` after a walk that met no frame where it expected one. */
    var stackTrace: Option<seq<TraceElement>>
    /** The lazy values whose mutexes this thread released while unwinding. */
    var unlocked: seq<Ref>

    function View(): Mem
      reads this, stack
    {
      Mem(regs, stack[..])
    }

    constructor (stackSize: nat, exprStackSize: nat)
      ensures fresh(stack) && stack.Length == stackSize && this.exprStackSize == exprStackSize
      ensures forall i :: 0 <= i < stackSize ==> stack[i] == VError
      ensures Inv(State(View(), [])) && regs.nfbp == 0 && regs.enfbp == 0
      ensures stackTrace == None && unlocked == []
    {
      var none := ReturnValue(0, 0, 0, ERROR_SUCCESS);
      regs := Registers(0, 0, 0, 0, 0, 0, 0, 0, 0, 0, 0, NO_FUN, 0, none, false, false, 0, 0, false, 0,
                        false, false, 0, 0, VError, 0, ERROR_SUCCESS, 0, none, 0, 0, none);
      this.exprStackSize := exprStackSize;
      stack := new Value[stackSize](_ => VError);
      stackTrace, unlocked := None, [];
    }

    method PushLocalVar(value: Value) returns (ok: bool)
      modifies this`regs, stack
      ensures ok == CallStack.PushLocalVar(old(View()), value).Some?
      ensures View() == if ok then CallStack.PushLocalVar(old(View()), value).value else old(View())
    {
      if regs.abp2 < stack.Length {
        stack[regs.abp2] := value;
        regs := regs.(abp2 := regs.abp2 + 1);
        regs := regs.(ac2 := 0);
        regs := regs.(sec := regs.abp2);
        return true;
      }
      return false;
    }

    method PopArgs()
      modifies this`regs
      ensures View() == CallStack.PopArgs(old(View()))
    {
      regs := regs.(ac2 := 0);
      regs := regs.(sec := regs.abp2);
    }

    method PopArgsAndLocalVars()
      modifies this`regs
      ensures View() == CallStack.PopArgsAndLocalVars(old(View()))
    {
      regs := regs.(abp2 := regs.abp + regs.ac + 4);
      regs := regs.(lvc := 0, ac2 := 0);
      regs := regs.(sec := regs.abp2);
    }

    method HideArgs()
      modifies this`regs
      ensures View() == CallStack.HideArgs(old(View()))
    {
      regs := regs.(tmpAc2 := regs.ac2);
      regs := regs.(abp2 := regs.abp2 + regs.tmpAc2);
      regs := regs.(ac2 := 0);
    }

    method RestoreAbp2AndAc2()
      requires regs.tmpAc2 <= regs.abp2
      modifies this`regs
      ensures View() == RestoreArgs(old(View()))
    {
      regs := regs.(abp2 := regs.abp2 - regs.tmpAc2);
      regs := regs.(ac2 := regs.tmpAc2);
      regs := regs.(sec := regs.abp2 + regs.ac2);
    }

    method SetTryRegs(arg2: Value, io: Ref)
      modifies this`regs
      ensures View() == CallStack.SetTryRegs(old(View()), arg2, io)
    {
      regs := regs.(tryFlag := true, tryCatchFlag := false);
      regs := regs.(tryAbp := regs.abp2, tryAc := regs.ac2);
      regs := regs.(tryArg2 := arg2, tryIo := io, tryCatchError := ERROR_SUCCESS, tryCatchR := 0);
    }

    method PushArg(value: Value) returns (ok: bool)
      modifies this`regs, stack
      ensures ok == CallStack.PushArg(old(View()), value).Some?
      ensures View() == if ok then CallStack.PushArg(old(View()), value).value else old(View())
    {
      if regs.abp2 + regs.ac2 < stack.Length {
        stack[regs.abp2 + regs.ac2] := value;
        regs := regs.(ac2 := regs.ac2 + 1);
        regs := regs.(sec := regs.sec + 1);
        return true;
      }
      return false;
    }

    method EnterToFun(i: nat) returns (ok: bool)
      modifies this`regs, stack
      ensures ok == Enter(old(View()), i).Some?
      ensures View() == if ok then Enter(old(View()), i).value else old(View())
    {
      var top := regs.abp2 + regs.ac2;
      if top + 4 < stack.Length {
        StoreCaller(top);
        regs := regs.(abp := regs.abp2, ac := regs.ac2);
        regs := regs.(abp2 := regs.abp + regs.ac + 4, lvc := 0, ac2 := 0, evbp := regs.evbp + regs.evc, evc := 0);
        regs := regs.(sec := regs.abp2, esec := regs.evbp, fp := i, ip := 0,
                      leaving0 := false, leaving1 := false, leavingIndex := 0);
        return true;
      }
      return false;
    }

    /** The four slots of a call. */
    method StoreCaller(top: nat)
      requires top + 4 < stack.Length
      modifies stack
      ensures stack[..] == old(stack[..])[top := VPair(regs.abp, regs.ac)]
                                         [top + 1 := VPair(regs.lvc, Before(regs.ip))]
                                         [top + 2 := VInt(Pack(regs.fp, regs.leavingIndex, regs.cached))]
                                         [top + 3 := VPair(regs.evbp, regs.evc)]
    {
      stack[top] := VPair(regs.abp, regs.ac);
      stack[top + 1] := VPair(regs.lvc, Before(regs.ip));
      var w := Pack(regs.fp, regs.leavingIndex, regs.cached);
      stack[top + 2] := VInt(w);
      stack[top + 3] := VPair(regs.evbp, regs.evc);
    }

    method LeaveFromFun() returns (ok: bool)
      modifies this`regs
      ensures ok == Leave(old(View())).Some?
      ensures View() == if ok then Leave(old(View())).value else old(View())
    {
      var fbp := regs.abp + regs.ac;
      if fbp + 4 < stack.Length && stack[fbp].VPair? && stack[fbp + 1].VPair? && stack[fbp + 2].VInt? && stack[fbp + 3].VPair? {
        LeaveWith(stack[fbp].first, stack[fbp].second, stack[fbp + 1].first, stack[fbp + 1].second, stack[fbp + 2].i,
                  stack[fbp + 3].first, stack[fbp + 3].second);
        return true;
      }
      return false;
    }

    method LeaveWith(abp: nat, ac: nat, lvc: nat, ip: nat, word: int, evbp: nat, evc: nat)
      modifies this`regs
      ensures regs == old(regs).(
                abp2 := old(regs.abp), ac2 := old(regs.ac), abp := abp, ac := ac, lvc := lvc, sec := old(regs.abp), ip := ip,
                fp := UnpackFp(word), leavingIndex := UnpackIndex(word), cached := UnpackCached(word),
                leaving0 := old(regs.leaving0) || UnpackIndex(word) == 0,
                leaving1 := old(regs.leaving1) || UnpackIndex(word) == 1,
                evbp := evbp, evc := evc, esec := evbp + evc)
    {
      regs := regs.(abp2 := regs.abp, ac2 := regs.ac);
      regs := regs.(abp := abp, ac := ac, lvc := lvc, sec := regs.abp2, ip := ip);
      regs := regs.(fp := UnpackFp(word), leavingIndex := UnpackIndex(word));
      if regs.leavingIndex == 0 { regs := regs.(leaving0 := true); } else { regs := regs.(leaving1 := true); }
      regs := regs.(cached := UnpackCached(word), evbp := evbp, evc := evc, esec := evbp + evc);
    }

    method PushTryValue(ghost m: Mem, ghost k: nat, value: Value) returns (ok: bool)
      requires k < 6 && m.regs.abp2 + k <= |m.stack|
      requires View() == Pushed(m, k) && value == TrySlots(m.regs)[k]
      modifies this`regs, stack
      ensures ok == (m.regs.abp2 + k < |m.stack|)
      ensures View() == Pushed(m, if ok then k + 1 else k)
      ensures TrySlots(regs) == old(TrySlots(regs))
    {
      PushedNext(m, k);
      ok := PushLocalVar(value);
    }

    method PushTryFlags(ghost m: Mem) returns (ok: bool)
      requires View() == m && m.regs.abp2 <= |m.stack|
      modifies this`regs, stack
      ensures ok ==> m.regs.abp2 + 2 <= |m.stack| && View() == Pushed(m, 2)
      ensures !ok ==> m.regs.abp2 + 2 > |m.stack| && View() == Pushed(m, |m.stack| - m.regs.abp2)
      ensures TrySlots(regs) == TrySlots(m.regs)
    {
      ok := PushTryValue(m, 0, VInt((if regs.tryFlag then 1 else 0) + (if regs.tryCatchFlag then 2 else 0)));
      if ok {
        ok := PushTryValue(m, 1, VInt(ToInt64(ToUInt64(regs.tryAbp * TWO32 + regs.tryAc))));
      }
    }

    method PushTryArgs(ghost m: Mem) returns (ok: bool)
      requires m.regs.abp2 + 2 <= |m.stack| && View() == Pushed(m, 2) && TrySlots(regs) == TrySlots(m.regs)
      modifies this`regs, stack
      ensures ok ==> m.regs.abp2 + 4 <= |m.stack| && View() == Pushed(m, 4)
      ensures !ok ==> m.regs.abp2 + 4 > |m.stack| && View() == Pushed(m, |m.stack| - m.regs.abp2)
      ensures TrySlots(regs) == TrySlots(m.regs)
    {
      ok := PushTryValue(m, 2, regs.tryArg2);
      if ok {
        ok := PushTryValue(m, 3, VRef(regs.tryIo));
      }
    }

    method PushTryError(ghost m: Mem) returns (ok: bool)
      requires m.regs.abp2 + 4 <= |m.stack| && View() == Pushed(m, 4) && TrySlots(regs) == TrySlots(m.regs)
      modifies this`regs, stack
      ensures ok ==> m.regs.abp2 + 6 <= |m.stack| && View() == Pushed(m, 6)
      ensures !ok ==> m.regs.abp2 + 6 > |m.stack| && View() == Pushed(m, |m.stack| - m.regs.abp2)
    {
      ok := PushTryValue(m, 4, VInt(regs.tryCatchError));
      if ok {
        ok := PushTryValue(m, 5, VRef(regs.tryCatchR));
      }
    }

    /** Where it fails, the stack is full and some of the six values lie on it. */
    method PushTryRegs() returns (ok: bool)
      requires regs.abp2 <= stack.Length
      modifies this`regs, stack
      ensures ok == CallStack.PushTryRegs(old(View())).Some?
      ensures ok ==> View() == CallStack.PushTryRegs(old(View())).value
      ensures !ok ==> stack.Length - old(regs.abp2) < 6 && View() == Pushed(old(View()), stack.Length - old(regs.abp2))
    {
      ghost var m := View();
      PushedStart(m);
      ok := PushTryFlags(m);
      if ok { ok := PushTryArgs(m); }
      if ok { ok := PushTryError(m); }
    }

    method PopTryRegs() returns (ok: bool)
      requires CanPopTry(View())
      modifies this`regs
      ensures ok == CallStack.PopTryRegs(old(View())).Some?
      ensures View() == if ok then CallStack.PopTryRegs(old(View())).value else old(View())
    {
      var abp2 := regs.abp2 - 6;
      if regs.abp2 >= 4 && stack[abp2].VInt? && stack[abp2 + 1].VInt? && stack[abp2 + 3].VRef? && stack[abp2 + 4].VInt? && stack[abp2 + 5].VRef? {
        regs := regs.(sec := regs.sec - 6, abp2 := regs.abp2 - 6);
        regs := regs.(tryCatchR := stack[regs.abp2 + 5].r, tryCatchError := ToInt32(stack[regs.abp2 + 4].i),
                      tryIo := stack[regs.abp2 + 3].r, tryArg2 := stack[regs.abp2 + 2],
                      tryAbp := (stack[regs.abp2 + 1].i / TWO32) % TWO32, tryAc := stack[regs.abp2 + 1].i % TWO32,
                      tryFlag := stack[regs.abp2].i % 2 == 1, tryCatchFlag := (stack[regs.abp2].i / 2) % 2 == 1);
        return true;
      }
      return false;
    }

    /** Releases the lazy values recorded above a height, topmost first. */
    method TryLockAndUnlockLazyValues(newCount: nat)
      requires regs.abp2 + regs.ac2 <= stack.Length
      modifies this`unlocked
      ensures unlocked == old(unlocked) + LockedRefs(stack[..], newCount, regs.abp2 + regs.ac2)
    {
      var i: nat := regs.abp2 + regs.ac2;
      ghost var slots := stack[..];
      ghost var whole := unlocked + LockedRefs(slots, newCount, i);
      while i > newCount
        invariant i <= |slots|
        invariant unlocked + LockedRefs(slots, newCount, i) == whole
      {
        i := i - 1;
        assert stack[i] == slots[i];
        if stack[i].VLockedLazyRef? {
          unlocked := unlocked + [stack[i].locked];
        }
      }
    }

    /** Walks over the frames down to a height. The frames are the ones of a chain, or the walk
        meets no frame at the very first step. */
    method AddStackTraceElems(newCount: nat, isNew: bool, ghost frames: seq<Activation>)
      requires regs.nfbp <= newCount
      requires Chain(stack[..], regs.nfbp, regs.abp, regs.ac, frames) || !HasFrameAt(stack[..], regs.abp + regs.ac)
      modifies this`stackTrace
      ensures stackTrace == TraceAfter(old(View()), old(stackTrace), isNew, frames, newCount)
    {
      hide Chain, HoldsFrame, Plausible;
      var trace := Earlier(stackTrace, isNew);
      var fun, instr := regs.fp, Before(regs.ip);
      var abp: nat, ac: nat := regs.abp, regs.ac;
      ghost var left, chained := frames, Chain(stack[..], regs.nfbp, abp, ac, frames);
      ghost var whole := trace + Trace(frames, fun, instr, abp, ac, newCount);
      while true
        invariant chained ==> Chain(stack[..], regs.nfbp, abp, ac, left)
        invariant !chained ==> !HasFrameAt(stack[..], abp + ac) && abp == regs.abp && ac == regs.ac
        invariant trace + Trace(left, fun, instr, abp, ac, newCount) == whole
        decreases abp + ac
      {
        trace := trace + Element(fun, instr);
        if abp + ac <= newCount {
          break;
        }
        var fbp := abp + ac;
        if HasFrameAt(stack[..], fbp) {
          NextFrame(stack[..], regs.nfbp, abp, ac, left, fun, instr, newCount);
          abp, ac := stack[fbp].first, stack[fbp].second;
          instr := stack[fbp + 1].second;
          fun := UnpackFp(stack[fbp + 2].i);
          left := Rest(left);
        } else {
          if chained { ChainHasFrame(stack[..], regs.nfbp, abp, ac, left, newCount); }
          stackTrace := None;
          return;
        }
      }
      stackTrace := Some(trace);
    }

    /** What both branches of an error do before they touch the registers. */
    method ReleaseAndTrace(newCount: nat, isNew: bool, ghost frames: seq<Activation>)
      requires regs.nfbp <= newCount && regs.abp2 + regs.ac2 <= stack.Length
      requires Chain(stack[..], regs.nfbp, regs.abp, regs.ac, frames) || !HasFrameAt(stack[..], regs.abp + regs.ac)
      modifies this`stackTrace, this`unlocked
      ensures unlocked == old(unlocked) + LockedRefs(stack[..], newCount, regs.abp2 + regs.ac2)
      ensures stackTrace == TraceAfter(old(View()), old(stackTrace), isNew, frames, newCount)
    {
      TryLockAndUnlockLazyValues(newCount);
      AddStackTraceElems(newCount, isNew, frames);
    }

    /** An error that no `try` of the running native call catches. */
    method SetErrorWithoutTry(error: int, ref: Ref, isNew: bool, ghost frames: seq<Activation>)
      requires regs.abp2 + regs.ac2 <= stack.Length
      requires Chain(stack[..], regs.nfbp, regs.abp, regs.ac, frames) || !HasFrameAt(stack[..], regs.abp + regs.ac)
      modifies this`regs, this`stackTrace, this`unlocked
      ensures View() == CallStack.SetErrorWithoutTry(old(View()), error, ref)
      ensures unlocked == old(unlocked) + LockedRefs(stack[..], old(regs.nfbp), old(regs.abp2 + regs.ac2))
      ensures stackTrace == TraceAfter(old(View()), old(stackTrace), isNew, frames, old(regs.nfbp))
    {
      ReleaseAndTrace(regs.nfbp, isNew, frames);
      ResetToBase(error, ref);
    }

    method ResetToBase(error: int, ref: Ref)
      modifies this`regs
      ensures View() == CallStack.SetErrorWithoutTry(old(View()), error, ref)
    {
      regs := regs.(abp := regs.nfbp, abp2 := regs.nfbp, sec := regs.nfbp, evbp := regs.enfbp, esec := regs.enfbp);
      regs := regs.(ac := 0, lvc := 0, ac2 := 0, evc := 0, fp := NO_FUN, ip := 0, rv := ReturnValue(0, 0, ref, error),
                    leaving0 := false, leaving1 := false);
    }

    /** Leaves the tried function in place of the running one. */
    method LeaveTried(error: int, ref: Ref) returns (ok: bool)
      modifies this`regs
      ensures ok == Leave(Unwinding(old(View()), error, ref)).Some?
      ensures View() == if ok then Leave(Unwinding(old(View()), error, ref)).value else Unwinding(old(View()), error, ref)
    {
      regs := regs.(abp := regs.tryAbp, ac := regs.tryAc, rv := ReturnValue(0, 0, ref, error), leavingIndex := 0);
      ok := LeaveFromFun();
    }

    /** An error: unwinds to the tried function, if a frame lies where its frame would be. */
    method SetError(error: int, ref: Ref, isNew: bool, ghost frames: seq<Activation>)
      requires regs.abp2 + regs.ac2 <= stack.Length && Chain(stack[..], regs.nfbp, regs.abp, regs.ac, frames)
      modifies this`regs, this`stackTrace, this`unlocked
      ensures View() == CallStack.SetError(old(View()), error, ref)
      ensures unlocked == old(unlocked) + Released(old(View()))
      ensures stackTrace == ErrorTrace(old(View()), old(stackTrace), error, ref, isNew, frames)
    {
      if !regs.tryFlag || regs.tryAbp < regs.nfbp {
        SetErrorWithoutTry(error, ref, isNew, frames);
      } else {
        SetErrorWithTry(error, ref, isNew, frames);
      }
    }

    method SetErrorWithTry(error: int, ref: Ref, isNew: bool, ghost frames: seq<Activation>)
      requires HasTry(regs) && regs.abp2 + regs.ac2 <= stack.Length && Chain(stack[..], regs.nfbp, regs.abp, regs.ac, frames)
      modifies this`regs, this`stackTrace, this`unlocked
      ensures View() == CallStack.SetError(old(View()), error, ref)
      ensures unlocked == old(unlocked) + Released(old(View()))
      ensures stackTrace == ErrorTrace(old(View()), old(stackTrace), error, ref, isNew, frames)
    {
      hide LockedRefs, Chain, Trace;
      ghost var m, t, before, cut := View(), stackTrace, unlocked, regs.tryAbp + regs.tryAc;
      ghost var first, second := LockedRefs(m.stack, cut, m.regs.abp2 + m.regs.ac2), ReleasedAgain(m);
      ReleaseAndTrace(regs.tryAbp + regs.tryAc, isNew, frames);
      assert View() == m && stackTrace == TraceAfter(m, t, isNew, frames, cut) && unlocked == before + first;
      UnwindToTry(error, ref, frames);
      assert unlocked == before + first + second == before + (first + second);
    }

    method UnwindToTry(error: int, ref: Ref, ghost frames: seq<Activation>)
      requires HasTry(regs) && regs.abp2 + regs.ac2 <= stack.Length
      modifies this`regs, this`stackTrace, this`unlocked
      ensures View() == CallStack.SetError(old(View()), error, ref)
      ensures unlocked == old(unlocked) + ReleasedAgain(old(View()))
      ensures stackTrace == TraceAgain(old(View()), old(stackTrace), error, ref, frames)
    {
      var ok := LeaveTried(error, ref);
      if !ok {
        SetErrorWithoutTry(error, ref, true, frames);
      }
    }

    method SaveRegsAndSetRegs() returns (ok: bool, saved: SavedRegisters)
      modifies this`regs, stack
      ensures saved == SavedOf(old(regs)) && ok == Save(old(View())).Some?
      ensures View() == if ok then Save(old(View())).value else old(View())
    {
      saved := SavedOf(regs);
      var sec := saved.sec;
      if sec + 7 > stack.Length { return false, saved; }
      StoreNative(sec);
      regs := regs.(nfbp := sec + 7, enfbp := regs.esec);
      regs := regs.(abp := regs.nfbp, abp2 := regs.nfbp, sec := regs.nfbp, ac := 0, lvc := 0, ac2 := 0, fp := NO_FUN, ip := 0,
                    leaving0 := false, leaving1 := false, leavingIndex := 0, argInstr := false, cached := 0,
                    tryFlag := false, tryCatchFlag := false, tryArg2 := VError, tryIo := 0, tryAbp := regs.nfbp, tryAc := 0);
      return true, saved;
    }

    /** The seven slots of a native call. */
    method StoreNative(sec: nat)
      requires sec + 7 <= stack.Length
      modifies stack
      ensures stack[..] == Overwrite(old(stack[..]), sec, NativeSlots(regs))
    {
      stack[sec] := regs.tryArg2;
      stack[sec + 1] := VRef(regs.tryIo);
      stack[sec + 2] := VRef(regs.forceRv.r);
      stack[sec + 3] := VRef(regs.forceR);
      stack[sec + 4] := VRef(regs.forceR2);
      stack[sec + 5] := VRef(regs.forceRv2.r);
      stack[sec + 6] := VRef(regs.tryCatchR);
    }

    method RestoreRegs(saved: SavedRegisters) returns (ok: bool)
      requires saved.sec + 7 <= stack.Length
      modifies this`regs
      ensures ok == CanRestore(old(View()), saved)
      ensures View() == Restore(old(View()), saved)
    {
      ok := RestoreTry(saved);
      regs := regs.(forceRv := saved.forceRv, forceRv2 := saved.forceRv2, cached := saved.cached, argInstr := saved.argInstr,
                    leavingIndex := saved.leavingIndex, leaving1 := saved.leaving1, leaving0 := saved.leaving0,
                    ip := saved.ip, fp := saved.fp, esec := saved.evbp + saved.evc, evc := saved.evc, evbp := saved.evbp,
                    sec := saved.abp2 + saved.ac2, ac2 := saved.ac2, abp2 := saved.abp2, lvc := saved.lvc,
                    ac := saved.ac, abp := saved.abp, enfbp := saved.enfbp, nfbp := saved.nfbp);
    }

    /** The try and force registers, from the slots where the references of the caller were kept. */
    method RestoreTry(saved: SavedRegisters) returns (ok: bool)
      requires saved.sec + 7 <= stack.Length
      modifies this`regs
      ensures ok == CanRestore(old(View()), saved)
      ensures regs == TryRestored(old(View()), saved)
    {
      var sec := saved.sec;
      if stack[sec + 6].VRef? && stack[sec + 5].VRef? && stack[sec + 5].r == saved.forceRv2.r && stack[sec + 4].VRef?
         && stack[sec + 3].VRef? && stack[sec + 2].VRef? && stack[sec + 2].r == saved.forceRv.r && stack[sec + 1].VRef? {
        regs := regs.(tryCatchR := stack[sec + 6].r, forceR2 := stack[sec + 4].r, forceR := stack[sec + 3].r,
                      tryIo := stack[sec + 1].r, tryArg2 := stack[sec], tryCatchError := saved.tryCatchError,
                      tryAc := saved.tryAc, tryAbp := saved.tryAbp, tryCatchFlag := saved.tryCatchFlag, tryFlag := saved.tryFlag);
        return true;
      }
      regs := regs.(tryCatchR := 0, forceR2 := 0, forceR := 0, tryFlag := false, tryCatchFlag := false, tryArg2 := VError,
                    tryIo := 0, tryAbp := saved.nfbp, tryCatchError := ERROR_SUCCESS, tryAc := 0);
      return false;
    }
  }
}