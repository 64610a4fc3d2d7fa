/** The walk over the frames that records a stack trace. */
module StackTrace {
  import opened CallStack
  import opened CallRuns

  datatype TraceElement = TraceElement(fun: int, instr: nat)

  /** A thread outside all functions has no element. */
  function Element(fun: int, instr: nat): seq<TraceElement> {
    if fun != NO_FUN then [TraceElement(fun, instr)] else []
  }

  /** The walk on the abstract callers: up to the first activation whose arguments end at or below
      the cut-off. */
  function Trace(frames: seq<Activation>, fun: int, instr: nat, abp: nat, ac: nat, cut: nat): seq<TraceElement>
    decreases |frames|
  {
    if abp + ac <= cut || frames == [] then Element(fun, instr)
    else
      var f := Top(frames);
      Element(fun, instr) + Trace(Rest(frames), f.fp, f.ip, f.abp, f.ac, cut)
  }

  /** The active functions from the running one down to a depth, each with the instruction before
      the one it goes on with. */
  function ElementsDown(frames: seq<Activation>, fun: int, instr: nat, d: nat): (r: seq<TraceElement>)
    requires d <= |frames| + 1
    ensures |r| == |frames| + 1 - d
  {
    seq(|frames| + 1 - d, i requires 0 <= i <= |frames| =>
      if i == 0 then TraceElement(fun, instr) else TraceElement(frames[|frames| - i].fp, frames[|frames| - i].ip))
  }

  lemma ElementsDownTop(frames: seq<Activation>, fun: int, instr: nat, d: nat)
    requires d <= |frames| && frames != []
    ensures ElementsDown(frames, fun, instr, d)
            == [TraceElement(fun, instr)] + ElementsDown(Rest(frames), Top(frames).fp, Top(frames).ip, d)
  {
  }

  /** A trace down to a tried function has exactly one element for each active function, from the
      running one down to the tried one. */
  lemma {:induction false} TraceDownTo(stack: seq<Value>, base: nat, frames: seq<Activation>, fun: int, instr: nat,
                                       abp: nat, ac: nat, d: nat)
    requires Chain(stack, base, abp, ac, frames) && fun != NO_FUN && 0 < d <= |frames|
    ensures var cut := if d == |frames| then abp + ac else frames[d].abp + frames[d].ac;
            Trace(frames, fun, instr, abp, ac, cut) == ElementsDown(frames, fun, instr, d)
    decreases |frames|
  {
    if d < |frames| {
      var f, rest := Top(frames), Rest(frames);
      ChainAbove(stack, base, abp, ac, frames, d);
      TraceDownTo(stack, base, rest, f.fp, f.ip, f.abp, f.ac, d);
      ElementsDownTop(frames, fun, instr, d);
    }
  }

  /** A trace down to the base has one element for each active function. */
  lemma {:induction false} TraceDownToBase(stack: seq<Value>, base: nat, frames: seq<Activation>, fun: int, instr: nat,
                                           abp: nat, ac: nat)
    requires Chain(stack, base, abp, ac, frames) && (frames == [] <==> fun == NO_FUN)
    ensures Trace(frames, fun, instr, abp, ac, base) == ElementsDown(frames, fun, instr, 1)
    decreases |frames|
  {
    if frames != [] {
      var f, rest := Top(frames), Rest(frames);
      TraceDownToBase(stack, base, rest, f.fp, f.ip, f.abp, f.ac);
      ElementsDownTop(frames, fun, instr, 1);
    }
  }
}
