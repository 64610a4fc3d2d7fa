/** The two stacks and the registers of a thread (`ThreadContext` in vm/vm.cpp and vm/vm.hpp), as
    operations on values. A call stores the registers of its caller in four slots of the value
    stack, behind the arguments; a native call stores seven more registers and moves the base of
    the frames. `ThreadStack` holds the class that performs these operations in place. */
module CallStack {
  import opened Options

  const TWO31: int := 0x8000_0000
  const TWO32: int := 0x1_0000_0000
  const TWO55: int := 0x80_0000_0000_0000
  const TWO56: int := 0x100_0000_0000_0000
  const TWO63: int := 0x8000_0000_0000_0000
  const TWO64: int := 0x1_0000_0000_0000_0000

  /** The function register of a thread that executes no function: all bits set. */
  const NO_FUN: int := 0xffff_ffff_ffff_ffff

  const ERROR_SUCCESS: int := 0

  /** A reference; 0 is the nil reference. */
  type Ref = nat

  datatype Value =
    | VInt(i: int)
    | VFloat(bits: int)
    | VRef(r: Ref)
    | VPair(first: nat, second: nat)
    | VCanceledRef(canceled: Ref)
    | VLazyRef(lazy: Ref)
    | VLockedLazyRef(locked: Ref)
    | VError

  datatype ReturnValue = ReturnValue(i: int, f: int, r: Ref, error: int)

  datatype Registers = Registers(
    abp: nat, ac: nat, lvc: nat,             // arguments and local variables of the running function
    abp2: nat, ac2: nat,                     // arguments being pushed for the next call
    sec: nat,                                // how many stack slots the collector looks at
    evbp: nat, evc: nat, esec: nat,          // the expression stack
    nfbp: nat, enfbp: nat,                   // the bases of the running native function
    fp: int, ip: nat,
    rv: ReturnValue,
    leaving0: bool, leaving1: bool, leavingIndex: nat,
    tmpAc2: nat,
    argInstr: bool, cached: nat,
    tryFlag: bool, tryCatchFlag: bool,
    tryAbp: nat, tryAc: nat, tryArg2: Value, tryIo: Ref,
    tryCatchError: int, tryCatchR: Ref,
    forceRv: ReturnValue, forceR: Ref, forceR2: Ref, forceRv2: ReturnValue)

  datatype Mem = Mem(regs: Registers, stack: seq<Value>)

  // ------------------------------------------------------------------ the packed word

  function ToInt64(u: int): int {
    if u < TWO63 then u else u - TWO64
  }

  function ToUInt64(i: int): int {
    i % TWO64
  }

  /** The function register, the index of the leaving flag and the cached-result flag in one
      64-bit word. The register is shifted left by eight bits, whatever falls off is lost. */
  function Pack(fp: int, index: nat, cached: nat): int {
    ToInt64(ToUInt64(ToInt64(fp) * 256)) + index % 2 + 2 * (cached % 2)
  }

  function UnpackFp(w: int): int {
    ToUInt64(w / 256)
  }

  function UnpackIndex(w: int): nat {
    w % 2
  }

  function UnpackCached(w: int): nat {
    (w / 2) % 2
  }

  /** The low 56 bits of a number, read as a signed number. */
  function Low56(i: int): int {
    var r := i % TWO56;
    if r < TWO55 then r else r - TWO56
  }

  lemma ShiftKeepsLow56(i: int)
    ensures ToInt64(ToUInt64(i * 256)) == 256 * Low56(i)
  {
    var k, r := i / TWO56, i % TWO56;
    assert i * 256 == TWO64 * k + 256 * r;
    assert (i * 256) % TWO64 == 256 * r;
  }

  lemma AboveFlags(q: int, flags: nat)
    requires flags < 4
    ensures (256 * q + flags) / 256 == q
  {
  }

  lemma FlagsBelowShift(q: int, flags: nat)
    requires flags < 4
    ensures (256 * q + flags) % 2 == flags % 2 && ((256 * q + flags) / 2) % 2 == flags / 2
  {
    var half := 128 * q + flags / 2;
    assert 256 * q + flags == 2 * half + flags % 2;
    assert (256 * q + flags) / 2 == half;
    assert half == 2 * (64 * q) + flags / 2;
  }

  lemma Low56Fits(i: int)
    requires -TWO63 <= i < TWO63
    ensures ToUInt64(Low56(i)) == ToUInt64(i) <==> -TWO55 <= i < TWO55
  {
    assert -TWO55 <= Low56(i) < TWO55;
  }

  /** The function register survives packing exactly when its signed value fits 56 bits; the flags
      always do. */
  lemma PackRoundTrip(fp: int, index: nat, cached: nat)
    requires 0 <= fp < TWO64
    ensures UnpackFp(Pack(fp, index, cached)) == fp <==> -TWO55 <= ToInt64(fp) < TWO55
    ensures UnpackIndex(Pack(fp, index, cached)) == index % 2
    ensures UnpackCached(Pack(fp, index, cached)) == cached % 2
  {
    ShiftKeepsLow56(ToInt64(fp));
    AboveFlags(Low56(ToInt64(fp)), index % 2 + 2 * (cached % 2));
    FlagsBelowShift(Low56(ToInt64(fp)), index % 2 + 2 * (cached % 2));
    Low56Fits(ToInt64(fp));
  }

  predicate FpFits(fp: int) {
    fp == NO_FUN || 0 <= fp < TWO55
  }

  lemma FpFitsSigned(fp: int)
    requires FpFits(fp)
    ensures 0 <= fp < TWO64 && -TWO55 <= ToInt64(fp) < TWO55
  {
  }

  lemma PackFits(fp: int, index: nat, cached: nat)
    requires FpFits(fp) && index < 2 && cached < 2
    ensures var w := Pack(fp, index, cached); UnpackFp(w) == fp && UnpackIndex(w) == index && UnpackCached(w) == cached
  {
    FpFitsSigned(fp);
    assert index % 2 == index && cached % 2 == cached;
    PackRoundTrip(fp, index, cached);
  }

  function ToInt32(i: int): int {
    var u := i % TWO32;
    if u < TWO31 then u else u - TWO32
  }

  /** Decrement of a 32-bit instruction pointer. */
  function Before(ip: nat): nat {
    (ip + TWO32 - 1) % TWO32
  }

  // ------------------------------------------------------------------ calls

  function Enter(m: Mem, fun: int): Option<Mem> {
    var r, top := m.regs, m.regs.abp2 + m.regs.ac2;
    if top + 4 < |m.stack| then
      Some(Mem(r.(abp := r.abp2, ac := r.ac2, lvc := 0, abp2 := top + 4, ac2 := 0, sec := top + 4,
                  evbp := r.evbp + r.evc, evc := 0, esec := r.evbp + r.evc, fp := fun, ip := 0,
                  leaving0 := false, leaving1 := false, leavingIndex := 0),
               m.stack[top := VPair(r.abp, r.ac)]
                      [top + 1 := VPair(r.lvc, Before(r.ip))]
                      [top + 2 := VInt(Pack(r.fp, r.leavingIndex, r.cached))]
                      [top + 3 := VPair(r.evbp, r.evc)]))
    else None
  }

  predicate HasFrameAt(stack: seq<Value>, fbp: nat) {
    fbp + 4 < |stack| && stack[fbp].VPair? && stack[fbp + 1].VPair? && stack[fbp + 2].VInt? && stack[fbp + 3].VPair?
  }

  function Leave(m: Mem): Option<Mem> {
    var r, s, fbp := m.regs, m.stack, m.regs.abp + m.regs.ac;
    if HasFrameAt(s, fbp) then
      var index := UnpackIndex(s[fbp + 2].i);
      Some(m.(regs := r.(abp2 := r.abp, ac2 := r.ac, abp := s[fbp].first, ac := s[fbp].second,
                         lvc := s[fbp + 1].first, sec := r.abp, ip := s[fbp + 1].second,
                         fp := UnpackFp(s[fbp + 2].i), leavingIndex := index,
                         leaving0 := r.leaving0 || index == 0, leaving1 := r.leaving1 || index == 1,
                         cached := UnpackCached(s[fbp + 2].i),
                         evbp := s[fbp + 3].first, evc := s[fbp + 3].second,
                         esec := s[fbp + 3].first + s[fbp + 3].second)))
    else None
  }

  // ------------------------------------------------------------------ pushing and popping

  function PushLocalVar(m: Mem, v: Value): Option<Mem> {
    var r := m.regs;
    if r.abp2 < |m.stack| then
      Some(Mem(r.(abp2 := r.abp2 + 1, ac2 := 0, sec := r.abp2 + 1), m.stack[r.abp2 := v]))
    else None
  }

  function PushArg(m: Mem, v: Value): Option<Mem> {
    var r := m.regs;
    if r.abp2 + r.ac2 < |m.stack| then
      Some(Mem(r.(ac2 := r.ac2 + 1, sec := r.sec + 1), m.stack[r.abp2 + r.ac2 := v]))
    else None
  }

  function PopArgs(m: Mem): Mem {
    m.(regs := m.regs.(ac2 := 0, sec := m.regs.abp2))
  }

  function PopArgsAndLocalVars(m: Mem): Mem {
    var lvbp := m.regs.abp + m.regs.ac + 4;
    m.(regs := m.regs.(abp2 := lvbp, lvc := 0, ac2 := 0, sec := lvbp))
  }

  /** The local variables allocated so far become visible; the count is a 32-bit difference. */
  function In(m: Mem): Mem {
    m.(regs := m.regs.(lvc := (m.regs.abp2 - (m.regs.abp + m.regs.ac + 4)) % TWO32))
  }

  function HideArgs(m: Mem): Mem {
    var r := m.regs;
    m.(regs := r.(tmpAc2 := r.ac2, abp2 := r.abp2 + r.ac2, ac2 := 0))
  }

  function RestoreArgs(m: Mem): Mem
    requires m.regs.tmpAc2 <= m.regs.abp2
  {
    var r := m.regs;
    m.(regs := r.(abp2 := r.abp2 - r.tmpAc2, ac2 := r.tmpAc2, sec := r.abp2))
  }

  function PopTmp(m: Mem): Mem
    requires m.regs.abp2 > 0 && m.regs.sec > 0
  {
    m.(regs := m.regs.(abp2 := m.regs.abp2 - 1, sec := m.regs.sec - 1))
  }

  function PushExpr(m: Mem, size: nat): Option<Mem> {
    var r := m.regs;
    if r.evbp + r.evc < size then Some(m.(regs := r.(evc := r.evc + 1, esec := r.esec + 1))) else None
  }

  function PopExprs(m: Mem, n: nat): Option<Mem> {
    var r := m.regs;
    if n <= r.evc && n <= r.esec then Some(m.(regs := r.(evc := r.evc - n, esec := r.esec - n))) else None
  }

  // ------------------------------------------------------------------ try and errors

  function SetTryRegs(m: Mem, arg2: Value, io: Ref): Mem {
    m.(regs := m.regs.(tryFlag := true, tryCatchFlag := false, tryAbp := m.regs.abp2, tryAc := m.regs.ac2,
                       tryArg2 := arg2, tryIo := io, tryCatchError := ERROR_SUCCESS, tryCatchR := 0))
  }

  /** The six slots that keep the try registers of an outer try. */
  function TrySlots(r: Registers): seq<Value> {
    [VInt((if r.tryFlag then 1 else 0) + (if r.tryCatchFlag then 2 else 0)),
     VInt(ToInt64(ToUInt64(r.tryAbp * TWO32 + r.tryAc))),
     r.tryArg2, VRef(r.tryIo), VInt(r.tryCatchError), VRef(r.tryCatchR)]
  }

  function PushAll(m: Mem, vs: seq<Value>): Option<Mem>
    decreases |vs|
  {
    if vs == [] then Some(m)
    else match PushLocalVar(m, vs[0])
         case None => None
         case Some(m') => PushAll(m', vs[1..])
  }

  function PushTryRegs(m: Mem): Option<Mem> {
    PushAll(m, TrySlots(m.regs))
  }

  /** With 4 or 5 slots below `abp2` the registers would be read from below the stack. */
  predicate CanPopTry(m: Mem) {
    m.regs.abp2 < 4 || (6 <= m.regs.abp2 <= |m.stack| && 6 <= m.regs.sec)
  }

  function PopTryRegs(m: Mem): Option<Mem>
    requires CanPopTry(m)
  {
    var r, s, b := m.regs, m.stack, m.regs.abp2 - 6;
    if 4 <= r.abp2 && s[b].VInt? && s[b + 1].VInt? && s[b + 3].VRef? && s[b + 4].VInt? && s[b + 5].VRef? then
      Some(m.(regs := r.(abp2 := b, sec := r.sec - 6,
                         tryCatchR := s[b + 5].r, tryCatchError := ToInt32(s[b + 4].i), tryIo := s[b + 3].r, tryArg2 := s[b + 2],
                         tryAbp := (s[b + 1].i / TWO32) % TWO32, tryAc := s[b + 1].i % TWO32,
                         tryFlag := s[b].i % 2 == 1, tryCatchFlag := (s[b].i / 2) % 2 == 1)))
    else None
  }

  function SetErrorWithoutTry(m: Mem, error: int, ref: Ref): Mem {
    var r := m.regs;
    m.(regs := r.(abp := r.nfbp, abp2 := r.nfbp, sec := r.nfbp, evbp := r.enfbp, esec := r.enfbp,
                  ac := 0, lvc := 0, ac2 := 0, evc := 0, fp := NO_FUN, ip := 0,
                  rv := ReturnValue(0, 0, ref, error), leaving0 := false, leaving1 := false))
  }

  function SetError(m: Mem, error: int, ref: Ref): Mem {
    var r := m.regs;
    if !r.tryFlag || r.tryAbp < r.nfbp then SetErrorWithoutTry(m, error, ref)
    else
      var m' := m.(regs := r.(abp := r.tryAbp, ac := r.tryAc, rv := ReturnValue(0, 0, ref, error), leavingIndex := 0));
      match Leave(m')
      case Some(left) => left
      case None => SetErrorWithoutTry(m', error, ref)
  }

  // ------------------------------------------------------------------ native calls

  datatype SavedRegisters = SavedRegisters(
    nfbp: nat, enfbp: nat, abp: nat, ac: nat, lvc: nat, abp2: nat, ac2: nat, fp: int, ip: nat,
    leaving0: bool, leaving1: bool, leavingIndex: nat, argInstr: bool, cached: nat,
    tryFlag: bool, tryCatchFlag: bool, tryAbp: nat, tryAc: nat, tryCatchError: int,
    forceRv: ReturnValue, forceRv2: ReturnValue, sec: nat, evbp: nat, evc: nat)

  function SavedOf(r: Registers): SavedRegisters {
    SavedRegisters(r.nfbp, r.enfbp, r.abp, r.ac, r.lvc, r.abp2, r.ac2, r.fp, r.ip,
                   r.leaving0, r.leaving1, r.leavingIndex, r.argInstr, r.cached,
                   r.tryFlag, r.tryCatchFlag, r.tryAbp, r.tryAc, r.tryCatchError,
                   r.forceRv, r.forceRv2, r.abp2 + r.ac2, r.evbp, r.evc)
  }

  /** The seven slots that keep registers holding references where the collector finds them. */
  function NativeSlots(r: Registers): seq<Value> {
    [r.tryArg2, VRef(r.tryIo), VRef(r.forceRv.r), VRef(r.forceR), VRef(r.forceR2), VRef(r.forceRv2.r), VRef(r.tryCatchR)]
  }

  function Overwrite(s: seq<Value>, at: nat, vs: seq<Value>): (r: seq<Value>)
    requires at + |vs| <= |s|
    ensures |r| == |s|
    ensures r[..at] == s[..at] && r[at..at + |vs|] == vs && r[at + |vs|..] == s[at + |vs|..]
  {
    s[..at] + vs + s[at + |vs|..]
  }

  function Save(m: Mem): Option<Mem> {
    var r, sec := m.regs, m.regs.abp2 + m.regs.ac2;
    if sec + 7 > |m.stack| then None
    else
      Some(Mem(r.(nfbp := sec + 7, enfbp := r.esec, abp := sec + 7, abp2 := sec + 7, sec := sec + 7,
                  ac := 0, lvc := 0, ac2 := 0, fp := NO_FUN, ip := 0,
                  leaving0 := false, leaving1 := false, leavingIndex := 0, argInstr := false, cached := 0,
                  tryFlag := false, tryCatchFlag := false, tryArg2 := VError, tryIo := 0, tryAbp := sec + 7, tryAc := 0),
               Overwrite(m.stack, sec, NativeSlots(r))))
  }

  predicate CanRestore(m: Mem, saved: SavedRegisters) {
    var s, b := m.stack, saved.sec;
    && b + 7 <= |s|
    && s[b + 6].VRef? && s[b + 5].VRef? && s[b + 5].r == saved.forceRv2.r && s[b + 4].VRef? && s[b + 3].VRef?
    && s[b + 2].VRef? && s[b + 2].r == saved.forceRv.r && s[b + 1].VRef?
  }

  /** The registers after the try and force registers are read back from their slots. */
  function TryRestored(m: Mem, saved: SavedRegisters): Registers {
    var r, s, b := m.regs, m.stack, saved.sec;
    if CanRestore(m, saved) then
      r.(tryCatchR := s[b + 6].r, forceR2 := s[b + 4].r, forceR := s[b + 3].r, tryIo := s[b + 1].r,
         tryArg2 := s[b], tryCatchError := saved.tryCatchError, tryAc := saved.tryAc, tryAbp := saved.tryAbp,
         tryCatchFlag := saved.tryCatchFlag, tryFlag := saved.tryFlag)
    else
      r.(tryCatchR := 0, forceR2 := 0, forceR := 0, tryFlag := false, tryCatchFlag := false, tryArg2 := VError,
         tryIo := 0, tryAbp := saved.nfbp, tryCatchError := ERROR_SUCCESS, tryAc := 0)
  }

  function Restore(m: Mem, saved: SavedRegisters): Mem {
    m.(regs := TryRestored(m, saved).(
       forceRv := saved.forceRv, forceRv2 := saved.forceRv2,
       cached := saved.cached, argInstr := saved.argInstr, leavingIndex := saved.leavingIndex,
       leaving1 := saved.leaving1, leaving0 := saved.leaving0, ip := saved.ip, fp := saved.fp,
       esec := saved.evbp + saved.evc, evc := saved.evc, evbp := saved.evbp,
       sec := saved.abp2 + saved.ac2, ac2 := saved.ac2, abp2 := saved.abp2, lvc := saved.lvc,
       ac := saved.ac, abp := saved.abp, enfbp := saved.enfbp, nfbp := saved.nfbp))
  }
}
