/** The code of a program in the compiler (`generate_prog` in comp/impl_comp.cpp): the functions lie
    behind each other in the order in which the table of functions is walked, which is a parameter. */
module CodeGeneration {
  import opened Options
  import opened Bytes
  import opened ParseTrees
  import opened Labels
  import opened Instructions
  import opened SymbolTable
  import F = ImageFormat

  /** Every index once. */
  predicate IsOrder(order: seq<nat>, n: nat) {
    && |order| == n && (forall k :: 0 <= k < n ==> order[k] < n)
    && (forall j, k :: 0 <= j < k < n ==> order[j] != order[k]) && (forall i :: 0 <= i < n ==> i in order)
  }

  lemma PlaceOf(order: seq<nat>, n: nat, i: nat) returns (k: nat)
    requires IsOrder(order, n) && i < n
    ensures k < n == |order| && order[k] == i
  {
    assert i in order;
    k :| 0 <= k < |order| && order[k] == i;
  }

  /** The function that comes k-th. */
  function FunAt(funs: seq<Function>, order: seq<nat>, k: nat): Function
    requires IsOrder(order, |funs|) && k < |funs|
  {
    funs[order[k]]
  }

  // ------------------------------------------------------------------ references

  function ArgRefs(arg: Option<Argument>, isFirst: bool, addr: U32): seq<Reference> {
    match arg
    case Some(Ident(name)) => [Reference(if isFirst then RELOC_ARG1_VAR else RELOC_ARG2_VAR, addr, name)]
    case Some(Imm(FunImm(name))) => [Reference(if isFirst then RELOC_ARG1_FUN else RELOC_ARG2_FUN, addr, name)]
    case Some(Imm(NativeFunImm(name))) => [Reference(if isFirst then RELOC_ARG1_NATIVE_FUN else RELOC_ARG2_NATIVE_FUN, addr, name)]
    case _ => []
  }

  /** What the arguments of an instruction refer to; labels are not among it. */
  function InstrRefs(instr: Instruction, addr: U32): seq<Reference> {
    match instr.instr
    case LET => ArgRefs(instr.arg1, true, addr) + ArgRefs(instr.arg2, false, addr)
    case ARG => ArgRefs(instr.arg1, true, addr) + ArgRefs(instr.arg2, false, addr)
    case RET => ArgRefs(instr.arg1, true, addr) + ArgRefs(instr.arg2, false, addr)
    case LETTUPLE => ArgRefs(instr.arg1, true, addr) + ArgRefs(instr.arg2, false, addr)
    case PUSH => ArgRefs(instr.arg1, true, addr) + ArgRefs(instr.arg2, false, addr)
    case JC => ArgRefs(instr.arg1, true, addr)
    case THROW => ArgRefs(instr.arg1, true, addr)
    case RETHROW => ArgRefs(instr.arg1, true, addr)
    case _ => []
  }

  /** The references of the first lines of a function at some address. */
  function LinesRefs(lines: seq<Line>, n: nat, base: nat): seq<Reference>
    requires n <= |lines|
  {
    if n == 0 then []
    else
      LinesRefs(lines, n - 1, base)
      + if lines[n - 1].instr.Some? then InstrRefs(lines[n - 1].instr.value, (base + InstrCount(lines, n - 1)) % TWO32) else []
  }

  // ------------------------------------------------------------------ one function

  function LowerLine(env: Environment, lines: seq<Line>, k: nat): Option<Lowered>
    requires k < |lines| && lines[k].instr.Some?
  {
    Lower(env, LabelAddrs(lines, |lines|), InstrCount(lines, k), lines[k].instr.value)
  }

  ghost predicate LinesOk(env: Environment, lines: seq<Line>, n: nat)
    requires n <= |lines|
  {
    forall k :: 0 <= k < n && lines[k].instr.Some? ==> LowerLine(env, lines, k).Some?
  }

  /** No label is there twice, and there is code for every instruction. */
  ghost predicate FunOk(env: Environment, f: Function) {
    DistinctLabels(f.lines, |f.lines|) && LinesOk(env, f.lines, |f.lines|)
  }

  /** The code has the instruction of every line at its number. */
  ghost predicate CodeOf(env: Environment, lines: seq<Line>, n: nat, code: seq<F.Instruction>)
    requires n <= |lines|
  {
    && |code| == InstrCount(lines, n)
    && forall k :: 0 <= k < n && lines[k].instr.Some? ==>
         && InstrCount(lines, k) < |code| && LowerLine(env, lines, k).Some?
         && code[InstrCount(lines, k)] == Encode(LowerLine(env, lines, k).value)
  }

  lemma {:induction false} CodeOfNext(env: Environment, lines: seq<Line>, n: nat, code: seq<F.Instruction>)
    requires n < |lines| && CodeOf(env, lines, n, code) && lines[n].instr.Some? && LowerLine(env, lines, n).Some?
    ensures CodeOf(env, lines, n + 1, code + [Encode(LowerLine(env, lines, n).value)])
  {
    hide LowerLine, Encode;
  }

  /** The second walk over the lines: every instruction in order. */
  method GenerateInstrs(env: Environment, lines: seq<Line>, labels: map<Name, nat>, base: nat)
    returns (ok: bool, code: seq<F.Instruction>, refs: seq<Reference>)
    requires labels == LabelAddrs(lines, |lines|)
    ensures ok <==> LinesOk(env, lines, |lines|)
    ensures |code| == InstrCount(lines, |lines|) && (ok ==> CodeOf(env, lines, |lines|, code))
    ensures refs == LinesRefs(lines, |lines|, base)
  {
    hide Lower, Encode, InstrRefs;
    ok, code, refs := true, [], [];
    var k := 0;
    while k < |lines|
      invariant k <= |lines| && |code| == InstrCount(lines, k) && refs == LinesRefs(lines, k, base)
      invariant ok <==> LinesOk(env, lines, k)
      invariant ok ==> CodeOf(env, lines, k, code)
    {
      if lines[k].instr.Some? {
        var lowered := Lower(env, labels, |code|, lines[k].instr.value);
        refs := refs + InstrRefs(lines[k].instr.value, (base + |code|) % TWO32);
        if lowered.None? {
          ok := false;
          code := code + [F.Instruction(0, 0, 0)];
        } else {
          if ok { CodeOfNext(env, lines, k, code); }
          code := code + [Encode(lowered.value)];
        }
      }
      k := k + 1;
    }
  }

  // ------------------------------------------------------------------ all functions

  /** The address of the function that comes k-th. */
  function CodeAddr(funs: seq<Function>, order: seq<nat>, k: nat): nat
    requires IsOrder(order, |funs|) && k <= |funs|
  {
    if k == 0 then 0 else var lines := FunAt(funs, order, k - 1).lines; CodeAddr(funs, order, k - 1) + InstrCount(lines, |lines|)
  }

  function CodeRefs(funs: seq<Function>, order: seq<nat>, k: nat): seq<Reference>
    requires IsOrder(order, |funs|) && k <= |funs|
  {
    if k == 0 then []
    else
      var lines := FunAt(funs, order, k - 1).lines;
      CodeRefs(funs, order, k - 1) + LinesRefs(lines, |lines|, CodeAddr(funs, order, k - 1))
  }

  function RecordOf(funs: seq<Function>, order: seq<nat>, k: nat): F.Function
    requires IsOrder(order, |funs|) && k < |funs|
  {
    var f := FunAt(funs, order, k);
    F.Function(CodeAddr(funs, order, k) % TWO32, f.argCount, InstrCount(f.lines, |f.lines|) % TWO32)
  }

  lemma {:induction false} AddrsGrow(funs: seq<Function>, order: seq<nat>, j: nat, k: nat)
    requires IsOrder(order, |funs|) && j <= k <= |funs|
    ensures CodeAddr(funs, order, j) <= CodeAddr(funs, order, k)
    decreases k
  {
    if j < k { AddrsGrow(funs, order, j, k - 1); }
  }

  /** The code of the k-th function lies at its address. */
  ghost predicate CodeAt(env: Environment, funs: seq<Function>, order: seq<nat>, k: nat, code: seq<F.Instruction>)
    requires IsOrder(order, |funs|) && k < |funs|
  {
    var lines := FunAt(funs, order, k).lines;
    CodeAddr(funs, order, k + 1) <= |code| && CodeOf(env, lines, |lines|, code[CodeAddr(funs, order, k)..CodeAddr(funs, order, k + 1)])
  }

  lemma {:induction false} CodeAtNext(env: Environment, funs: seq<Function>, order: seq<nat>, k: nat, code: seq<F.Instruction>, more: seq<F.Instruction>)
    requires IsOrder(order, |funs|) && k < |funs| && |code| == CodeAddr(funs, order, k)
    requires forall j :: 0 <= j < k ==> CodeAt(env, funs, order, j, code)
    requires var lines := FunAt(funs, order, k).lines; CodeOf(env, lines, |lines|, more)
    ensures |code + more| == CodeAddr(funs, order, k + 1)
    ensures forall j :: 0 <= j <= k ==> CodeAt(env, funs, order, j, code + more)
  {
    hide CodeOf, IsOrder, InstrCount, FunAt;
    SizeOfCode(env, FunAt(funs, order, k).lines, more);
    var start := CodeAddr(funs, order, k);
    forall j | 0 <= j <= k ensures CodeAt(env, funs, order, j, code + more) {
      if j < k {
        assert CodeAt(env, funs, order, j, code);
        AddrsGrow(funs, order, j, j + 1);
        AddrsGrow(funs, order, j + 1, k);
        var from, to := CodeAddr(funs, order, j), CodeAddr(funs, order, j + 1);
        assert (code + more)[from..to] == code[from..to];
      } else {
        assert (code + more)[start..start + |more|] == more;
      }
    }
  }

  lemma {:induction false} SizeOfCode(env: Environment, lines: seq<Line>, code: seq<F.Instruction>)
    requires CodeOf(env, lines, |lines|, code)
    ensures |code| == InstrCount(lines, |lines|)
  {
  }

  ghost predicate FunsOk(env: Environment, funs: seq<Function>, order: seq<nat>, n: nat)
    requires IsOrder(order, |funs|) && n <= |funs|
  {
    forall k :: 0 <= k < n ==> FunOk(env, FunAt(funs, order, k))
  }

  /** All functions in order, their records at their indexes. */
  ghost predicate Generated(env: Environment, funs: seq<Function>, order: seq<nat>, n: nat, code: seq<F.Instruction>, records: seq<F.Function>)
    requires IsOrder(order, |funs|) && n <= |funs|
  {
    && RecordsAre(funs, order, n, records)
    && |code| == CodeAddr(funs, order, n) && (forall k :: 0 <= k < n ==> CodeAt(env, funs, order, k, code))
  }

  ghost predicate RecordsAre(funs: seq<Function>, order: seq<nat>, n: nat, records: seq<F.Function>)
    requires IsOrder(order, |funs|) && n <= |funs|
  {
    |records| == |funs| && forall k :: 0 <= k < n ==> records[order[k]] == RecordOf(funs, order, k)
  }

  lemma {:induction false} RecordsNext(funs: seq<Function>, order: seq<nat>, k: nat, records: seq<F.Function>)
    requires IsOrder(order, |funs|) && k < |funs| && RecordsAre(funs, order, k, records)
    ensures |order| == |funs| == |records| && order[k] < |funs|
    ensures RecordsAre(funs, order, k + 1, records[order[k] := RecordOf(funs, order, k)])
  {
    hide RecordOf, FunAt;
  }

  lemma {:induction false} GeneratedNext(env: Environment, funs: seq<Function>, order: seq<nat>, k: nat, code: seq<F.Instruction>, records: seq<F.Function>,
                      more: seq<F.Instruction>)
    requires IsOrder(order, |funs|) && k < |funs| && Generated(env, funs, order, k, code, records)
    requires var lines := FunAt(funs, order, k).lines; CodeOf(env, lines, |lines|, more)
    ensures |order| == |funs| == |records| && order[k] < |funs|
    ensures Generated(env, funs, order, k + 1, code + more, records[order[k] := RecordOf(funs, order, k)])
  {
    hide CodeOf, CodeAt, RecordOf, FunAt, CodeAddr, IsOrder, RecordsAre;
    RecordsNext(funs, order, k, records);
    CodeAtNext(env, funs, order, k, code, more);
  }

  lemma {:induction false} NothingGenerated(env: Environment, funs: seq<Function>, order: seq<nat>, records: seq<F.Function>)
    requires IsOrder(order, |funs|) && |records| == |funs|
    ensures Generated(env, funs, order, 0, [], records)
  {
  }

  lemma OrderAt(funs: seq<Function>, order: seq<nat>, k: nat)
    requires IsOrder(order, |funs|) && k < |funs|
    ensures |order| == |funs| && order[k] < |funs| && FunAt(funs, order, k) == funs[order[k]]
    ensures var f := funs[order[k]];
            RecordOf(funs, order, k) == F.Function(CodeAddr(funs, order, k) % TWO32, f.argCount, InstrCount(f.lines, |f.lines|) % TWO32)
  {
  }

  method GenerateFunction(env: Environment, f: Function, base: nat) returns (ok: bool, code: seq<F.Instruction>, refs: seq<Reference>)
    ensures ok <==> FunOk(env, f)
    ensures |code| == InstrCount(f.lines, |f.lines|) && (ok ==> CodeOf(env, f.lines, |f.lines|, code))
    ensures refs == LinesRefs(f.lines, |f.lines|, base)
  {
    hide DistinctLabels, LinesOk, CodeOf, LinesRefs;
    var distinct, labels := NumberLabels(f.lines);
    ok, code, refs := GenerateInstrs(env, f.lines, labels, base);
    ok := ok && distinct;
  }

  method GenerateFunctions(env: Environment, funs: seq<Function>, order: seq<nat>)
    returns (ok: bool, code: seq<F.Instruction>, records: seq<F.Function>, refs: seq<Reference>)
    requires IsOrder(order, |funs|)
    ensures ok <==> FunsOk(env, funs, order, |funs|)
    ensures ok ==> Generated(env, funs, order, |funs|, code, records)
    ensures refs == CodeRefs(funs, order, |funs|)
  {
    ok, code, records, refs := true, [], seq(|funs|, _ => F.Function(0, 0, 0)), [];
    var k := 0;
    NothingGenerated(env, funs, order, records);
    hide FunOk, CodeOf, LinesRefs, Generated, FunAt, IsOrder, CodeAt;
    while k < |funs|
      invariant k <= |funs| == |records| && refs == CodeRefs(funs, order, k) && |code| == CodeAddr(funs, order, k)
      invariant ok <==> FunsOk(env, funs, order, k)
      invariant ok ==> Generated(env, funs, order, k, code, records)
    {
      OrderAt(funs, order, k);
      var f := funs[order[k]];
      var generated, more, moreRefs := GenerateFunction(env, f, |code|);
      if ok && generated { GeneratedNext(env, funs, order, k, code, records, more); }
      ok := ok && generated;
      records := records[order[k] := F.Function(|code| % TWO32, f.argCount, |more| % TWO32)];
      refs := refs + moreRefs;
      code := code + more;
      k := k + 1;
    }
  }
}
