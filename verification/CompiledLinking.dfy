/** The references of a compiled program in the virtual machine: every relocation lands on the
    operand, the element or the variable that holds the index of the name, no two on the same, so that
    linking makes the names of the sources denote the functions and variables that they define. */
module CompiledLinking {
  import opened Options
  import opened Bytes
  import opened ParseTrees
  import opened Labels
  import opened Instructions
  import opened DefinitionTable
  import opened CodeGeneration
  import opened ObjectGraphLayout
  import opened SymbolTable
  import opened Compiler
  import opened CompiledImages
  import CompiledReading
  import O = Opcodes
  import F = ImageFormat
  import ImageReading
  import R = ImageRoundTrip
  import LP = LoadedPrograms
  import V = Relocations
  import D = DataLoading
  import L = Linker

  /** The index that is written for a name. */
  function IndexFor(env: Environment, r: Reference): Option<U32> {
    match r.Kind()
    case FunName => IndexOf(env, env.funs, r.name)
    case VarName => IndexOf(env, env.vars, r.name)
    case NativeName => NativeIndex(env)
  }

  // ------------------------------------------------------------------ references of the code

  predicate IsFirst(r: Reference) {
    r.type_ == RELOC_ARG1_FUN || r.type_ == RELOC_ARG1_VAR || r.type_ == RELOC_ARG1_NATIVE_FUN
  }

  /** The operand that a reference is about holds the index of its name. */
  ghost predicate OperandHolds(env: Environment, l: Lowered, r: Reference) {
    && !r.InData() && IndexFor(env, r).Some?
    && (if IsFirst(r) then l.arg1 else l.arg2)
       == if r.Kind() == VarName then GVarOperand(IndexFor(env, r).value) else ImmOperand(IndexFor(env, r).value)
  }

  lemma {:induction false} ArgHolds(env: Environment, arg: Option<Argument>, ty: ValueType, isFirst: bool, addr: U32, l: Lowered)
    requires LowerOptional(env, arg, ty) == Some(if isFirst then l.arg1 else l.arg2)
    ensures forall r :: r in ArgRefs(arg, isFirst, addr) ==> r.addr == addr && OperandHolds(env, l, r)
  {
  }

  lemma {:induction false} WithOpHolds(env: Environment, instr: Instruction, code: bv32, addr: U32)
    requires LowerWithOp(env, instr, code).Some?
    ensures forall r :: r in ArgRefs(instr.arg1, true, addr) + ArgRefs(instr.arg2, false, addr) ==>
              r.addr == addr && OperandHolds(env, LowerWithOp(env, instr, code).value, r)
  {
    var l, desc := LowerWithOp(env, instr, code).value, env.ops[instr.op.value];
    if instr.arg1.Some? && instr.arg1.value.Imm? && instr.arg2.None? && (desc.op == OP_ILOAD2 || desc.op == OP_FLOAD2) {
      assert ArgRefs(instr.arg1, true, addr) == [] && ArgRefs(instr.arg2, false, addr) == [];
    } else {
      ArgHolds(env, instr.arg1, desc.argType1, true, addr, l);
      ArgHolds(env, instr.arg2, desc.argType2, false, addr, l);
    }
    hide OperandHolds, ArgRefs, LowerOptional, LocalVars;
  }

  lemma {:induction false} OneArgHolds(env: Environment, arg: Argument, addr: U32, l: Lowered)
    requires LowerArg(env, arg, IntType) == Some(l.arg1)
    ensures forall r :: r in ArgRefs(Some(arg), true, addr) ==> r.addr == addr && OperandHolds(env, l, r)
  {
    ArgHolds(env, Some(arg), IntType, true, addr, l);
    hide OperandHolds, ArgRefs, LowerArg;
  }

  lemma {:induction false} InstrHolds(env: Environment, labels: map<Name, nat>, ip: nat, instr: Instruction, addr: U32)
    requires Lower(env, labels, ip, instr).Some?
    ensures forall r :: r in InstrRefs(instr, addr) ==> r.addr == addr && OperandHolds(env, Lower(env, labels, ip, instr).value, r)
  {
    hide OperandHolds, ArgRefs, LowerArg, LowerWithOp, Distance;
    match instr.instr {
      case LET => WithOpHolds(env, instr, INSTR_LET, addr);
      case RET => WithOpHolds(env, instr, INSTR_RET, addr);
      case ARG => WithOpHolds(env, instr, INSTR_ARG, addr);
      case LETTUPLE => WithOpHolds(env, instr, INSTR_LETTUPLE, addr);
      case PUSH => WithOpHolds(env, instr, INSTR_PUSH, addr);
      case JC => OneArgHolds(env, instr.arg1.value, addr, Lower(env, labels, ip, instr).value);
      case THROW => OneArgHolds(env, instr.arg1.value, addr, Lower(env, labels, ip, instr).value);
      case RETHROW => OneArgHolds(env, instr.arg1.value, addr, Lower(env, labels, ip, instr).value);
      case _ =>
    }
  }

  /** In the order of the code, first arguments before second ones. */
  function Key(r: Reference): nat {
    2 * r.addr + if IsFirst(r) then 0 else 1
  }

  /** Keys that grow, in some range. */
  ghost predicate Sorted(refs: seq<Reference>, key: Reference -> nat, from: nat, to: nat) {
    && (forall j :: 0 <= j < |refs| ==> from <= key(refs[j]) < to)
    && forall j, k :: 0 <= j < k < |refs| ==> key(refs[j]) < key(refs[k])
  }

  lemma {:induction false} SortedAppend(a: seq<Reference>, b: seq<Reference>, key: Reference -> nat, from: nat, mid: nat, to: nat)
    requires Sorted(a, key, from, mid) && Sorted(b, key, mid, to) && from <= mid <= to
    ensures Sorted(a + b, key, from, to)
  {
  }

  lemma {:induction false} ArgRefsSorted(arg: Option<Argument>, isFirst: bool, addr: U32)
    ensures var key := 2 * addr + if isFirst then 0 else 1; Sorted(ArgRefs(arg, isFirst, addr), Key, key, key + 1)
  {
    assert |ArgRefs(arg, isFirst, addr)| <= 1;
    assert forall r :: r in ArgRefs(arg, isFirst, addr) ==> Key(r) == 2 * addr + if isFirst then 0 else 1;
    hide ArgRefs, Key;
  }

  lemma {:induction false} InstrRefsSorted(instr: Instruction, addr: U32)
    ensures Sorted(InstrRefs(instr, addr), Key, 2 * addr, 2 * addr + 2)
  {
    hide ArgRefs, Key, Sorted;
    ArgRefsSorted(instr.arg1, true, addr);
    ArgRefsSorted(instr.arg2, false, addr);
    NothingSorted(Key, 2 * addr, 2 * addr + 2);
    SortedMore(ArgRefs(instr.arg1, true, addr), Key, 2 * addr, 2 * addr + 1, 2 * addr + 2);
    SortedAppend(ArgRefs(instr.arg1, true, addr), ArgRefs(instr.arg2, false, addr), Key, 2 * addr, 2 * addr + 1, 2 * addr + 2);
  }

  /** The references of code of which the first instructions lie behind an address. */
  ghost predicate RefsHold(env: Environment, refs: seq<Reference>, code: seq<F.Instruction>) {
    forall r :: r in refs ==> r.addr < |code| && WordHolds(env, code[r.addr], r)
  }

  /** The word is read as an instruction whose operand holds the index. */
  ghost predicate WordHolds(env: Environment, word: F.Instruction, r: Reference) {
    Decode(word).Some? && OperandHolds(env, Decode(word).value, r)
  }

  lemma {:induction false} DecodedHolds(env: Environment, l: Lowered, r: Reference)
    requires OperandHolds(env, l, r) && l.instr < 256 && l.op < 256
    ensures WordHolds(env, Encode(l), r)
  {
    InstructionRoundTripsExactly(l);
    hide Decode, Encode, IndexFor;
  }

  lemma {:induction false} LineIsAt(env: Environment, lines: seq<Line>, j: nat, code: seq<F.Instruction>, base: nat, end: nat)
    requires base <= end <= |code| && j < |lines| && lines[j].instr.Some? && CodeOf(env, lines, |lines|, code[base..end])
    ensures LowerLine(env, lines, j).Some? && base + InstrCount(lines, j) < end
    ensures code[base + InstrCount(lines, j)] == Encode(LowerLine(env, lines, j).value)
  {
    hide LowerLine, Encode, InstrCount;
    assert code[base..end][InstrCount(lines, j)] == code[base + InstrCount(lines, j)];
  }

  lemma {:induction false} LineOperands(env: Environment, lines: seq<Line>, j: nat, at: U32)
    requires OpsFit(env) && j < |lines| && lines[j].instr.Some? && LowerLine(env, lines, j).Some?
    ensures var l := LowerLine(env, lines, j).value;
            && l.instr < 256 && l.op < 256
            && forall r :: r in InstrRefs(lines[j].instr.value, at) ==> r.addr == at && OperandHolds(env, l, r)
  {
    hide OperandHolds, InstrRefs, OpsFit, Lower, InstrCount, LabelAddrs;
    InstrHolds(env, LabelAddrs(lines, |lines|), InstrCount(lines, j), lines[j].instr.value, at);
    LoweredFits(env, LabelAddrs(lines, |lines|), InstrCount(lines, j), lines[j].instr.value);
  }

  lemma {:induction false} LineHolds(env: Environment, lines: seq<Line>, j: nat, code: seq<F.Instruction>, base: nat, end: nat)
    requires base <= end <= |code| < TWO32 && OpsFit(env) && j < |lines| && lines[j].instr.Some?
    requires CodeOf(env, lines, |lines|, code[base..end])
    ensures RefsHold(env, InstrRefs(lines[j].instr.value, (base + InstrCount(lines, j)) % TWO32), code)
    ensures base + InstrCount(lines, j) < end
  {
    hide CodeOf, OpsFit, LowerLine, Encode, RefsHold, InstrRefs, InstrCount, OperandHolds;
    LineIsAt(env, lines, j, code, base, end);
    var at: U32 := base + InstrCount(lines, j);
    assert at % TWO32 == at;
    LineOperands(env, lines, j, at);
    RefsHoldAt(env, InstrRefs(lines[j].instr.value, at), code, at, LowerLine(env, lines, j).value);
  }

  lemma {:induction false} RefsHoldAt(env: Environment, refs: seq<Reference>, code: seq<F.Instruction>, at: nat, l: Lowered)
    requires at < |code| && code[at] == Encode(l) && l.instr < 256 && l.op < 256
    requires forall r :: r in refs ==> r.addr == at && OperandHolds(env, l, r)
    ensures RefsHold(env, refs, code)
  {
    hide WordHolds, OperandHolds, Encode;
    forall r | r in refs ensures r.addr < |code| && WordHolds(env, code[r.addr], r) {
      DecodedHolds(env, l, r);
    }
  }

  lemma {:induction false} LinesHold(env: Environment, lines: seq<Line>, n: nat, code: seq<F.Instruction>, base: nat, end: nat)
    requires base <= end <= |code| < TWO32 && OpsFit(env) && n <= |lines| && CodeOf(env, lines, |lines|, code[base..end])
    ensures RefsHold(env, LinesRefs(lines, n, base), code)
    ensures Sorted(LinesRefs(lines, n, base), Key, 2 * base, 2 * (base + InstrCount(lines, n)))
    decreases n
  {
    hide CodeOf, WordHolds, InstrRefs, OpsFit, Sorted, Key;
    if n == 0 {
      NothingSorted(Key, 2 * base, 2 * base);
    } else {
      LinesHold(env, lines, n - 1, code, base, end);
      var before, at := LinesRefs(lines, n - 1, base), base + InstrCount(lines, n - 1);
      if lines[n - 1].instr.Some? {
        LineHolds(env, lines, n - 1, code, base, end);
        assert at % TWO32 == at;
        var instr := lines[n - 1].instr.value;
        InstrRefsSorted(instr, at);
        SortedAppend(before, InstrRefs(instr, at), Key, 2 * base, 2 * at, 2 * at + 2);
      } else {
        assert before + [] == before;
      }
    }
  }

  lemma {:induction false} NothingSorted(key: Reference -> nat, from: nat, to: nat)
    ensures Sorted([], key, from, to)
  {
  }

  /** The references of the code are about different operands, each of which holds its index. */
  lemma {:induction false} CodeHolds(env: Environment, funs: seq<Function>, order: seq<nat>, n: nat, code: seq<F.Instruction>,
                                     records: seq<F.Function>)
    requires IsOrder(order, |funs|) && Generated(env, funs, order, |funs|, code, records) && |code| < TWO32 && OpsFit(env) && n <= |funs|
    ensures RefsHold(env, CodeRefs(funs, order, n), code)
    ensures Sorted(CodeRefs(funs, order, n), Key, 0, 2 * CodeAddr(funs, order, n))
    decreases n
  {
    hide CodeOf, WordHolds, LinesRefs, OpsFit, Sorted, Key, Generated, CodeAt, FunAt, IsOrder, InstrCount;
    if n == 0 {
      NothingSorted(Key, 0, 0);
    } else {
      var lines, base, end := FunAt(funs, order, n - 1).lines, CodeAddr(funs, order, n - 1), CodeAddr(funs, order, n);
      assert CodeRefs(funs, order, n) == CodeRefs(funs, order, n - 1) + LinesRefs(lines, |lines|, base);
      hide CodeAddr, CodeRefs;
      CodeHolds(env, funs, order, n - 1, code, records);
      GeneratedAt(env, funs, order, code, records, n - 1);
      CompiledReading.CodeIsAt(env, funs, order, n - 1, code);
      NextAddr(funs, order, n - 1);
      LinesHold(env, lines, |lines|, code, base, end);
      SortedAppend(CodeRefs(funs, order, n - 1), LinesRefs(lines, |lines|, base), Key, 0, 2 * base, 2 * end);
    }
  }

  // ------------------------------------------------------------------ references of the data

  function AddrOf(r: Reference): nat {
    r.addr
  }

  function ElemWidth(o: Object): nat {
    F.ElemSize(o.type_)
  }

  /** An element of an object in the data is the reference. */
  ghost predicate ElemIs(list: seq<Object>, k: nat, j: nat, r: Reference) {
    && k < |list| && j < |list[k].elems| && r.addr == AddressOf(list, k) + 8 + j * ElemWidth(list[k])
    && ((r.type_ == RELOC_ELEM_FUN && list[k].elems[j] == FunIndex(r.name))
        || (r.type_ == RELOC_ELEM_NATIVE_FUN && list[k].elems[j] == NativeFunIndex(r.name)))
  }

  /** Every reference is an element of an object. */
  ghost predicate AreElems(list: seq<Object>, refs: seq<Reference>) {
    forall r :: r in refs ==> exists k, j :: ElemIs(list, k, j, r)
  }

  lemma {:induction false} AreElemsAppend(list: seq<Object>, a: seq<Reference>, b: seq<Reference>)
    requires AreElems(list, a) && AreElems(list, b)
    ensures AreElems(list, a + b)
  {
    hide ElemIs;
  }

  lemma {:induction false} WidthOfIndexes(o: Object, j: nat)
    requires WellTyped(o) && j < |o.elems| && (o.elems[j].FunIndex? || o.elems[j].NativeFunIndex?)
    ensures (o.type_ == IARRAY32 && ElemWidth(o) == 4) || ((o.type_ == IARRAY64 || o.type_ == TUPLE) && ElemWidth(o) == 8)
  {
    assert o.elems[j] in o.elems;
  }

  lemma {:induction false} InsideObject(o: Object, j: nat)
    requires j < |o.elems|
    ensures 8 + j * ElemWidth(o) + ElemWidth(o) <= Size(o)
  {
    assert j * ElemWidth(o) + ElemWidth(o) == (j + 1) * ElemWidth(o) <= |o.elems| * ElemWidth(o);
  }

  lemma {:induction false} NextAddress(list: seq<Object>, k: nat)
    requires k < |list|
    ensures AddressOf(list, k) + Size(list[k]) <= AddressOf(list, k + 1) <= AddressOf(list, |list|)
  {
    if k + 1 < |list| { AddressesGrow(list, k + 1, |list|); }
  }

  function ElemRefs(o: Object, at: nat, j: nat): seq<Reference>
    requires j < |o.elems|
  {
    var e, addr := o.elems[j], (at + 8 + j * ElemWidth(o)) % TWO32;
    if e.FunIndex? then [Reference(RELOC_ELEM_FUN, addr, e.fun)]
    else if e.NativeFunIndex? then [Reference(RELOC_ELEM_NATIVE_FUN, addr, e.fun)]
    else []
  }

  lemma {:induction false} ElemRefsAre(list: seq<Object>, k: nat, j: nat)
    requires k < |list| && j < |list[k].elems| && WellTyped(list[k]) && AddressOf(list, |list|) < TWO32
    ensures AreElems(list, ElemRefs(list[k], AddressOf(list, k), j))
    ensures var at := AddressOf(list, k) + 8 + j * ElemWidth(list[k]);
            Sorted(ElemRefs(list[k], AddressOf(list, k), j), AddrOf, at, at + ElemWidth(list[k]))
  {
    hide WellTyped, AddressOf, Size, ElemWidth;
    var o, addr := list[k], AddressOf(list, k) + 8 + j * ElemWidth(list[k]);
    InsideObject(o, j);
    NextAddress(list, k);
    assert addr % TWO32 == addr;
    if o.elems[j].FunIndex? || o.elems[j].NativeFunIndex? { WidthOfIndexes(o, j); }
    assert forall r :: r in ElemRefs(o, AddressOf(list, k), j) ==> ElemIs(list, k, j, r);
  }

  lemma {:induction false} ObjectRefsAre(list: seq<Object>, k: nat, n: nat)
    requires k < |list| && n <= |list[k].elems| && WellTyped(list[k]) && AddressOf(list, |list|) < TWO32
    ensures AreElems(list, ObjectRefs(list[k], AddressOf(list, k), n))
    ensures Sorted(ObjectRefs(list[k], AddressOf(list, k), n), AddrOf, AddressOf(list, k), AddressOf(list, k) + 8 + n * ElemWidth(list[k]))
    decreases n
  {
    hide *;
    var o, at := list[k], AddressOf(list, k);
    if n == 0 {
      NoObjectRefs(list, k);
    } else {
      var before, more := ObjectRefs(o, at, n - 1), ElemRefs(o, at, n - 1);
      var mid := at + 8 + (n - 1) * ElemWidth(o);
      ObjectRefsNext(o, at, n);
      ObjectRefsAre(list, k, n - 1);
      ElemRefsAre(list, k, n - 1);
      SortedAppend(before, more, AddrOf, at, mid, mid + ElemWidth(o));
      AreElemsAppend(list, before, more);
    }
  }

  lemma {:induction false} ObjectRefsNext(o: Object, at: nat, n: nat)
    requires 0 < n <= |o.elems|
    ensures ObjectRefs(o, at, n) == ObjectRefs(o, at, n - 1) + ElemRefs(o, at, n - 1)
    ensures n * ElemWidth(o) == (n - 1) * ElemWidth(o) + ElemWidth(o)
  {
    hide F.ElemSize;
  }

  lemma {:induction false} NoObjectRefs(list: seq<Object>, k: nat)
    requires k < |list|
    ensures var refs, at := ObjectRefs(list[k], AddressOf(list, k), 0), AddressOf(list, k);
            AreElems(list, refs) && Sorted(refs, AddrOf, at, at + 8 + 0 * ElemWidth(list[k]))
  {
    hide AddressOf, ElemWidth;
  }

  lemma {:induction false} NoDataRefs(list: seq<Object>)
    ensures AreElems(list, DataRefs(list, 0)) && Sorted(DataRefs(list, 0), AddrOf, 0, AddressOf(list, 0))
  {
  }

  lemma {:induction false} DataRefsNext(list: seq<Object>, n: nat)
    requires 0 < n <= |list|
    ensures DataRefs(list, n) == DataRefs(list, n - 1) + ObjectRefs(list[n - 1], AddressOf(list, n - 1), |list[n - 1].elems|)
    ensures list[n - 1] in list
  {
    hide ObjectRefs, AddressOf;
  }

  lemma {:induction false} DataRefsAre(list: seq<Object>, n: nat)
    requires n <= |list| && (forall o :: o in list ==> WellTyped(o)) && AddressOf(list, |list|) < TWO32
    ensures AreElems(list, DataRefs(list, n))
    ensures Sorted(DataRefs(list, n), AddrOf, 0, AddressOf(list, n))
    decreases n
  {
    hide *;
    if n == 0 {
      NoDataRefs(list);
    } else {
      var o, at, before := list[n - 1], AddressOf(list, n - 1), DataRefs(list, n - 1);
      var more := ObjectRefs(o, at, |o.elems|);
      DataRefsNext(list, n);
      DataRefsAre(list, n - 1);
      ObjectRefsAre(list, n - 1, |o.elems|);
      NextAddress(list, n - 1);
      AllInside(o);
      SortedMore(more, AddrOf, at, at + 8 + |o.elems| * ElemWidth(o), AddressOf(list, n));
      SortedAppend(before, more, AddrOf, 0, at, AddressOf(list, n));
      AreElemsAppend(list, before, more);
    }
  }

  lemma {:induction false} AllInside(o: Object)
    ensures 8 + |o.elems| * ElemWidth(o) <= Size(o)
  {
  }

  lemma {:induction false} SortedMore(refs: seq<Reference>, key: Reference -> nat, from: nat, to: nat, more: nat)
    requires Sorted(refs, key, from, to) && to <= more
    ensures Sorted(refs, key, from, more)
  {
  }

  // ------------------------------------------------------------------ references of the variables

  ghost predicate VarIsRef(values: seq<Value>, r: Reference) {
    && r.addr < |values|
    && ((r.type_ == RELOC_VAR_FUN && values[r.addr] == FunIndex(r.name))
        || (r.type_ == RELOC_VAR_NATIVE_FUN && values[r.addr] == NativeFunIndex(r.name)))
  }

  lemma {:induction false} VarRefsNext(values: seq<Value>, order: seq<nat>, n: nat) returns (more: seq<Reference>)
    requires IsOrder(order, |values|) && 0 < n <= |values| < TWO32
    ensures VarRefs(values, order, n) == VarRefs(values, order, n - 1) + more && |more| <= 1
    ensures |order| == |values| && order[..n] == order[..n - 1] + [order[n - 1]] && order[n - 1] !in order[..n - 1]
    ensures forall r :: r in more ==> r.addr == order[n - 1] && VarIsRef(values, r)
  {
    var v, at := VarAt(values, order, n - 1), order[n - 1];
    assert at % TWO32 == at && v == values[at];
    more := if v.FunIndex? then [Reference(RELOC_VAR_FUN, at, v.fun)]
            else if v.NativeFunIndex? then [Reference(RELOC_VAR_NATIVE_FUN, at, v.fun)]
            else [];
  }

  /** Every reference is a variable at one of some indexes, each at another one. */
  ghost predicate AreVars(values: seq<Value>, refs: seq<Reference>, at: seq<nat>) {
    && (forall r :: r in refs ==> VarIsRef(values, r) && r.addr in at)
    && forall j, k :: 0 <= j < k < |refs| ==> refs[j].addr != refs[k].addr
  }

  lemma {:induction false} AreVarsAppend(values: seq<Value>, refs: seq<Reference>, at: seq<nat>, more: seq<Reference>, i: nat)
    requires AreVars(values, refs, at) && i !in at && |more| <= 1
    requires forall r :: r in more ==> r.addr == i && VarIsRef(values, r)
    ensures AreVars(values, refs + more, at + [i])
  {
    hide VarIsRef;
    forall j | 0 <= j < |refs| && more != [] ensures refs[j].addr != more[0].addr {
      assert refs[j] in refs && more[0] in more;
    }
  }

  lemma {:induction false} NoVarRefs(values: seq<Value>, order: seq<nat>)
    requires IsOrder(order, |values|)
    ensures |order| == |values| && AreVars(values, VarRefs(values, order, 0), order[..0])
  {
  }

  lemma {:induction false} VarRefsAre(values: seq<Value>, order: seq<nat>, n: nat)
    requires IsOrder(order, |values|) && n <= |values| < TWO32
    ensures |order| == |values| && AreVars(values, VarRefs(values, order, n), order[..n])
    decreases n
  {
    hide *;
    if n == 0 {
      NoVarRefs(values, order);
    } else {
      VarRefsAre(values, order, n - 1);
      var more := VarRefsNext(values, order, n);
      AreVarsAppend(values, VarRefs(values, order, n - 1), order[..n - 1], more, order[n - 1]);
    }
  }

  // ------------------------------------------------------------------ where relocations land

  function ProgramOf(p: F.Image): V.Program {
    LP.ProgramOf(R.LoadedOf(p))
  }

  /** What the loader makes of a relocation. */
  lemma {:induction false} RelocationIs(defs: Definitions, symbols: seq<Symbol>, ref: Reference, reloc: F.Relocation)
    requires RelocatesBy(defs, symbols, ref, reloc)
    ensures var r := LP.RelocationOf(reloc);
            && r.kind == LP.KindOf(ref.type_) && r.addr == ref.addr && (r.symbolic <==> !IsDefined(defs, ref.Kind(), ref.name))
            && (r.symbolic ==> r.symbol < |symbols| && symbols[r.symbol] == External(ref.Kind(), ref.name))
  {
    hide IsDefined, LP.KindOf;
    assert (ref.type_ + RELOC_SYMBOLIC) % 256 == ref.type_ && (ref.type_ + RELOC_SYMBOLIC) / 256 % 2 == 1;
  }

  /** The place of a relocation of some type and address holds an index. */
  ghost predicate LandsAt(p: V.Program, ref: Reference, at: V.Place, index: U32) {
    && V.IsPlace(p, at) && V.Get(p, at) == index
    && forall r: V.Relocation :: r.kind == LP.KindOf(ref.type_) && r.addr == ref.addr ==> V.PlaceOf(p, r) == Some(at)
  }

  function CodePlace(ref: Reference): V.Place {
    if IsFirst(ref) then V.InArg1(ref.addr) else V.InArg2(ref.addr)
  }

  lemma {:induction false} OperandIs(argType: bv32, bits: U32, a: Operand)
    requires OperandOf(argType, bits) == Some(a)
    ensures a.GVarOperand? ==> argType == O.ARG_TYPE_GVAR && bits == a.n
    ensures a.ImmOperand? ==> argType == O.ARG_TYPE_IMM && bits == a.bits
  {
  }

  lemma {:induction false} DecodedOperands(word: F.Instruction)
    requires Decode(word).Some?
    ensures OperandOf(O.ArgType1(OfWord(word.opcode)), word.arg1) == Some(Decode(word).value.arg1)
    ensures OperandOf(O.ArgType2(OfWord(word.opcode)), word.arg2) == Some(Decode(word).value.arg2)
  {
    hide OperandOf, OfWord, O.ArgType1, O.ArgType2, O.Instr, O.Op, O.LocalVarCount;
  }

  lemma {:induction false} WordIs(env: Environment, word: F.Instruction, ref: Reference)
    requires WordHolds(env, word, ref)
    ensures !ref.InData() && IndexFor(env, ref).Some?
    ensures var w, t := OfWord(word.opcode), if ref.Kind() == VarName then O.ARG_TYPE_GVAR else O.ARG_TYPE_IMM;
            if IsFirst(ref) then O.ArgType1(w) == t && word.arg1 == IndexFor(env, ref).value
            else O.ArgType2(w) == t && word.arg2 == IndexFor(env, ref).value
  {
    hide Decode, IndexFor, OperandOf, OfWord, O.ArgType1, O.ArgType2, O.ARG_TYPE_GVAR, O.ARG_TYPE_IMM, IsFirst;
    DecodedOperands(word);
    var w, l := OfWord(word.opcode), Decode(word).value;
    OperandIs(O.ArgType1(w), word.arg1, l.arg1);
    OperandIs(O.ArgType2(w), word.arg2, l.arg2);
  }

  lemma {:induction false} CodeLands(env: Environment, p: F.Image, ref: Reference)
    requires ref.addr < |p.code| && WordHolds(env, p.code[ref.addr], ref)
    ensures IndexFor(env, ref).Some? && LandsAt(ProgramOf(p), ref, CodePlace(ref), IndexFor(env, ref).value)
  {
    WordIs(env, p.code[ref.addr], ref);
    CodeIs(p, ref.addr);
    hide LP.ProgramOf, R.LoadedOf, WordHolds, IndexFor, OfWord, O.ArgType1, O.ArgType2, O.ARG_TYPE_GVAR, O.ARG_TYPE_IMM, V.ElemPlace, ProgramOf;
  }

  lemma {:induction false} CodeIs(p: F.Image, at: nat)
    requires at < |p.code|
    ensures at < |ProgramOf(p).code|
    ensures ProgramOf(p).code[at] == V.Instruction(OfWord(p.code[at].opcode), p.code[at].arg1, p.code[at].arg2)
  {
    hide LP.DataOf, LP.ObjectsOf, R.Addresses, LP.RelocationOf, LP.SymbolOf;
  }

  lemma {:induction false} VarIsAt(p: F.Image, at: nat)
    requires at < |p.vars|
    ensures at < |ProgramOf(p).vars| && ProgramOf(p).vars[at] == V.Variable(p.vars[at].type_, LP.Signed64(p.vars[at].i))
  {
    hide LP.DataOf, LP.ObjectsOf, R.Addresses, LP.InstructionOf, LP.RelocationOf, LP.SymbolOf, LP.Signed64;
  }

  lemma {:induction false} SmallIndex(index: U32)
    requires index < V.TWO31
    ensures Extended(index) == index && index % TWO32 == index && LP.Signed64(index) == index
  {
  }

  lemma {:induction false} VarLands(env: Environment, values: seq<Value>, p: F.Image, ref: Reference)
    requires |p.vars| == |values| && VarIsRef(values, ref) && InRange(env, TUPLE, values[ref.addr])
    requires p.vars[ref.addr].type_ == TypeOf(values[ref.addr]) && p.vars[ref.addr].i == ValueBits(env, values[ref.addr], map[])
    requires IndexFor(env, ref).Some? ==> IndexFor(env, ref).value < V.TWO31
    ensures IndexFor(env, ref).Some? && LandsAt(ProgramOf(p), ref, V.InVar(ref.addr), IndexFor(env, ref).value)
  {
    VarIsAt(p, ref.addr);
    assert IndexFor(env, ref).Some?;
    SmallIndex(IndexFor(env, ref).value);
    hide LP.ProgramOf, R.LoadedOf, V.ElemPlace, ProgramOf, Extended, LP.Signed64;
  }

  // ------------------------------------------------------------------ where elements are found

  lemma {:induction false} BelowIs(addrs: set<nat>, addr: nat, o: nat)
    requires o in addrs && o <= addr && forall x :: x in addrs && x <= addr ==> x <= o
    ensures V.Below(addrs, addr) == Some(o)
  {
  }

  /** The data that is loaded: the objects at the addresses of the source's. */
  ghost predicate DataHeld(list: seq<Object>, objects: seq<F.Object>, data: map<nat, V.DataObject>) {
    && |objects| == |list|
    && (forall k :: 0 <= k < |list| ==> AddressOf(list, k) in data && data[AddressOf(list, k)] == LP.ObjectOf(objects[k]))
    && forall a :: a in data ==> exists k :: 0 <= k < |list| && a == AddressOf(list, k)
  }

  lemma {:induction false} NoneBetween(list: seq<Object>, objects: seq<F.Object>, data: map<nat, V.DataObject>, k: nat, addr: nat)
    requires DataHeld(list, objects, data) && k < |list| && AddressOf(list, k) <= addr < AddressOf(list, k + 1)
    ensures V.Below(data.Keys, addr) == Some(AddressOf(list, k))
  {
    hide AddressOf, LP.ObjectOf;
    forall x | x in data && x <= addr ensures x <= AddressOf(list, k) {
      var m :| 0 <= m < |list| && x == AddressOf(list, m);
      if m > k + 1 { AddressesGrow(list, k + 1, m); }
      if m < k { AddressesGrow(list, m, k); }
    }
    BelowIs(data.Keys, addr, AddressOf(list, k));
  }

  /** An element that holds an index, as it is loaded. */
  lemma {:induction false} ElemIsLoaded(env: Environment, i: F.Object, o: Object, addrs: map<nat, nat>, j: nat, index: U32)
    requires Holds(env, i, o, addrs) && WellTyped(o) && j < |o.elems| && index < V.TWO31
    requires (o.elems[j].FunIndex? && IndexOf(env, env.funs, o.elems[j].fun) == Some(index))
             || (o.elems[j].NativeFunIndex? && NativeIndex(env) == Some(index))
    ensures var d := LP.ObjectOf(i);
            && d.type_ == o.type_ && |d.elems| == |o.elems| && d.elems[j] == index
            && ((d.type_ == V.OBJECT_TYPE_IARRAY32 && ElemWidth(o) == 4) || (d.type_ == V.OBJECT_TYPE_IARRAY64 && ElemWidth(o) == 8)
                || (d.type_ == V.OBJECT_TYPE_TUPLE && ElemWidth(o) == 8 && j < |d.elemTypes| && d.elemTypes[j] == V.VALUE_TYPE_INT))
  {
    WidthOfIndexes(o, j);
    SmallIndex(index);
    hide WellTyped, Extended, LP.Signed64;
  }

  lemma {:induction false} ElemPlaceIs(data: map<nat, V.DataObject>, addr: nat, o: nat, j: nat, width: nat)
    requires V.Below(data.Keys, addr) == Some(o) && o in data && addr == o + 8 + j * width && j < |data[o].elems|
    requires var d := data[o];
             || (d.type_ == V.OBJECT_TYPE_IARRAY32 && width == 4) || (d.type_ == V.OBJECT_TYPE_IARRAY64 && width == 8)
             || (d.type_ == V.OBJECT_TYPE_TUPLE && width == 8 && j < |d.elemTypes| && d.elemTypes[j] == V.VALUE_TYPE_INT)
    ensures V.ElemPlace(data, addr) == Some(V.InElem(o, j))
  {
    hide V.Below;
  }

  lemma {:induction false} DataElem(env: Environment, list: seq<Object>, objects: seq<F.Object>, addrs: map<nat, nat>,
                                    k: nat, j: nat, ref: Reference)
    requires LaidOut(env, list, objects, addrs) && |objects| == |list| && (forall o :: o in list ==> WellTyped(o)) && ElemIs(list, k, j, ref)
    ensures Holds(env, objects[k], list[k], addrs) && WellTyped(list[k]) && IndexFor(env, ref).Some? && ref.InData()
    ensures var o, index := list[k], IndexFor(env, ref).value;
            (o.elems[j].FunIndex? && IndexOf(env, env.funs, o.elems[j].fun) == Some(index))
            || (o.elems[j].NativeFunIndex? && NativeIndex(env) == Some(index))
  {
    hide WellTyped, ElemBits, AddressOf, ElemWidth;
    assert list[k] in list && Holds(env, objects[k], list[k], addrs);
    assert InRange(env, list[k].type_, list[k].elems[j]);
  }

  lemma {:induction false} ElemLands(p: V.Program, ref: Reference, at: V.Place, index: U32)
    requires V.ElemPlace(p.data, ref.addr) == Some(at) && at.InElem? && V.Get(p, at) == index
    requires ref.type_ == RELOC_ELEM_FUN || ref.type_ == RELOC_ELEM_NATIVE_FUN
    ensures LandsAt(p, ref, at, index)
  {
    hide V.ElemPlace;
  }

  lemma {:induction false} HeldAt(list: seq<Object>, objects: seq<F.Object>, data: map<nat, V.DataObject>, k: nat)
    requires DataHeld(list, objects, data) && k < |list|
    ensures |objects| == |list| && AddressOf(list, k) in data && data[AddressOf(list, k)] == LP.ObjectOf(objects[k])
  {
    hide AddressOf, LP.ObjectOf;
  }

  lemma {:induction false} DataLands(env: Environment, list: seq<Object>, objects: seq<F.Object>, addrs: map<nat, nat>, p: V.Program,
                                     k: nat, j: nat, ref: Reference)
    requires LaidOut(env, list, objects, addrs) && |objects| == |list| && (forall o :: o in list ==> WellTyped(o))
    requires DataHeld(list, objects, p.data) && ElemIs(list, k, j, ref)
    requires IndexFor(env, ref).Some? ==> IndexFor(env, ref).value < V.TWO31
    ensures IndexFor(env, ref).Some? && LandsAt(p, ref, V.InElem(AddressOf(list, k), j), IndexFor(env, ref).value)
  {
    hide LaidOut, Holds, WellTyped, InRange, AddressOf, ElemWidth, IndexFor, LP.ObjectOf, V.ElemPlace, DataHeld, Size, LandsAt,
         IndexOf, NativeIndex, V.Below, V.PlaceOf;
    DataElem(env, list, objects, addrs, k, j, ref);
    ElemIsLoaded(env, objects[k], list[k], addrs, j, IndexFor(env, ref).value);
    InsideObject(list[k], j);
    AddressOfNext(list, k);
    HeldAt(list, objects, p.data, k);
    NoneBetween(list, objects, p.data, k, ref.addr);
    ElemPlaceIs(p.data, ref.addr, AddressOf(list, k), j, ElemWidth(list[k]));
    ElemLands(p, ref, V.InElem(AddressOf(list, k), j), IndexFor(env, ref).value);
  }

  lemma {:induction false} AddressOfNext(list: seq<Object>, k: nat)
    requires k < |list|
    ensures AddressOf(list, k) + Size(list[k]) <= AddressOf(list, k + 1)
  {
  }

  // ------------------------------------------------------------------ all references

  /** The place that a reference is about. */
  ghost predicate IsPlaceOf(list: seq<Object>, ref: Reference, at: V.Place) {
    if !ref.InData() then at == CodePlace(ref)
    else if ref.type_ == RELOC_VAR_FUN || ref.type_ == RELOC_VAR_NATIVE_FUN then at == V.InVar(ref.addr)
    else exists k: nat, j: nat :: ElemIs(list, k, j, ref) && at == V.InElem(AddressOf(list, k), j)
  }

  predicate IsElem(r: Reference) {
    r.type_ == RELOC_ELEM_FUN || r.type_ == RELOC_ELEM_NATIVE_FUN
  }

  /** References that are not about the same place. */
  predicate Differ(a: Reference, b: Reference) {
    if !a.InData() && !b.InData() then Key(a) != Key(b)
    else a.InData() && b.InData() && IsElem(a) == IsElem(b) ==> a.addr != b.addr
  }

  lemma {:induction false} PlacesDiffer(list: seq<Object>, a: Reference, b: Reference, at: V.Place, bt: V.Place)
    requires IsPlaceOf(list, a, at) && IsPlaceOf(list, b, bt) && Differ(a, b)
    ensures at != bt
  {
    hide AddressOf, ElemWidth, Key;
    if !a.InData() && !b.InData() {
      CodePlacesDiffer(a, b);
    } else if IsElem(a) && IsElem(b) {
      var k: nat, j: nat :| ElemIs(list, k, j, a) && at == V.InElem(AddressOf(list, k), j);
      var l: nat, i: nat :| ElemIs(list, l, i, b) && bt == V.InElem(AddressOf(list, l), i);
      if at == bt { SameElem(list, a, b, k, l, j); }
    }
  }

  lemma {:induction false} CodePlacesDiffer(a: Reference, b: Reference)
    requires Key(a) != Key(b)
    ensures CodePlace(a) != CodePlace(b)
  {
  }

  lemma {:induction false} SameElem(list: seq<Object>, a: Reference, b: Reference, k: nat, l: nat, j: nat)
    requires ElemIs(list, k, j, a) && ElemIs(list, l, j, b) && AddressOf(list, k) == AddressOf(list, l)
    ensures a.addr == b.addr
  {
    hide AddressOf;
    if k < l { AddressesGrow(list, k, l); }
    if l < k { AddressesGrow(list, l, k); }
  }

  lemma {:induction false} SortedDiffer(refs: seq<Reference>, key: Reference -> nat, from: nat, to: nat, j: nat, k: nat)
    requires Sorted(refs, key, from, to) && j < k < |refs|
    ensures key(refs[j]) < key(refs[k])
  {
  }

  /** The three kinds of references. */
  ghost predicate Gathered(src: Source, p: F.Image)
    requires Walks(src)
  {
    var env, n := EnvironmentOf(src), |Functions(src)|;
    && RefsHold(env, CodeRefs(Functions(src), src.funOrder, n), p.code)
    && Sorted(CodeRefs(Functions(src), src.funOrder, n), Key, 0, 2 * CodeSize(src))
    && AreElems(ObjectsOf(src), DataRefs(ObjectsOf(src), |ObjectsOf(src)|))
    && Sorted(DataRefs(ObjectsOf(src), |ObjectsOf(src)|), AddrOf, 0, Compiler.DataSize(src))
    && (exists at :: AreVars(Variables(src), VarRefs(Variables(src), src.varOrder, |Variables(src)|), at))
  }

  lemma {:induction false} RefsAreGathered(src: Source, p: F.Image)
    requires Walks(src) && Compilable(src) && Compiled(src, p) && SizesFit(src) && OpsFit(EnvironmentOf(src))
    ensures Gathered(src, p)
  {
    hide Compilable, Compiled, Generated, CodeRefs, DataRefs, VarRefs, RefsHold, Sorted, AreElems, AreVars, WellTyped, CodeAddr, AddressOf,
         Functions, Variables, EnvironmentOf, IsOrder, SizesFit, OpsFit, CodeSize, Compiler.DataSize, ObjectsOf, RefersBack, VarsWellTyped;
    SizesAre(src);
    GeneratedPart(src, p);
    CodeHolds(EnvironmentOf(src), Functions(src), src.funOrder, |Functions(src)|, p.code, p.funs);
    ListedTypes(src);
    DataRefsAre(ObjectsOf(src), |ObjectsOf(src)|);
    VarRefsAre(Variables(src), src.varOrder, |Variables(src)|);
  }

  lemma {:induction false} CodeRefIs(env: Environment, refs: seq<Reference>, code: seq<F.Instruction>, r: Reference)
    requires RefsHold(env, refs, code) && r in refs
    ensures r.addr < |code| && WordHolds(env, code[r.addr], r) && !r.InData()
  {
  }

  lemma {:induction false} DataRefIs(list: seq<Object>, refs: seq<Reference>, r: Reference) returns (k: nat, j: nat)
    requires AreElems(list, refs) && r in refs
    ensures ElemIs(list, k, j, r) && r.InData() && IsElem(r)
  {
    k, j :| ElemIs(list, k, j, r);
  }

  lemma {:induction false} VarRefIs(values: seq<Value>, refs: seq<Reference>, at: seq<nat>, r: Reference)
    requires AreVars(values, refs, at) && r in refs
    ensures VarIsRef(values, r) && r.InData() && !IsElem(r)
  {
  }

  /** No two references are about the same place. */
  lemma {:induction false} ReferencesDiffer(src: Source, p: F.Image, j: nat, k: nat)
    requires Walks(src) && Gathered(src, p) && j < k < |AllRefs(src)|
    ensures Differ(AllRefs(src)[j], AllRefs(src)[k])
  {
    var env := EnvironmentOf(src);
    var code := CodeRefs(Functions(src), src.funOrder, |Functions(src)|);
    var list := ObjectsOf(src);
    var data := DataRefs(list, |list|);
    var vars := VarRefs(Variables(src), src.varOrder, |Variables(src)|);
    var at :| AreVars(Variables(src), vars, at);
    assert AllRefs(src) == code + data + vars;
    hide Gathered, RefsHold, AreElems, AreVars, Walks, AllRefs, CodeRefs, DataRefs, VarRefs, ObjectsOf, Variables, Functions, Sorted,
         VarIsRef, ElemIs, WordHolds, EnvironmentOf;
    var a, b := AllRefs(src)[j], AllRefs(src)[k];
    KindsDiffer(env, code, data, vars, p.code, list, Variables(src), at, j, k);
  }

  lemma {:induction false} KindsDiffer(env: Environment, code: seq<Reference>, data: seq<Reference>, vars: seq<Reference>,
                                       words: seq<F.Instruction>, list: seq<Object>, values: seq<Value>, at: seq<nat>, j: nat, k: nat)
    requires RefsHold(env, code, words) && AreElems(list, data) && AreVars(values, vars, at) && j < k < |code + data + vars|
    requires exists n :: Sorted(code, Key, 0, n)
    requires exists n :: Sorted(data, AddrOf, 0, n)
    ensures Differ((code + data + vars)[j], (code + data + vars)[k])
  {
    hide RefsHold, AreElems, VarIsRef, ElemIs, WordHolds, Sorted, Key;
    var c, d := |code|, |code| + |data|;
    var a, b := (code + data + vars)[j], (code + data + vars)[k];
    PartOf(env, code, data, vars, words, list, values, at, j);
    PartOf(env, code, data, vars, words, list, values, at, k);
    if k < c {
      var n :| Sorted(code, Key, 0, n);
      SortedDiffer(code, Key, 0, n, j, k);
    } else if c <= j && k < d {
      var n :| Sorted(data, AddrOf, 0, n);
      SortedDiffer(data, AddrOf, 0, n, j - c, k - c);
    } else if d <= j {
      assert vars[j - d].addr != vars[k - d].addr;
    }
  }

  lemma {:induction false} PartOf(env: Environment, code: seq<Reference>, data: seq<Reference>, vars: seq<Reference>,
                                  words: seq<F.Instruction>, list: seq<Object>, values: seq<Value>, at: seq<nat>, j: nat)
    requires RefsHold(env, code, words) && AreElems(list, data) && AreVars(values, vars, at) && j < |code + data + vars|
    ensures var r := (code + data + vars)[j];
            if j < |code| then r == code[j] && !r.InData()
            else if j < |code| + |data| then r == data[j - |code|] && r.InData() && IsElem(r)
            else r == vars[j - |code| - |data|] && r.InData() && !IsElem(r)
  {
    hide RefsHold, AreElems, AreVars;
    if j < |code| {
      CodeRefIs(env, code, words, code[j]);
    } else if j < |code| + |data| {
      var k, i := DataRefIs(list, data, data[j - |code|]);
    } else {
      VarRefIs(values, vars, at, vars[j - |code| - |data|]);
    }
  }

  // ------------------------------------------------------------------ all relocations

  function SymbolKindOf(kind: Kind): V.SymbolKind {
    match kind
    case FunName => V.FunSymbol
    case VarName => V.VarSymbol
    case NativeName => V.NativeFunSymbol
  }

  lemma {:induction false} KindIs(r: Reference)
    ensures V.SymbolKindOf(LP.KindOf(r.type_)) == SymbolKindOf(r.Kind())
  {
  }

  /** Objects of the image at the addresses of the source's. */
  lemma {:induction false} DataIsHeld(env: Environment, list: seq<Object>, p: F.Image, addrs: map<nat, nat>)
    requires LaidOut(env, list, p.objects, addrs) && |p.objects| == |list|
    ensures DataHeld(list, p.objects, ProgramOf(p).data)
  {
    hide *;
    CompiledReading.ObjectsArePlaced(env, list, p.objects, addrs);
    AddressesAreKept(env, list, p.objects, addrs);
    DataIs(p);
    PlacedIsHeld(list, p.objects, R.Addresses(p.objects, 0));
  }

  lemma {:induction false} PlacedIsHeld(list: seq<Object>, objects: seq<F.Object>, at: seq<nat>)
    requires |at| == |objects| == |list| && Placed(list, objects, LP.DataOf(at, objects))
    requires forall k :: 0 <= k < |list| ==> at[k] == AddressOf(list, k)
    ensures DataHeld(list, objects, LP.ObjectsOf(LP.DataOf(at, objects)))
  {
    hide LP.DataOf, AddressOf, LP.ObjectOf;
    LP.DataOfKeys(at, objects);
    forall k | 0 <= k < |list| ensures AddressOf(list, k) in LP.DataOf(at, objects) && LP.DataOf(at, objects)[AddressOf(list, k)] == objects[k] {
      assert objects[k] == objects[k];
    }
    forall a | a in LP.DataOf(at, objects) ensures exists k :: 0 <= k < |list| && a == AddressOf(list, k) {
      var k :| 0 <= k < |at| && at[k] == a;
    }
  }

  lemma {:induction false} DataIs(p: F.Image)
    ensures ProgramOf(p).data == LP.ObjectsOf(LP.DataOf(R.Addresses(p.objects, 0), p.objects))
  {
    hide LP.DataOf, LP.ObjectsOf, R.Addresses, LP.InstructionOf, LP.RelocationOf, LP.SymbolOf;
  }

  /** Indexes of functions are less than their number. */
  lemma {:induction false} IndexIsSmall(src: Source, r: Reference)
    requires r.Kind() != VarName && IndexFor(EnvironmentOf(src), r).Some? && |Functions(src)| <= V.TWO31
    ensures IndexFor(EnvironmentOf(src), r).value < V.TWO31
  {
    var ds := Funs(src.defs);
    if r.Kind() == FunName && r.name in Indexes(ds) {
      IndexIsPosition(ds, r.name);
    }
    hide Indexes, Funs;
  }

  lemma {:induction false} IndexIsPosition(ds: seq<Definition>, name: Name)
    requires name in Indexes(ds)
    ensures Indexes(ds)[name] < |ds|
    decreases |ds|
  {
    if ds[|ds| - 1].ident != name { IndexIsPosition(ds[..|ds| - 1], name); }
  }

  /** What a reference needs to be relocated: a place, which holds the index of its name. */
  ghost predicate HasPlace(src: Source, p: F.Image, ref: Reference, at: V.Place)
    requires Walks(src)
  {
    var env := EnvironmentOf(src);
    IsPlaceOf(ObjectsOf(src), ref, at) && IndexFor(env, ref).Some? && LandsAt(ProgramOf(p), ref, at, IndexFor(env, ref).value)
  }

  lemma {:induction false} CodeRefHasPlace(src: Source, p: F.Image, refs: seq<Reference>, ref: Reference)
    requires Walks(src) && RefsHold(EnvironmentOf(src), refs, p.code) && ref in refs
    ensures HasPlace(src, p, ref, CodePlace(ref))
  {
    CodeRefIs(EnvironmentOf(src), refs, p.code, ref);
    hide EnvironmentOf, WordHolds, RefsHold, LandsAt, CodePlace, ObjectsOf, IndexFor, ProgramOf;
    CodeLands(EnvironmentOf(src), p, ref);
  }

  lemma {:induction false} DataRefHasPlace(src: Source, p: F.Image, refs: seq<Reference>, ref: Reference) returns (at: V.Place)
    requires Walks(src) && Compilable(src) && Compiled(src, p) && |Functions(src)| <= V.TWO31
    requires AreElems(ObjectsOf(src), refs) && ref in refs
    ensures HasPlace(src, p, ref, at)
  {
    hide EnvironmentOf, AreElems, LandsAt, ObjectsOf, IndexFor, ProgramOf, Compilable, Compiled, Functions, AddressOf, ElemWidth,
         LaidOut, WellTyped, AddrsOf, VarsGenerated, EntryCompiled, SymbolsCompiled, DataHeld, RefersBack, VarsWellTyped;
    var env, list := EnvironmentOf(src), ObjectsOf(src);
    var k, j := DataRefIs(list, refs, ref);
    at := V.InElem(AddressOf(list, k), j);
    if IndexFor(env, ref).Some? { IndexIsSmall(src, ref); }
    ListedTypes(src);
    CompiledParts(src, p);
    DataIsHeld(env, list, p, AddrsOf(list, |list|));
    DataLands(env, list, p.objects, AddrsOf(list, |list|), ProgramOf(p), k, j, ref);
  }

  lemma {:induction false} VarRefHasPlace(src: Source, p: F.Image, refs: seq<Reference>, indexes: seq<nat>, ref: Reference)
    requires Walks(src) && Compilable(src) && Compiled(src, p) && SizesFit(src) && DistinctIds(ObjectsOf(src)) && |Functions(src)| <= V.TWO31
    requires AreVars(Variables(src), refs, indexes) && ref in refs
    ensures HasPlace(src, p, ref, V.InVar(ref.addr))
  {
    hide EnvironmentOf, AreVars, LandsAt, ObjectsOf, IndexFor, ProgramOf, Compilable, Compiled, Functions, Variables, AddressOf,
         LaidOut, AddrsOf, VarsGenerated, EntryCompiled, SymbolsCompiled, VarIsRef, VarsWellTyped, IsOrder, ListedVars, SizesFit,
         InRange, ValueBits, DistinctIds, WellTyped, RefersBack, CodeAddr;
    var env := EnvironmentOf(src);
    VarRefIs(Variables(src), refs, indexes, ref);
    VarHasIndex(Variables(src), ref);
    if IndexFor(env, ref).Some? { IndexIsSmall(src, ref); }
    SizesAre(src);
    ListedTypes(src);
    CompiledParts(src, p);
    VarIs(env, Variables(src), src.varOrder, p.vars, ref.addr);
    VarLands(env, Variables(src), p, ref);
  }

  /** Every reference is about a place that holds the index of its name. */
  lemma {:induction false} ReferenceHasPlace(src: Source, p: F.Image, j: nat) returns (at: V.Place)
    requires Walks(src) && Compilable(src) && Compiled(src, p) && SizesFit(src) && DistinctIds(ObjectsOf(src))
    requires Gathered(src, p) && j < |AllRefs(src)| && |Functions(src)| <= V.TWO31
    ensures HasPlace(src, p, AllRefs(src)[j], at)
  {
    var code := CodeRefs(Functions(src), src.funOrder, |Functions(src)|);
    var data := DataRefs(ObjectsOf(src), |ObjectsOf(src)|);
    var vars := VarRefs(Variables(src), src.varOrder, |Variables(src)|);
    var indexes :| AreVars(Variables(src), vars, indexes);
    assert AllRefs(src) == code + data + vars;
    hide Gathered, Compilable, Compiled, RefsHold, AreElems, AreVars, AllRefs, CodeRefs, DataRefs, VarRefs, ObjectsOf, Variables, Functions,
         Sorted, EnvironmentOf, SizesFit, DistinctIds, HasPlace, CodePlace, Walks;
    var ref := AllRefs(src)[j];
    if j < |code| {
      CodeRefHasPlace(src, p, code, ref);
      at := CodePlace(ref);
    } else if j < |code| + |data| {
      at := DataRefHasPlace(src, p, data, ref);
    } else {
      VarRefHasPlace(src, p, vars, indexes, ref);
      at := V.InVar(ref.addr);
    }
  }

  lemma {:induction false} VarHasIndex(values: seq<Value>, ref: Reference)
    requires VarIsRef(values, ref)
    ensures ref.addr < |values| && !values[ref.addr].RefValue? && ref.Kind() != VarName
    ensures ref.type_ == RELOC_VAR_FUN || ref.type_ == RELOC_VAR_NATIVE_FUN
  {
  }

  /** A relocation of the loaded program is that of a reference: its place holds the index of the
      name, and it names a symbol of the kind and the name exactly if that is not defined here. */
  ghost predicate Relocates(src: Source, p: V.Program, ref: Reference, r: V.Relocation) {
    var env := EnvironmentOf(src);
    && IndexFor(env, ref).Some? && V.PlaceOf(p, r).Some? && V.Get(p, V.PlaceOf(p, r).value) == IndexFor(env, ref).value
    && V.SymbolKindOf(r.kind) == SymbolKindOf(ref.Kind())
    && (r.symbolic <==> !IsDefined(DefinedNames(env), ref.Kind(), ref.name))
    && (r.symbolic ==> r.symbol < |p.symbols| && p.symbols[r.symbol] == V.Symbol(SymbolKindOf(ref.Kind()), false, 0, LP.NameOf(ref.name)))
  }

  lemma {:induction false} SymbolIs(symbols: seq<Symbol>, p: F.Image, j: nat, kind: Kind, name: Name)
    requires p.symbols == WrittenSymbols(symbols) && j < |symbols| && symbols[j] == External(kind, name)
    ensures j < |ProgramOf(p).symbols| && ProgramOf(p).symbols[j] == V.Symbol(SymbolKindOf(kind), false, 0, LP.NameOf(name))
  {
    assert ProgramOf(p).symbols[j] == LP.SymbolOf(p.symbols[j]) by { SymbolsAre(p, j); }
    hide ProgramOf, LP.ProgramOf, R.LoadedOf;
  }

  lemma {:induction false} SymbolsAre(p: F.Image, j: nat)
    requires j < |p.symbols|
    ensures |ProgramOf(p).symbols| == |p.symbols| && ProgramOf(p).symbols[j] == LP.SymbolOf(p.symbols[j])
  {
    hide LP.DataOf, LP.ObjectsOf, R.Addresses, LP.InstructionOf, LP.RelocationOf, LP.SymbolOf;
  }

  lemma {:induction false} RelocsAre(p: F.Image, j: nat)
    requires j < |p.relocs|
    ensures |ProgramOf(p).relocs| == |p.relocs| && ProgramOf(p).relocs[j] == LP.RelocationOf(p.relocs[j])
  {
    hide LP.DataOf, LP.ObjectsOf, R.Addresses, LP.InstructionOf, LP.RelocationOf, LP.SymbolOf;
  }

  lemma {:induction false} OneLands(src: Source, p: F.Image, j: nat) returns (at: V.Place)
    requires Walks(src) && Compilable(src) && Compiled(src, p) && SizesFit(src) && DistinctIds(ObjectsOf(src)) && src.isRelocatable
    requires Gathered(src, p) && j < |AllRefs(src)| && |Functions(src)| <= V.TWO31
    ensures |ProgramOf(p).relocs| == |p.relocs| == |AllRefs(src)|
    ensures Relocates(src, ProgramOf(p), AllRefs(src)[j], ProgramOf(p).relocs[j])
    ensures IsPlaceOf(ObjectsOf(src), AllRefs(src)[j], at) && V.PlaceOf(ProgramOf(p), ProgramOf(p).relocs[j]) == Some(at)
  {
    hide Compilable, Compiled, Gathered, AllRefs, Functions, ObjectsOf, DistinctIds, SizesFit, EnvironmentOf, Symbols, RelocatesBy,
         WrittenSymbols, ProgramOf, LP.RelocationOf, IndexFor, IsDefined, V.PlaceOf, V.SymbolKindOf, SymbolKindOf, LP.KindOf,
         LaidOut, VarsGenerated, EntryCompiled, AddrsOf, LP.NameOf;
    CompiledParts(src, p);
    at := ReferenceHasPlace(src, p, j);
    var ref, reloc, defs := AllRefs(src)[j], p.relocs[j], DefinedNames(EnvironmentOf(src));
    RelocsAre(p, j);
    RelocationIs(defs, Symbols(src), ref, reloc);
    KindIs(ref);
    if !IsDefined(defs, ref.Kind(), ref.name) {
      SymbolNumber(reloc);
      SymbolIs(Symbols(src), p, reloc.symbol, ref.Kind(), ref.name);
    }
  }

  lemma {:induction false} SymbolNumber(r: F.Relocation)
    ensures LP.RelocationOf(r).symbol == r.symbol
  {
  }

  /** The loaded program of a compiled relocatable source is one that can be linked: its relocations
      are those of the references of the source, in order, each about a place of its own that holds
      the index of the name. */
  lemma {:induction false} CompiledRelocationsLand(src: Source, p: F.Image)
    requires Walks(src) && Compilable(src) && Compiled(src, p) && SizesFit(src) && DistinctIds(ObjectsOf(src)) && src.isRelocatable
    requires (forall name :: name in src.ops ==> src.ops[name].op < 256) && |Functions(src)| <= V.TWO31
    ensures |ProgramOf(p).relocs| == |AllRefs(src)| && L.Fresh(ProgramOf(p))
    ensures forall j :: 0 <= j < |AllRefs(src)| ==> Relocates(src, ProgramOf(p), AllRefs(src)[j], ProgramOf(p).relocs[j])
  {
    assert OpsFit(EnvironmentOf(src));
    hide Compilable, Compiled, Gathered, AllRefs, Functions, ObjectsOf, DistinctIds, SizesFit, EnvironmentOf, Relocates, ProgramOf,
         IsPlaceOf, Differ, V.PlaceOf, OpsFit, Walks;
    RefsAreGathered(src, p);
    NoOffsets(p);
    CountsAgree(src, p);
    forall j | 0 <= j < |AllRefs(src)| ensures Relocates(src, ProgramOf(p), AllRefs(src)[j], ProgramOf(p).relocs[j]) {
      var at := OneLands(src, p, j);
    }
    forall j, k | 0 <= j < k < |AllRefs(src)|
      ensures V.PlaceOf(ProgramOf(p), ProgramOf(p).relocs[j]) != V.PlaceOf(ProgramOf(p), ProgramOf(p).relocs[k])
    {
      var at := OneLands(src, p, j);
      var other := OneLands(src, p, k);
      ReferencesDiffer(src, p, j, k);
      PlacesDiffer(ObjectsOf(src), AllRefs(src)[j], AllRefs(src)[k], at, other);
    }
  }

  lemma {:induction false} NoOffsets(p: F.Image)
    ensures ProgramOf(p).funOffset == 0 && ProgramOf(p).varOffset == 0 && |ProgramOf(p).relocs| == |p.relocs|
  {
    hide LP.DataOf, LP.ObjectsOf, R.Addresses, LP.InstructionOf, LP.RelocationOf, LP.SymbolOf;
  }

  lemma {:induction false} CountsAgree(src: Source, p: F.Image)
    requires Walks(src) && Compiled(src, p) && src.isRelocatable
    ensures |p.relocs| == |AllRefs(src)|
  {
    CompiledParts(src, p);
    hide Compiled, AllRefs, Symbols, RelocatesBy;
  }

  // ------------------------------------------------------------------ what names denote

  lemma {:induction false} FunIsLoaded(src: Source, p: F.Image)
    requires Walks(src) && Compiled(src, p)
    ensures |ProgramOf(p).funs| == |Functions(src)| && |ProgramOf(p).vars| == |Variables(src)|
  {
    GeneratedPart(src, p);
    CompiledParts(src, p);
    hide LP.DataOf, LP.ObjectsOf, R.Addresses, LP.InstructionOf, LP.RelocationOf, LP.SymbolOf, Compiled, Generated, Functions, Variables;
  }

  lemma {:induction false} DefinedIndex(src: Source, ref: Reference)
    requires IsDefined(DefinedNames(EnvironmentOf(src)), ref.Kind(), ref.name) && |Functions(src)| < TWO32 && |Variables(src)| < TWO32
    ensures IndexFor(EnvironmentOf(src), ref).Some?
    ensures if ref.Kind() == FunName then IndexFor(EnvironmentOf(src), ref).value == Indexes(Funs(src.defs))[ref.name] < |Functions(src)|
            else ref.Kind() == VarName && IndexFor(EnvironmentOf(src), ref).value == Indexes(Vars(src.defs))[ref.name] < |Variables(src)|
  {
    if ref.Kind() == FunName {
      IndexIsPosition(Funs(src.defs), ref.name);
    } else {
      IndexIsPosition(Vars(src.defs), ref.name);
    }
    hide Indexes, Funs, Vars;
  }

  /** An index denotes a name of the i-th program: a function or variable of that program, at its
      index behind those of the programs before, or else the one definition of the name in all. */
  ghost predicate Denoted(src: Source, ref: Reference, progs: seq<V.Program>, linked: seq<V.Program>, link: L.Link, parts: L.Parts,
                          i: nat, d: L.Position, index: int)
    requires i < |progs| == |linked|
  {
    var funs, vars := Indexes(Funs(src.defs)), Indexes(Vars(src.defs));
    if ref.Kind() == FunName && ref.name in funs then
      && funs[ref.name] < |progs[i].funs| && index == L.FunBase(progs, i) + funs[ref.name] && 0 <= index < |parts.funs|
      && parts.funs[index] == L.LinkedFunction(i, progs[i].funs[funs[ref.name]])
    else if ref.Kind() == VarName && ref.name in vars then
      && vars[ref.name] < |linked[i].vars| && index == L.VarBase(progs, i) + vars[ref.name] && 0 <= index < |parts.vars|
      && i < |link.objects|
      && var v := linked[i].vars[vars[ref.name]]; Some(parts.vars[index]) == D.ElementOf(v.type_, v.i, link.objects[i])
    else
      && L.OnlyDefinition(progs, d, SymbolKindOf(ref.Kind()), LP.NameOf(ref.name)) && index == L.Target(progs, d)
      && L.Denotes(progs, linked, parts, link, d)
  }

  /** The programs are linked and loaded, and the relocation of a reference has a place. */
  ghost predicate LinkedReference(src: Source, ref: Reference, progs: seq<V.Program>, linked: seq<V.Program>, link: L.Link, parts: L.Parts,
                                  addrs: seq<seq<nat>>, i: nat, j: nat, at: V.Place)
  {
    && L.IsLinked(progs, linked, link) && L.AllRelocatable(progs)
    && L.AllLoaded(parts, linked, |linked|, addrs, link.objects, link.starts)
    && i < |progs| && L.Fresh(progs[i]) && j < |progs[i].relocs| && V.PlaceOf(progs[i], progs[i].relocs[j]) == Some(at)
    && L.FunBase(progs, i) + TWO32 <= TWO64 && L.VarBase(progs, i) + TWO32 <= TWO64
    && Relocates(src, progs[i], ref, progs[i].relocs[j]) && ref.Kind() != NativeName
  }

  lemma {:induction false} LocalNameDenotes(src: Source, ref: Reference, progs: seq<V.Program>, linked: seq<V.Program>, link: L.Link,
                                            parts: L.Parts, addrs: seq<seq<nat>>, i: nat, j: nat, at: V.Place, d: L.Position)
    requires LinkedReference(src, ref, progs, linked, link, parts, addrs, i, j, at)
    requires IsDefined(DefinedNames(EnvironmentOf(src)), ref.Kind(), ref.name)
    requires |progs[i].funs| == |Functions(src)| <= V.TWO31 && |progs[i].vars| == |Variables(src)| < TWO32
    ensures |linked| == |progs| && V.IsPlace(linked[i], at) && Denoted(src, ref, progs, linked, link, parts, i, d, V.Get(linked[i], at))
  {
    DefinedIndex(src, ref);
    hide L.IsLinked, L.AllLoaded, L.Fresh, V.PlaceOf, IndexFor, Indexes, Funs, Vars, Functions, Variables, L.FunBase, L.VarBase, LP.NameOf;
    if ref.Kind() == FunName {
      L.LocalFunctionKept(progs, linked, link, parts, addrs, i, j, at);
    } else {
      L.LocalVariableKept(progs, linked, link, parts, addrs, i, j, at);
      LinkedObjects(progs, linked, link, parts, addrs, i);
    }
  }

  lemma {:induction false} LinkedObjects(progs: seq<V.Program>, linked: seq<V.Program>, link: L.Link, parts: L.Parts, addrs: seq<seq<nat>>, i: nat)
    requires L.IsLinked(progs, linked, link) && L.AllLoaded(parts, linked, |linked|, addrs, link.objects, link.starts) && i < |progs|
    ensures |linked| == |progs| && i < |link.objects|
  {
  }

  lemma {:induction false} ExternalNameDenotes(src: Source, ref: Reference, progs: seq<V.Program>, linked: seq<V.Program>, link: L.Link,
                                               parts: L.Parts, addrs: seq<seq<nat>>, i: nat, j: nat, at: V.Place)
    returns (d: L.Position)
    requires LinkedReference(src, ref, progs, linked, link, parts, addrs, i, j, at)
    requires !IsDefined(DefinedNames(EnvironmentOf(src)), ref.Kind(), ref.name)
    ensures |linked| == |progs| && V.IsPlace(linked[i], at) && Denoted(src, ref, progs, linked, link, parts, i, d, V.Get(linked[i], at))
  {
    LinkedObjects(progs, linked, link, parts, addrs, i);
    hide L.IsLinked, L.AllLoaded, L.Fresh, V.PlaceOf, IndexFor, Indexes, Funs, Vars, L.FunBase, L.VarBase, L.OnlyDefinition, L.Denotes, L.Target,
         LP.NameOf;
    d := L.SymbolResolved(progs, linked, link, parts, addrs, i, j, at);
  }

  /** After linking, every name of a function or variable in the source denotes what it names. */
  lemma {:induction false} NameDenotes(src: Source, p: F.Image, j: nat, progs: seq<V.Program>, linked: seq<V.Program>, link: L.Link,
                                       parts: L.Parts, addrs: seq<seq<nat>>, i: nat)
    returns (d: L.Position, at: V.Place)
    requires Walks(src) && Compilable(src) && Compiled(src, p) && SizesFit(src) && DistinctIds(ObjectsOf(src)) && src.isRelocatable
    requires (forall name :: name in src.ops ==> src.ops[name].op < 256) && |Functions(src)| <= V.TWO31
    requires L.IsLinked(progs, linked, link) && L.AllRelocatable(progs)
    requires L.AllLoaded(parts, linked, |linked|, addrs, link.objects, link.starts)
    requires i < |progs| && progs[i] == ProgramOf(p) && j < |AllRefs(src)| && AllRefs(src)[j].Kind() != NativeName
    requires L.FunBase(progs, i) + TWO32 <= TWO64 && L.VarBase(progs, i) + TWO32 <= TWO64
    ensures j < |progs[i].relocs| && V.PlaceOf(progs[i], progs[i].relocs[j]) == Some(at)
    ensures |linked| == |progs| && V.IsPlace(linked[i], at)
    ensures Denoted(src, AllRefs(src)[j], progs, linked, link, parts, i, d, V.Get(linked[i], at))
  {
    hide *;
    CompiledRelocationsLand(src, p);
    FunIsLoaded(src, p);
    SizesAre(src);
    var ref := AllRefs(src)[j];
    at := PlaceIsThere(src, progs[i], ref, progs[i].relocs[j]);
    IsLinkedReference(src, ref, progs, linked, link, parts, addrs, i, j, at);
    if IsDefined(DefinedNames(EnvironmentOf(src)), ref.Kind(), ref.name) {
      d := L.Position(0, 0);
      LocalNameDenotes(src, ref, progs, linked, link, parts, addrs, i, j, at, d);
    } else {
      d := ExternalNameDenotes(src, ref, progs, linked, link, parts, addrs, i, j, at);
    }
  }

  lemma {:induction false} PlaceIsThere(src: Source, p: V.Program, ref: Reference, r: V.Relocation) returns (at: V.Place)
    requires Relocates(src, p, ref, r)
    ensures V.PlaceOf(p, r) == Some(at)
  {
    at := V.PlaceOf(p, r).value;
  }

  lemma {:induction false} IsLinkedReference(src: Source, ref: Reference, progs: seq<V.Program>, linked: seq<V.Program>, link: L.Link,
                                             parts: L.Parts, addrs: seq<seq<nat>>, i: nat, j: nat, at: V.Place)
    requires L.IsLinked(progs, linked, link) && L.AllRelocatable(progs)
    requires L.AllLoaded(parts, linked, |linked|, addrs, link.objects, link.starts)
    requires i < |progs| && L.Fresh(progs[i]) && j < |progs[i].relocs| && V.PlaceOf(progs[i], progs[i].relocs[j]) == Some(at)
    requires L.FunBase(progs, i) + TWO32 <= TWO64 && L.VarBase(progs, i) + TWO32 <= TWO64
    requires Relocates(src, progs[i], ref, progs[i].relocs[j]) && ref.Kind() != NativeName
    ensures LinkedReference(src, ref, progs, linked, link, parts, addrs, i, j, at)
  {
    hide L.IsLinked, L.AllLoaded, L.Fresh, V.PlaceOf, Relocates, L.FunBase, L.VarBase, L.AllRelocatable;
  }
}
