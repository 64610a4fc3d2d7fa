/** Relocation of a loaded program (`Program::relocate` in vm/vm.cpp). A relocation names a place
    that holds the index of a function or a variable: an argument of an instruction, an element of
    a data object or a global variable. The 32-bit places are kept as their bit patterns. */
module Relocations {
  import opened Options
  import opened Opcodes

  const TWO31: int := 0x8000_0000
  const TWO32: int := 0x1_0000_0000
  const TWO64: int := 0x1_0000_0000_0000_0000

  const VALUE_TYPE_INT: int := 0
  const OBJECT_TYPE_IARRAY32: int := 2
  const OBJECT_TYPE_IARRAY64: int := 3
  const OBJECT_TYPE_TUPLE: int := 7

  datatype Instruction = Instruction(opcode: bv32, arg1: int, arg2: int)
  datatype Variable = Variable(type_: int, i: int)
  datatype DataObject = DataObject(type_: int, elems: seq<int>, elemTypes: seq<int>)

  datatype Kind =
    | Arg1Fun | Arg2Fun | Arg1Var | Arg2Var | ElemFun | VarFun
    | Arg1NativeFun | Arg2NativeFun | ElemNativeFun | VarNativeFun

  datatype SymbolKind = FunSymbol | VarSymbol | NativeFunSymbol

  datatype Relocation = Relocation(kind: Kind, symbolic: bool, addr: nat, symbol: nat)
  datatype Symbol = Symbol(kind: SymbolKind, defined: bool, index: nat, name: string)

  datatype Function = Function(addr: nat, argCount: nat, instrCount: nat)
  datatype FunctionInfo = FunctionInfo(funIndex: nat, evalStrategy: nat, evalStrategyMask: nat)

  /** A program as the loader hands it over. */
  datatype Program = Program(
    relocatable: bool, library: bool, nativeFunSymbols: bool, entry: int,
    funs: seq<Function>, funInfos: seq<FunctionInfo>,
    code: seq<Instruction>, vars: seq<Variable>, data: map<nat, DataObject>,
    relocs: seq<Relocation>, symbols: seq<Symbol>, funOffset: int, varOffset: int)

  datatype Names = Names(funs: map<string, int>, vars: map<string, int>, nativeFuns: map<string, int>)

  // ------------------------------------------------------------------ places

  datatype Place =
    | InArg1(ip: nat)
    | InArg2(ip: nat)
    | InElem(object_: nat, j: nat)
    | InVar(v: nat)

  predicate IsPlace(p: Program, at: Place) {
    match at
    case InArg1(ip) => ip < |p.code|
    case InArg2(ip) => ip < |p.code|
    case InElem(o, j) => o in p.data && j < |p.data[o].elems|
    case InVar(v) => v < |p.vars|
  }

  function Get(p: Program, at: Place): int
    requires IsPlace(p, at)
  {
    match at
    case InArg1(ip) => p.code[ip].arg1
    case InArg2(ip) => p.code[ip].arg2
    case InElem(o, j) => p.data[o].elems[j]
    case InVar(v) => p.vars[v].i
  }

  function Put(p: Program, at: Place, raw: int): Program
    requires IsPlace(p, at)
  {
    match at
    case InArg1(ip) => p.(code := p.code[ip := p.code[ip].(arg1 := raw)])
    case InArg2(ip) => p.(code := p.code[ip := p.code[ip].(arg2 := raw)])
    case InElem(o, j) => p.(data := p.data[o := p.data[o].(elems := p.data[o].elems[j := raw])])
    case InVar(v) => p.(vars := p.vars[v := p.vars[v].(i := raw)])
  }

  /** How a place holds an index: a signed or unsigned 32-bit number, or a wide one. */
  datatype Width = Signed32 | Unsigned32 | Wide

  function WidthOf(p: Program, kind: Kind, at: Place): Width
    requires IsPlace(p, at)
  {
    match at
    case InArg1(_) => if kind.Arg1Var? then Unsigned32 else Signed32
    case InArg2(_) => if kind.Arg2Var? then Unsigned32 else Signed32
    case InElem(o, _) => if p.data[o].type_ == OBJECT_TYPE_IARRAY32 then Signed32 else Wide
    case InVar(_) => Wide
  }

  /** The greatest address of a data object that is not above an address. */
  function Below(addrs: set<nat>, addr: nat): (o: Option<nat>)
    ensures o.Some? ==> o.value in addrs && o.value <= addr && forall x :: x in addrs && x <= addr ==> x <= o.value
    ensures o.None? ==> forall x :: x in addrs ==> addr < x
    decreases addr
  {
    if addr in addrs then Some(addr) else if addr == 0 then None else Below(addrs, addr - 1)
  }

  function ElemPlace(data: map<nat, DataObject>, addr: nat): (at: Option<Place>)
    ensures at.Some? ==> at.value.InElem? && at.value.object_ in data && at.value.j < |data[at.value.object_].elems|
  {
    match Below(data.Keys, addr)
    case None => None
    case Some(o) =>
      if o + 8 > addr then None
      else
        var d, off := data[o], addr - (o + 8);
        if d.type_ == OBJECT_TYPE_IARRAY32 then
          if |d.elems| * 4 <= off || off % 4 != 0 then None else Some(InElem(o, off / 4))
        else if d.type_ == OBJECT_TYPE_IARRAY64 then
          if |d.elems| * 8 <= off || off % 8 != 0 then None else Some(InElem(o, off / 8))
        else if d.type_ == OBJECT_TYPE_TUPLE then
          if |d.elems| * 8 <= off || off % 8 != 0 then None
          else if off / 8 >= |d.elemTypes| || d.elemTypes[off / 8] != VALUE_TYPE_INT then None
          else Some(InElem(o, off / 8))
        else None
  }

  /** The place of a relocation, if it lies in the program and has the type the relocation wants. */
  function PlaceOf(p: Program, r: Relocation): (at: Option<Place>)
    ensures at.Some? ==> IsPlace(p, at.value)
  {
    match r.kind
    case Arg1Fun => if r.addr < |p.code| && ArgType1(p.code[r.addr].opcode) == ARG_TYPE_IMM then Some(InArg1(r.addr)) else None
    case Arg2Fun => if r.addr < |p.code| && ArgType2(p.code[r.addr].opcode) == ARG_TYPE_IMM then Some(InArg2(r.addr)) else None
    case Arg1Var => if r.addr < |p.code| && ArgType1(p.code[r.addr].opcode) == ARG_TYPE_GVAR then Some(InArg1(r.addr)) else None
    case Arg2Var => if r.addr < |p.code| && ArgType2(p.code[r.addr].opcode) == ARG_TYPE_GVAR then Some(InArg2(r.addr)) else None
    case Arg1NativeFun => if r.addr < |p.code| && ArgType1(p.code[r.addr].opcode) == ARG_TYPE_IMM then Some(InArg1(r.addr)) else None
    case Arg2NativeFun => if r.addr < |p.code| && ArgType2(p.code[r.addr].opcode) == ARG_TYPE_IMM then Some(InArg2(r.addr)) else None
    case ElemFun => ElemPlace(p.data, r.addr)
    case ElemNativeFun => ElemPlace(p.data, r.addr)
    case VarFun => if r.addr < |p.vars| && p.vars[r.addr].type_ == VALUE_TYPE_INT then Some(InVar(r.addr)) else None
    case VarNativeFun => if r.addr < |p.vars| && p.vars[r.addr].type_ == VALUE_TYPE_INT then Some(InVar(r.addr)) else None
  }

  // ------------------------------------------------------------------ indexes

  /** Read as `size_t`: a negative 32-bit number becomes a huge index. */
  function ReadIndex(w: Width, raw: int): Option<int> {
    match w
    case Signed32 => Some(if raw < TWO31 then raw else raw + TWO64 - TWO32)
    case Unsigned32 => Some(raw)
    case Wide => if 0 <= raw < TWO32 then Some(raw) else None
  }

  predicate IsNative(k: Kind) {
    k.Arg1NativeFun? || k.Arg2NativeFun? || k.ElemNativeFun? || k.VarNativeFun?
  }

  predicate IsVar(k: Kind) {
    k.Arg1Var? || k.Arg2Var?
  }

  function SymbolKindOf(k: Kind): SymbolKind {
    if IsNative(k) then NativeFunSymbol else if IsVar(k) then VarSymbol else FunSymbol
  }

  function TableOf(names: Names, k: SymbolKind): map<string, int> {
    match k
    case FunSymbol => names.funs
    case VarSymbol => names.vars
    case NativeFunSymbol => names.nativeFuns
  }

  /** Where the name of a symbolic relocation is defined. */
  function Named(p: Program, r: Relocation, names: Names): Option<int> {
    var k := SymbolKindOf(r.kind);
    if r.symbol < |p.symbols| && p.symbols[r.symbol].kind == k && (k.NativeFunSymbol? ==> !p.symbols[r.symbol].defined)
       && p.symbols[r.symbol].name in TableOf(names, k) then Some(TableOf(names, k)[p.symbols[r.symbol].name])
    else None
  }

  /** A local index moved from the old offset of the program to a new one, in 64-bit arithmetic. */
  function Moved(index: int, oldOffset: int, offset: int): Option<int> {
    var moved := (index - oldOffset + offset) % TWO64;
    if moved < TWO32 then Some(moved) else None
  }

  /** What a place of a relocation that is not native holds afterwards. */
  function NewIndex(p: Program, r: Relocation, raw: int, w: Width, funOffset: int, varOffset: int, names: Names): Option<int> {
    match ReadIndex(w, raw)
    case None => None
    case Some(index) =>
      if r.symbolic then
        (match Named(p, r, names)
         case Some(n) => if 0 <= n < TWO32 then Some(n) else None
         case None => None)
      else if IsVar(r.kind) then Moved(index, p.varOffset, varOffset)
      else Moved(index, p.funOffset, funOffset)
  }

  function Signed(raw: int): int {
    if raw < TWO31 then raw else raw - TWO32
  }

  /** The same for a native function, whose index is a signed 32-bit number: a wide place in a data
      object must hold an index that is not negative before, and may hold a negative one after. */
  function NewNativeIndex(p: Program, r: Relocation, raw: int, w: Width, names: Names): Option<int> {
    if r.kind.ElemNativeFun? && ReadIndex(w, raw).None? then None
    else if r.kind.VarNativeFun? && !(-TWO31 <= raw < TWO31) then None
    else if !r.symbolic then Some(if w.Wide? then Signed(raw % TWO32) else raw)
    else
      match Named(p, r, names)
      case None => None
      case Some(n) => Some(if w.Wide? then n else n % TWO32)
  }

  function NewRaw(p: Program, r: Relocation, at: Place, funOffset: int, varOffset: int, names: Names): Option<int>
    requires IsPlace(p, at)
  {
    var raw, w := Get(p, at), WidthOf(p, r.kind, at);
    if IsNative(r.kind) then
      if p.nativeFunSymbols then NewNativeIndex(p, r, raw, w, names) else None
    else NewIndex(p, r, raw, w, funOffset, varOffset, names)
  }

  // ------------------------------------------------------------------ the loop

  function RelocateOne(p: Program, r: Relocation, funOffset: int, varOffset: int, names: Names): Option<Program> {
    match PlaceOf(p, r)
    case None => None
    case Some(at) =>
      match NewRaw(p, r, at, funOffset, varOffset, names)
      case None => None
      case Some(raw) => Some(Put(p, at, raw))
  }

  /** The relocations in order; where one fails, those before it have been applied. */
  function RelocateAll(p: Program, relocs: seq<Relocation>, funOffset: int, varOffset: int, names: Names): (Program, bool)
    decreases |relocs|
  {
    if relocs == [] then (p, true)
    else
      match RelocateOne(p, relocs[0], funOffset, varOffset, names)
      case None => (p, false)
      case Some(p') => RelocateAll(p', relocs[1..], funOffset, varOffset, names)
  }

  function Relocated(p: Program, funOffset: int, varOffset: int, names: Names): (Program, bool) {
    var all := RelocateAll(p, p.relocs, funOffset, varOffset, names);
    if all.1 then
      (all.0.(entry := if p.library then p.entry else (p.entry - p.funOffset + funOffset) % TWO64,
              funOffset := funOffset, varOffset := varOffset), true)
    else all
  }

  ghost predicate OnlyPlacesDiffer(p: Program, p': Program) {
    p'.(code := p.code, vars := p.vars, data := p.data) == p
  }

  lemma PutChangesPlaces(p: Program, at: Place, raw: int)
    requires IsPlace(p, at)
    ensures OnlyPlacesDiffer(p, Put(p, at, raw))
  {
  }

  /** `Program::relocate`, which changes the program in place. */
  class LoadedProgram {
    var p: Program

    constructor (p: Program)
      ensures this.p == p
    {
      this.p := p;
    }

    method Relocate(funOffset: int, varOffset: int, names: Names) returns (ok: bool)
      modifies this
      ensures (p, ok) == Relocated(old(p), funOffset, varOffset, names)
    {
      hide PlaceOf, NewRaw, Put;
      var relocs := p.relocs;
      var i := 0;
      while i < |relocs|
        invariant i <= |relocs|
        invariant RelocateAll(p, relocs[i..], funOffset, varOffset, names) == RelocateAll(old(p), relocs, funOffset, varOffset, names)
        invariant OnlyPlacesDiffer(old(p), p)
      {
        var at := PlaceOf(p, relocs[i]);
        if at.None? { return false; }
        var raw := NewRaw(p, relocs[i], at.value, funOffset, varOffset, names);
        if raw.None? { return false; }
        PutChangesPlaces(p, at.value, raw.value);
        p := Put(p, at.value, raw.value);
        assert relocs[i..][1..] == relocs[i + 1..];
        i := i + 1;
      }
      if !p.library {
        p := p.(entry := (p.entry - p.funOffset + funOffset) % TWO64);
      }
      p := p.(funOffset := funOffset, varOffset := varOffset);
      return true;
    }
  }

  // ------------------------------------------------------------------ what relocation does

  /** Programs with the same places. */
  ghost predicate SameShape(p: Program, p': Program) {
    && p'.nativeFunSymbols == p.nativeFunSymbols && p'.relocs == p.relocs && p'.symbols == p.symbols
    && p'.library == p.library && p'.funs == p.funs && p'.funInfos == p.funInfos
    && |p'.code| == |p.code| && |p'.vars| == |p.vars| && p'.data.Keys == p.data.Keys
    && (forall k {:trigger p'.code[k]} :: 0 <= k < |p.code| ==> p'.code[k].opcode == p.code[k].opcode)
    && (forall k {:trigger p'.vars[k]} :: 0 <= k < |p.vars| ==> p'.vars[k].type_ == p.vars[k].type_)
    && (forall o {:trigger p'.data[o]} :: o in p.data ==>
          p'.data[o].type_ == p.data[o].type_ && p'.data[o].elemTypes == p.data[o].elemTypes
          && |p'.data[o].elems| == |p.data[o].elems|)
  }

  lemma PutKeepsShape(p: Program, at: Place, raw: int)
    requires IsPlace(p, at)
    ensures SameShape(p, Put(p, at, raw))
  {
  }

  lemma GetPut(p: Program, at: Place, raw: int, other: Place)
    requires IsPlace(p, at) && IsPlace(p, other)
    ensures IsPlace(Put(p, at, raw), other)
    ensures Get(Put(p, at, raw), other) == if other == at then raw else Get(p, other)
  {
  }

  lemma ShapeTrans(p: Program, q: Program, r: Program)
    requires SameShape(p, q) && SameShape(q, r)
    ensures SameShape(p, r)
  {
  }

  lemma ElemPlaceSame(p: Program, p': Program, addr: nat)
    requires SameShape(p, p')
    ensures ElemPlace(p'.data, addr) == ElemPlace(p.data, addr)
  {
  }

  /** Places and the way they hold an index depend on the shape only. */
  lemma PlacesSame(p: Program, p': Program, r: Relocation)
    requires SameShape(p, p')
    ensures PlaceOf(p', r) == PlaceOf(p, r)
    ensures PlaceOf(p, r).Some? ==>
              IsPlace(p', PlaceOf(p, r).value) && WidthOf(p', r.kind, PlaceOf(p, r).value) == WidthOf(p, r.kind, PlaceOf(p, r).value)
  {
    hide ElemPlace;
    ElemPlaceSame(p, p', r.addr);
  }

  /** A place whose content is the same is relocated to the same content. */
  lemma NewRawSame(p: Program, p': Program, r: Relocation, at: Place, funOffset: int, varOffset: int, names: Names)
    requires SameShape(p, p') && PlaceOf(p, r) == Some(at) && IsPlace(p', at) && Get(p', at) == Get(p, at)
    requires OnlyPlacesDiffer(p, p')
    ensures NewRaw(p', r, at, funOffset, varOffset, names) == NewRaw(p, r, at, funOffset, varOffset, names)
  {
    PlacesSame(p, p', r);
    hide PlaceOf, WidthOf, ReadIndex;
  }

  lemma EqualByPlaces(p: Program, p': Program)
    requires SameShape(p, p') && OnlyPlacesDiffer(p, p') && forall at :: IsPlace(p, at) ==> IsPlace(p', at) && Get(p', at) == Get(p, at)
    ensures p' == p
  {
    forall k | 0 <= k < |p.code| ensures p'.code[k] == p.code[k] {
      assert IsPlace(p, InArg1(k)) && IsPlace(p, InArg2(k));
    }
    forall k | 0 <= k < |p.vars| ensures p'.vars[k] == p.vars[k] {
      assert IsPlace(p, InVar(k));
    }
    forall o | o in p.data ensures p'.data[o] == p.data[o] {
      forall j | 0 <= j < |p.data[o].elems| ensures p'.data[o].elems[j] == p.data[o].elems[j] {
        assert IsPlace(p, InElem(o, j));
      }
    }
    assert p'.code == p.code && p'.vars == p.vars && p'.data == p.data;
  }

  /** No two relocations are about the same place. */
  ghost predicate Distinct(p: Program, relocs: seq<Relocation>) {
    forall j, k :: 0 <= j < k < |relocs| ==> PlaceOf(p, relocs[j]).None? || PlaceOf(p, relocs[j]) != PlaceOf(p, relocs[k])
  }

  ghost predicate Touched(p: Program, relocs: seq<Relocation>, at: Place) {
    exists k :: 0 <= k < |relocs| && PlaceOf(p, relocs[k]) == Some(at)
  }

  lemma RelocateOneKeeps(p: Program, r: Relocation, funOffset: int, varOffset: int, names: Names, at: Place)
    requires RelocateOne(p, r, funOffset, varOffset, names).Some? && IsPlace(p, at)
    ensures var p' := RelocateOne(p, r, funOffset, varOffset, names).value;
            && SameShape(p, p') && OnlyPlacesDiffer(p, p') && PlaceOf(p, r).Some? && IsPlace(p', at)
            && (if PlaceOf(p, r) == Some(at) then NewRaw(p, r, at, funOffset, varOffset, names) == Some(Get(p', at))
                else Get(p', at) == Get(p, at))
  {
    hide PlaceOf, NewRaw, SameShape;
    var to := PlaceOf(p, r).value;
    var raw := NewRaw(p, r, to, funOffset, varOffset, names).value;
    PutKeepsShape(p, to, raw);
    PutChangesPlaces(p, to, raw);
    GetPut(p, to, raw, at);
  }

  lemma {:induction false} RelocateAllShape(p: Program, relocs: seq<Relocation>, funOffset: int, varOffset: int, names: Names)
    ensures var p' := RelocateAll(p, relocs, funOffset, varOffset, names).0; SameShape(p, p') && OnlyPlacesDiffer(p, p')
    decreases |relocs|
  {
    if relocs != [] && RelocateOne(p, relocs[0], funOffset, varOffset, names).Some? {
      var p1 := RelocateOne(p, relocs[0], funOffset, varOffset, names).value;
      RelocateOneKeeps(p, relocs[0], funOffset, varOffset, names, PlaceOf(p, relocs[0]).value);
      RelocateAllShape(p1, relocs[1..], funOffset, varOffset, names);
      ShapeTrans(p, p1, RelocateAll(p1, relocs[1..], funOffset, varOffset, names).0);
    }
  }

  /** A place that no relocation is about keeps its content. */
  lemma {:induction false} UntouchedStays(p: Program, relocs: seq<Relocation>, funOffset: int, varOffset: int, names: Names, at: Place)
    requires RelocateAll(p, relocs, funOffset, varOffset, names).1 && IsPlace(p, at) && !Touched(p, relocs, at)
    ensures var p' := RelocateAll(p, relocs, funOffset, varOffset, names).0; IsPlace(p', at) && Get(p', at) == Get(p, at)
    decreases |relocs|
  {
    if relocs != [] {
      hide PlaceOf, NewRaw, SameShape;
      var p1 := RelocateOne(p, relocs[0], funOffset, varOffset, names).value;
      RelocateOneKeeps(p, relocs[0], funOffset, varOffset, names, at);
      assert PlaceOf(p, relocs[0]) != Some(at);
      forall k | 0 <= k < |relocs| - 1 ensures PlaceOf(p1, relocs[1..][k]) != Some(at) {
        PlacesSame(p, p1, relocs[k + 1]);
      }
      UntouchedStays(p1, relocs[1..], funOffset, varOffset, names, at);
    }
  }

  lemma DistinctRest(p: Program, p1: Program, relocs: seq<Relocation>)
    requires Distinct(p, relocs) && SameShape(p, p1) && relocs != []
    ensures Distinct(p1, relocs[1..])
    ensures PlaceOf(p, relocs[0]).Some? ==> !Touched(p1, relocs[1..], PlaceOf(p, relocs[0]).value)
  {
    hide PlaceOf, SameShape;
    forall k | 0 <= k < |relocs| - 1 ensures PlaceOf(p1, relocs[1..][k]) == PlaceOf(p, relocs[k + 1]) {
      PlacesSame(p, p1, relocs[k + 1]);
    }
  }

  /** The place of a relocation holds what the relocation says of the content it had before all of
      them. */
  lemma {:induction false} RelocatedAt(p: Program, relocs: seq<Relocation>, funOffset: int, varOffset: int, names: Names, k: nat)
    requires Distinct(p, relocs) && RelocateAll(p, relocs, funOffset, varOffset, names).1 && k < |relocs|
    ensures PlaceOf(p, relocs[k]).Some?
    ensures var at, p' := PlaceOf(p, relocs[k]).value, RelocateAll(p, relocs, funOffset, varOffset, names).0;
            IsPlace(p', at) && NewRaw(p, relocs[k], at, funOffset, varOffset, names) == Some(Get(p', at))
    decreases |relocs|
  {
    hide PlaceOf, NewRaw, SameShape;
    var p1 := RelocateOne(p, relocs[0], funOffset, varOffset, names).value;
    var at0 := PlaceOf(p, relocs[0]).value;
    RelocateOneKeeps(p, relocs[0], funOffset, varOffset, names, at0);
    DistinctRest(p, p1, relocs);
    if k == 0 {
      UntouchedStays(p1, relocs[1..], funOffset, varOffset, names, at0);
    } else {
      RelocatedAt(p1, relocs[1..], funOffset, varOffset, names, k - 1);
      assert relocs[1..][k - 1] == relocs[k];
      PlacesSame(p, p1, relocs[k]);
      var at := PlaceOf(p, relocs[k]).value;
      assert PlaceOf(p, relocs[0]) != PlaceOf(p, relocs[k]);
      RelocateOneKeeps(p, relocs[0], funOffset, varOffset, names, at);
      NewRawSame(p, p1, relocs[k], at, funOffset, varOffset, names);
    }
  }

  // ------------------------------------------------------------------ relocating again

  lemma ModSmall(a: int, m: int)
    requires 0 <= m < TWO64 && exists q :: a == q * TWO64 + m
    ensures a % TWO64 == m
  {
  }

  /** A signed 32-bit place that was moved to an index of 2^31 or more is read back as a negative
      number, so that it cannot be moved again wherever it could be moved directly; every other
      place moves again to where it would have moved directly. */
  lemma MovedTwice(w: Width, index: int, o0: int, o1: int, o2: int)
    requires Moved(index, o0, o1).Some?
    ensures var m1 := Moved(index, o0, o1).value;
            ReadIndex(w, m1).Some?
            && (w.Signed32? && m1 >= TWO31 ==> Moved(index, o0, o2).Some? ==> Moved(ReadIndex(w, m1).value, o1, o2).None?)
            && (!(w.Signed32? && m1 >= TWO31) ==> Moved(ReadIndex(w, m1).value, o1, o2) == Moved(index, o0, o2))
  {
    var m1, direct := Moved(index, o0, o1).value, (index - o0 + o2) % TWO64;
    var q1 := (index - o0 + o1) / TWO64;
    assert index - o0 + o1 == q1 * TWO64 + m1;
    var q := (index - o0 + o2) / TWO64;
    assert m1 - o1 + o2 == (q - q1) * TWO64 + direct;
    ModSmall(m1 - o1 + o2, direct);
    if w.Signed32? && m1 >= TWO31 && direct < TWO32 {
      assert m1 + TWO64 - TWO32 - o1 + o2 == (q - q1) * TWO64 + (direct + TWO64 - TWO32);
      ModSmall(m1 + TWO64 - TWO32 - o1 + o2, direct + TWO64 - TWO32);
    }
  }

  lemma NewRawTwice(p: Program, p1: Program, r: Relocation, at: Place, f1: int, v1: int, f2: int, v2: int, names: Names)
    requires SameShape(p, p1) && p1.funOffset == f1 && p1.varOffset == v1
    requires PlaceOf(p, r) == Some(at) && IsPlace(p1, at) && NewRaw(p, r, at, f1, v1, names) == Some(Get(p1, at))
    requires NewRaw(p1, r, at, f2, v2, names).Some? && NewRaw(p, r, at, f2, v2, names).Some?
    ensures NewRaw(p1, r, at, f2, v2, names) == NewRaw(p, r, at, f2, v2, names)
  {
    PlacesSame(p, p1, r);
    hide PlaceOf, WidthOf;
    var w := WidthOf(p, r.kind, at);
    if !IsNative(r.kind) && !r.symbolic {
      hide Moved;
      var index := ReadIndex(w, Get(p, at)).value;
      if IsVar(r.kind) {
        MovedTwice(w, index, p.varOffset, v1, v2);
      } else {
        MovedTwice(w, index, p.funOffset, f1, f2);
      }
    }
  }

  lemma RelocatedParts(p: Program, funOffset: int, varOffset: int, names: Names)
    requires Relocated(p, funOffset, varOffset, names).1
    ensures RelocateAll(p, p.relocs, funOffset, varOffset, names).1
    ensures var q, p' := RelocateAll(p, p.relocs, funOffset, varOffset, names).0, Relocated(p, funOffset, varOffset, names).0;
            && SameShape(p, p') && SameShape(p, q) && p' == q.(entry := p'.entry, funOffset := funOffset, varOffset := varOffset)
            && p'.entry == (if p.library then p.entry else (p.entry - p.funOffset + funOffset) % TWO64)
            && OnlyPlacesDiffer(p, q)
  {
    RelocateAllShape(p, p.relocs, funOffset, varOffset, names);
  }

  /** What a place holds after relocation, and after relocating again. */
  lemma PlaceComposes(p: Program, f1: int, v1: int, f2: int, v2: int, names: Names, at: Place)
    requires Distinct(p, p.relocs) && Relocated(p, f1, v1, names).1 && Relocated(p, f2, v2, names).1
    requires var p1 := Relocated(p, f1, v1, names).0; p1.relocs == p.relocs && Relocated(p1, f2, v2, names).1
    requires IsPlace(p, at)
    ensures var p12, p2 := Relocated(Relocated(p, f1, v1, names).0, f2, v2, names).0, Relocated(p, f2, v2, names).0;
            IsPlace(p12, at) && IsPlace(p2, at) && Get(p12, at) == Get(p2, at)
  {
    hide PlaceOf, NewRaw, SameShape, Relocated;
    var p1 := Relocated(p, f1, v1, names).0;
    RelocatedParts(p, f1, v1, names);
    RelocatedParts(p1, f2, v2, names);
    RelocatedParts(p, f2, v2, names);
    assert Distinct(p1, p.relocs) by { SameDistinct(p, p1, p.relocs); }
    if k :| 0 <= k < |p.relocs| && PlaceOf(p, p.relocs[k]) == Some(at) {
      PlacesSame(p, p1, p.relocs[k]);
      RelocatedAt(p, p.relocs, f1, v1, names, k);
      RelocatedAt(p1, p.relocs, f2, v2, names, k);
      RelocatedAt(p, p.relocs, f2, v2, names, k);
      NewRawTwice(p, p1, p.relocs[k], at, f1, v1, f2, v2, names);
    } else {
      UntouchedStays(p, p.relocs, f1, v1, names, at);
      UntouchedSame(p, p1, p.relocs, at);
      UntouchedStays(p1, p.relocs, f2, v2, names, at);
      UntouchedStays(p, p.relocs, f2, v2, names, at);
    }
  }

  lemma SameDistinct(p: Program, p1: Program, relocs: seq<Relocation>)
    requires Distinct(p, relocs) && SameShape(p, p1)
    ensures Distinct(p1, relocs)
  {
    hide PlaceOf, SameShape;
    forall k | 0 <= k < |relocs| ensures PlaceOf(p1, relocs[k]) == PlaceOf(p, relocs[k]) {
      PlacesSame(p, p1, relocs[k]);
    }
  }

  lemma UntouchedSame(p: Program, p1: Program, relocs: seq<Relocation>, at: Place)
    requires !Touched(p, relocs, at) && SameShape(p, p1)
    ensures !Touched(p1, relocs, at)
  {
    hide PlaceOf, SameShape;
    forall k | 0 <= k < |relocs| ensures PlaceOf(p1, relocs[k]) != Some(at) {
      PlacesSame(p, p1, relocs[k]);
    }
  }

  lemma RelocatedEntry(p: Program, funOffset: int, varOffset: int, names: Names)
    requires Relocated(p, funOffset, varOffset, names).1
    ensures var p' := Relocated(p, funOffset, varOffset, names).0;
            && p'.library == p.library
            && p'.entry == if p.library then p.entry else (p.entry - p.funOffset + funOffset) % TWO64
  {
    hide Relocated, RelocateAll, OnlyPlacesDiffer;
    RelocatedParts(p, funOffset, varOffset, names);
  }

  lemma EntryComposes(entry: int, o0: int, o1: int, o2: int)
    ensures ((entry - o0 + o1) % TWO64 - o1 + o2) % TWO64 == (entry - o0 + o2) % TWO64
  {
    var q1, q := (entry - o0 + o1) / TWO64, (entry - o0 + o2) / TWO64;
    assert (entry - o0 + o1) % TWO64 == entry - o0 + o1 - q1 * TWO64;
    assert (entry - o0 + o1) % TWO64 - o1 + o2 == (q - q1) * TWO64 + (entry - o0 + o2) % TWO64;
    ModSmall((entry - o0 + o1) % TWO64 - o1 + o2, (entry - o0 + o2) % TWO64);
  }

  /** Two relocations and one agree on everything but the places. */
  lemma RestComposes(p: Program, f1: int, v1: int, f2: int, v2: int, names: Names)
    requires Relocated(p, f1, v1, names).1 && Relocated(p, f2, v2, names).1
    requires Relocated(Relocated(p, f1, v1, names).0, f2, v2, names).1
    ensures var p12, p2 := Relocated(Relocated(p, f1, v1, names).0, f2, v2, names).0, Relocated(p, f2, v2, names).0;
            SameShape(p12, p2) && OnlyPlacesDiffer(p12, p2) && SameShape(p, p12)
  {
    hide Relocated, RelocateAll;
    var p1 := Relocated(p, f1, v1, names).0;
    RelocatedParts(p, f1, v1, names);
    RelocatedParts(p1, f2, v2, names);
    RelocatedParts(p, f2, v2, names);
    EntryComposes(p.entry, p.funOffset, f1, f2);
  }

  lemma PlaceByShape(p: Program, p': Program, at: Place)
    requires SameShape(p, p')
    ensures IsPlace(p, at) <==> IsPlace(p', at)
  {
  }

  /** Relocating to one pair of offsets and then to another is relocating to the other, whenever all
      of it succeeds. */
  lemma RelocationComposes(p: Program, f1: int, v1: int, f2: int, v2: int, names: Names)
    requires Distinct(p, p.relocs) && Relocated(p, f1, v1, names).1 && Relocated(p, f2, v2, names).1
    requires Relocated(Relocated(p, f1, v1, names).0, f2, v2, names).1
    ensures Relocated(Relocated(p, f1, v1, names).0, f2, v2, names) == Relocated(p, f2, v2, names)
  {
    hide *;
    var p12, p2 := Relocated(Relocated(p, f1, v1, names).0, f2, v2, names).0, Relocated(p, f2, v2, names).0;
    RestComposes(p, f1, v1, f2, v2, names);
    RelocsKept(p, f1, v1, names);
    forall at | IsPlace(p12, at) ensures IsPlace(p2, at) && Get(p2, at) == Get(p12, at) {
      PlaceByShape(p, p12, at);
      PlaceComposes(p, f1, v1, f2, v2, names, at);
    }
    EqualByPlaces(p12, p2);
  }

  lemma RelocsKept(p: Program, funOffset: int, varOffset: int, names: Names)
    requires Relocated(p, funOffset, varOffset, names).1
    ensures Relocated(p, funOffset, varOffset, names).0.relocs == p.relocs
  {
    hide Relocated, RelocateAll;
    RelocatedParts(p, funOffset, varOffset, names);
  }
}
