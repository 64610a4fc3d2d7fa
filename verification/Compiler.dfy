/** The compiler from the parse tree to the image (`generate_prog` in comp/impl_comp.cpp). Functions
    and variables are kept in hash tables there: the orders in which these are walked are parameters,
    and so are the operations with their codes. References by name are gathered in the order in which
    their relocations are added. */
module Compiler {
  import opened Options
  import opened Bytes
  import opened ParseTrees
  import opened DefinitionTable
  import opened CodeGeneration
  import opened ObjectGraphLayout
  import opened SymbolTable
  import Labels
  import F = ImageFormat
  import ImageWriter

  datatype Source = Source(defs: seq<Definition>, ops: map<string, OperationDescription>, isRelocatable: bool,
                           funOrder: seq<nat>, varOrder: seq<nat>)

  function Bodies(funs: seq<Definition>): (bodies: seq<Function>)
    requires forall d :: d in funs ==> d.FunctionDefinition?
    ensures |bodies| == |funs|
  {
    seq(|funs|, i requires 0 <= i < |funs| => funs[i].fun)
  }

  function Values(vars: seq<Definition>): (values: seq<Value>)
    requires forall d :: d in vars ==> d.VariableDefinition?
    ensures |values| == |vars|
  {
    seq(|vars|, i requires 0 <= i < |vars| => vars[i].value)
  }

  // ------------------------------------------------------------------ objects

  function VarAt(values: seq<Value>, order: seq<nat>, k: nat): Value
    requires IsOrder(order, |values|) && k < |values|
  {
    values[order[k]]
  }

  /** The objects of the first variables. */
  function ListedVars(values: seq<Value>, order: seq<nat>, n: nat): seq<Object>
    requires IsOrder(order, |values|) && n <= |values|
  {
    if n == 0 then []
    else
      var v := VarAt(values, order, n - 1);
      ListedVars(values, order, n - 1) + if v.RefValue? then Listed(v.object_) else []
  }

  ghost predicate VarsWellTyped(values: seq<Value>, order: seq<nat>, n: nat)
    requires IsOrder(order, |values|) && n <= |values|
  {
    forall k :: 0 <= k < n && VarAt(values, order, k).RefValue? ==> WellTyped(VarAt(values, order, k).object_)
  }

  method ListObjects(values: seq<Value>, order: seq<nat>) returns (ok: bool, list: seq<Object>)
    requires IsOrder(order, |values|)
    ensures ok <==> VarsWellTyped(values, order, |values|)
    ensures ok ==> list == ListedVars(values, order, |values|)
  {
    hide WellTyped, Listed;
    list := [];
    var k := 0;
    while k < |values|
      invariant k <= |values| && list == ListedVars(values, order, k) && VarsWellTyped(values, order, k)
    {
      var v := values[order[k]];
      assert v == VarAt(values, order, k);
      if v.RefValue? {
        var added;
        added, list := AddObjects(list, v.object_);
        if !added { return false, list; }
      }
      k := k + 1;
    }
    return true, list;
  }

  /** What the first elements of an object at some address refer to. */
  function ObjectRefs(o: Object, at: nat, n: nat): seq<Reference>
    requires n <= |o.elems|
  {
    if n == 0 then []
    else
      var e, addr := o.elems[n - 1], (at + 8 + (n - 1) * F.ElemSize(o.type_)) % TWO32;
      ObjectRefs(o, at, n - 1)
      + if e.FunIndex? then [Reference(RELOC_ELEM_FUN, addr, e.fun)]
        else if e.NativeFunIndex? then [Reference(RELOC_ELEM_NATIVE_FUN, addr, e.fun)]
        else []
  }

  function DataRefs(list: seq<Object>, n: nat): seq<Reference>
    requires n <= |list|
  {
    if n == 0 then [] else DataRefs(list, n - 1) + ObjectRefs(list[n - 1], AddressOf(list, n - 1), |list[n - 1].elems|)
  }

  method GatherDataRefs(list: seq<Object>) returns (refs: seq<Reference>)
    ensures refs == DataRefs(list, |list|)
  {
    refs := [];
    var at, k := 0, 0;
    while k < |list|
      invariant k <= |list| && at == AddressOf(list, k) && refs == DataRefs(list, k)
    {
      refs := refs + ObjectRefs(list[k], at, |list[k].elems|);
      at := at + Align(Size(list[k]));
      k := k + 1;
    }
  }

  // ------------------------------------------------------------------ variables

  function VarRecord(env: Environment, v: Value, addrs: map<nat, nat>): F.Value
    requires InRange(env, TUPLE, v)
  {
    F.Value(TypeOf(v), ValueBits(env, v, addrs))
  }

  /** What the first variables refer to. */
  function VarRefs(values: seq<Value>, order: seq<nat>, n: nat): seq<Reference>
    requires IsOrder(order, |values|) && n <= |values|
  {
    if n == 0 then []
    else
      var v, addr := VarAt(values, order, n - 1), order[n - 1] % TWO32;
      VarRefs(values, order, n - 1)
      + if v.FunIndex? then [Reference(RELOC_VAR_FUN, addr, v.fun)]
        else if v.NativeFunIndex? then [Reference(RELOC_VAR_NATIVE_FUN, addr, v.fun)]
        else []
  }

  ghost predicate VarsInRange(env: Environment, values: seq<Value>, order: seq<nat>, n: nat)
    requires IsOrder(order, |values|) && n <= |values|
  {
    forall k :: 0 <= k < n ==> InRange(env, TUPLE, VarAt(values, order, k))
  }

  ghost predicate VarsGenerated(env: Environment, values: seq<Value>, order: seq<nat>, addrs: map<nat, nat>, n: nat, vars: seq<F.Value>)
    requires IsOrder(order, |values|) && n <= |values|
  {
    && |vars| == |values|
    && forall k :: 0 <= k < n ==>
         InRange(env, TUPLE, VarAt(values, order, k)) && vars[order[k]] == VarRecord(env, VarAt(values, order, k), addrs)
  }

  method GenerateVars(env: Environment, values: seq<Value>, order: seq<nat>, addrs: map<nat, nat>)
    returns (ok: bool, vars: seq<F.Value>, refs: seq<Reference>)
    requires IsOrder(order, |values|)
    ensures ok <==> VarsInRange(env, values, order, |values|)
    ensures ok ==> VarsGenerated(env, values, order, addrs, |values|, vars)
    ensures refs == VarRefs(values, order, |values|)
  {
    hide InRange, ValueBits;
    ok, vars, refs := true, seq(|values|, _ => F.Value(0, 0)), [];
    var k := 0;
    while k < |values|
      invariant k <= |values| == |vars| && refs == VarRefs(values, order, k)
      invariant ok <==> VarsInRange(env, values, order, k)
      invariant ok ==> VarsGenerated(env, values, order, addrs, k, vars)
    {
      var v := values[order[k]];
      assert v == VarAt(values, order, k);
      if InRange(env, TUPLE, v) {
        vars := vars[order[k] := VarRecord(env, v, addrs)];
      } else {
        ok := false;
      }
      if v.FunIndex? { refs := refs + [Reference(RELOC_VAR_FUN, order[k] % TWO32, v.fun)]; }
      if v.NativeFunIndex? { refs := refs + [Reference(RELOC_VAR_NATIVE_FUN, order[k] % TWO32, v.fun)]; }
      k := k + 1;
    }
  }

  // ------------------------------------------------------------------ the program

  function Functions(src: Source): seq<Function> { Bodies(Funs(src.defs)) }
  function Variables(src: Source): seq<Value> { Values(Vars(src.defs)) }

  function EnvironmentOf(src: Source): Environment {
    Environment(src.ops, src.isRelocatable, Indexes(Funs(src.defs)), Indexes(Vars(src.defs)))
  }

  function DefinedNames(env: Environment): Definitions {
    Definitions(env.funs.Keys, env.vars.Keys)
  }

  /** The orders are ones in which tables of these sizes can be walked. */
  predicate Walks(src: Source) {
    IsOrder(src.funOrder, |Functions(src)|) && IsOrder(src.varOrder, |Variables(src)|)
  }

  function ObjectsOf(src: Source): seq<Object>
    requires Walks(src)
  {
    ListedVars(Variables(src), src.varOrder, |Variables(src)|)
  }

  function CodeSize(src: Source): nat
    requires Walks(src)
  {
    CodeAddr(Functions(src), src.funOrder, |Functions(src)|)
  }

  function DataSize(src: Source): nat
    requires Walks(src)
  {
    AddressOf(ObjectsOf(src), |ObjectsOf(src)|)
  }

  /** All references, in the order of their relocations. */
  function AllRefs(src: Source): seq<Reference>
    requires Walks(src)
  {
    CodeRefs(Functions(src), src.funOrder, |Functions(src)|) + DataRefs(ObjectsOf(src), |ObjectsOf(src)|)
    + VarRefs(Variables(src), src.varOrder, |Variables(src)|)
  }

  function Symbols(src: Source): seq<Symbol>
    requires Walks(src)
  {
    PublicSymbols(src.defs, src.isRelocatable) + Externals(DefinedNames(EnvironmentOf(src)), AllRefs(src))
  }

  const LIBRARY: U32 := 1
  const RELOCATABLE: U32 := 2
  const NATIVE_FUN_SYMBOLS: U32 := 4
  const FUN_INFOS: U32 := 8

  function FlagsOf(hasEntry: bool, isRelocatable: bool): U32 {
    (if hasEntry then 0 else LIBRARY) + (if isRelocatable then RELOCATABLE + NATIVE_FUN_SYMBOLS else 0) + FUN_INFOS
  }

  function KindCode(kind: Kind): Byte {
    match kind
    case FunName => 0
    case VarName => 1
    case NativeName => 2
  }

  const SYMBOL_DEFINED: Byte := 16

  function WrittenSymbol(s: Symbol): F.Symbol {
    F.Symbol(s.index % TWO32, if s.defined then KindCode(s.kind) + SYMBOL_DEFINED else KindCode(s.kind), s.name)
  }

  function WrittenSymbols(symbols: seq<Symbol>): (written: seq<F.Symbol>)
    ensures |written| == |symbols|
  {
    seq(|symbols|, j requires 0 <= j < |symbols| => WrittenSymbol(symbols[j]))
  }

  /** What every source must meet for there to be a program. */
  ghost predicate Compilable(src: Source)
    requires Walks(src)
  {
    var env := EnvironmentOf(src);
    && Collectable(src.defs)
    && VarsWellTyped(Variables(src), src.varOrder, |Variables(src)|)
    && (forall name :: name in Entries(src.defs) ==> name in env.funs)
    && FunsOk(env, Functions(src), src.funOrder, |Functions(src)|)
    && AllInRange(env, ObjectsOf(src), |ObjectsOf(src)|)
    && VarsInRange(env, Variables(src), src.varOrder, |Variables(src)|)
  }

  /** The counts are numbers of 32 bits. */
  predicate SizesFit(src: Source)
    requires Walks(src)
  {
    && |Functions(src)| < TWO32 && |Variables(src)| < TWO32 && CodeSize(src) < TWO32 && DataSize(src) < TWO32
    && |src.defs| + |AllRefs(src)| < TWO32
  }

  /** The relocations and the symbols of a relocatable program; another one has none. */
  ghost predicate SymbolsCompiled(src: Source, relocs: seq<F.Relocation>, symbols: seq<F.Symbol>)
    requires Walks(src)
  {
    if src.isRelocatable then
      && AllRelocate(DefinedNames(EnvironmentOf(src)), Symbols(src), AllRefs(src), relocs)
      && symbols == WrittenSymbols(Symbols(src))
    else relocs == [] && symbols == []
  }

  ghost predicate EntryCompiled(src: Source, flags: U32, entry: U32) {
    var entries, env := Entries(src.defs), EnvironmentOf(src);
    && flags == FlagsOf(entries != [], src.isRelocatable)
    && (if entries == [] then entry == 0 else entries[0] in env.funs && entry == env.funs[entries[0]] % TWO32)
  }

  /** The image of a source. */
  ghost predicate Compiled(src: Source, p: F.Image)
    requires Walks(src)
  {
    var env := EnvironmentOf(src);
    && EntryCompiled(src, p.flags, p.entry)
    && Generated(env, Functions(src), src.funOrder, |Functions(src)|, p.code, p.funs)
    && |p.objects| == |ObjectsOf(src)| && LaidOut(env, ObjectsOf(src), p.objects, AddrsOf(ObjectsOf(src), |ObjectsOf(src)|))
    && VarsGenerated(env, Variables(src), src.varOrder, AddrsOf(ObjectsOf(src), |ObjectsOf(src)|), |Variables(src)|, p.vars)
    && SymbolsCompiled(src, p.relocs, p.symbols)
    && p.infos == Infos(src.defs)
  }

  // ------------------------------------------------------------------ generating it

  /** All objects of a tree fit their types. */
  lemma {:induction false} ListedWellTyped(o: Object)
    requires WellTyped(o)
    ensures forall x :: x in Listed(o) ==> WellTyped(x)
    decreases o, |o.elems| + 1
  {
    ListedFromWellTyped(o, 0);
  }

  lemma {:induction false} ListedFromWellTyped(o: Object, j: nat)
    requires WellTyped(o) && j <= |o.elems|
    ensures forall x :: x in ListedFrom(o, j) ==> WellTyped(x)
    decreases o, |o.elems| - j
  {
    if j < |o.elems| {
      ListedFromWellTyped(o, j + 1);
      assert o.elems[j] in o.elems;
      if o.elems[j].RefValue? { ListedWellTyped(o.elems[j].object_); }
    }
  }

  lemma {:induction false} ListedVarsWellTyped(values: seq<Value>, order: seq<nat>, n: nat)
    requires IsOrder(order, |values|) && n <= |values| && VarsWellTyped(values, order, n)
    ensures RefersBack(ListedVars(values, order, n))
    ensures forall o :: o in ListedVars(values, order, n) ==> WellTyped(o)
    decreases n
  {
    hide WellTyped, Listed, RefersBack, IsOrder, VarAt;
    if n > 0 {
      ListedVarsWellTyped(values, order, n - 1);
      var v, before := VarAt(values, order, n - 1), ListedVars(values, order, n - 1);
      if v.RefValue? {
        ListedWellTyped(v.object_);
        ListedRefersBack(v.object_);
        AppendRefersBack(before, Listed(v.object_));
      } else {
        assert before + [] == before;
      }
    } else {
      NothingRefersBack();
    }
  }

  lemma NothingRefersBack()
    ensures RefersBack([])
  {
  }

  /** The object of a variable is listed. */
  lemma {:induction false} VarIsListed(values: seq<Value>, order: seq<nat>, n: nat, k: nat) returns (at: nat)
    requires IsOrder(order, |values|) && k < n <= |values| && VarAt(values, order, k).RefValue?
    ensures at < |ListedVars(values, order, n)| && ListedVars(values, order, n)[at] == VarAt(values, order, k).object_
    decreases n
  {
    if k < n - 1 {
      at := VarIsListed(values, order, n - 1, k);
    } else {
      at := |ListedVars(values, order, n)| - 1;
    }
  }

  lemma {:induction false} PublicsAreDefined(defs: seq<Definition>, isRelocatable: bool)
    ensures |PublicSymbols(defs, isRelocatable)| <= |defs|
    ensures forall s :: s in PublicSymbols(defs, isRelocatable) ==> s.defined
    decreases |defs|
  {
    if defs != [] { PublicsAreDefined(defs[..|defs| - 1], isRelocatable); }
  }

  method GenerateSymbols(src: Source, env: Environment, publics: seq<Symbol>, refs: seq<Reference>)
    returns (relocs: seq<F.Relocation>, symbols: seq<F.Symbol>)
    requires Walks(src) && SizesFit(src)
    requires env == EnvironmentOf(src) && publics == PublicSymbols(src.defs, src.isRelocatable) && refs == AllRefs(src)
    ensures SymbolsCompiled(src, relocs, symbols)
  {
    hide AllRefs, CodeSize, DataSize, Walks, AllRelocate, Externals;
    if !src.isRelocatable { return [], []; }
    PublicsAreDefined(src.defs, true);
    var table;
    table, relocs := AddRelocs(DefinedNames(env), publics, refs);
    symbols := WrittenSymbols(table);
  }

  method GenerateEntry(src: Source, env: Environment, entry: Option<Name>) returns (ok: bool, flags: U32, index: U32)
    requires env == EnvironmentOf(src) && Entries(src.defs) == if entry.Some? then [entry.value] else []
    ensures ok <==> forall name :: name in Entries(src.defs) ==> name in env.funs
    ensures ok ==> EntryCompiled(src, flags, index)
  {
    hide Entries, Indexes;
    flags := FlagsOf(entry.Some?, src.isRelocatable);
    if entry.None? { return true, flags, 0; }
    assert entry.value in Entries(src.defs);
    if entry.value !in env.funs { return false, flags, 0; }
    return true, flags, env.funs[entry.value] % TWO32;
  }

  /** The image, or nothing for a source that does not meet what it must. Objects of the parse tree
      are different objects. */
  method GenerateProg(src: Source) returns (p: Option<F.Image>)
    requires Walks(src) && SizesFit(src) && DistinctIds(ObjectsOf(src))
    ensures p.Some? <==> Compilable(src)
    ensures p.Some? ==> Compiled(src, p.value)
  {
    var collected, c := CollectDefinitions(src.defs, src.isRelocatable);
    if !collected { return None; }
    var env := Environment(src.ops, src.isRelocatable, c.funIndexes, c.varIndexes);
    var values := Values(c.vars);
    assert env == EnvironmentOf(src) && values == Variables(src) && Bodies(c.funs) == Functions(src);
    hide EnvironmentOf, Collectable, VarsWellTyped, FunsOk, AllInRange, VarsInRange, EntryCompiled, Generated, LaidOut, VarsGenerated,
         SymbolsCompiled, Funs, Vars, Indexes, PublicSymbols, Infos, SizesFit, WellTyped, RefersBack, DistinctIds, ListedVars,
         IsOrder, Functions, Variables, CodeRefs, DataRefs, VarRefs, Values, Bodies;
    var listed, list := ListObjects(values, src.varOrder);
    if !listed { return None; }
    ListedVarsWellTyped(values, src.varOrder, |values|);
    WellTypedTypes(list);
    var known, flags, entry := GenerateEntry(src, env, c.entry);
    if !known { return None; }
    var generated, code, funs, codeRefs := GenerateFunctions(env, Bodies(c.funs), src.funOrder);
    var laidOut, addrs, objects := LayOut(env, list);
    var dataRefs := GatherDataRefs(list);
    var inRange, vars, varRefs := GenerateVars(env, values, src.varOrder, addrs);
    var relocs, symbols := GenerateSymbols(src, env, c.publics, codeRefs + dataRefs + varRefs);
    if !generated || !laidOut || !inRange { return None; }
    return Some(F.Image(flags, entry, funs, vars, code, objects, relocs, symbols, c.infos));
  }

  lemma WellTypedTypes(list: seq<Object>)
    requires forall o :: o in list ==> WellTyped(o)
    ensures forall o :: o in list ==> o.type_ <= TUPLE
  {
  }
}
