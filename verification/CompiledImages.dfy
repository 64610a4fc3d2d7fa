/** The images that the compiler makes: what the loader tests of them, and when it accepts them. */
module CompiledImages {
  import opened Options
  import opened Bytes
  import opened ParseTrees
  import opened Labels
  import opened DefinitionTable
  import opened CodeGeneration
  import opened ObjectGraphLayout
  import opened SymbolTable
  import opened Compiler
  import F = ImageFormat
  import ImageReading
  import R = ImageRoundTrip

  // ------------------------------------------------------------------ functions

  /** The function that comes last has an instruction, if there is any function. */
  predicate LastHasCode(src: Source)
    requires Walks(src)
  {
    EndsWithCode(Functions(src), src.funOrder)
  }

  predicate EndsWithCode(funs: seq<Function>, order: seq<nat>)
    requires IsOrder(order, |funs|)
  {
    |funs| > 0 ==> var lines := FunAt(funs, order, |funs| - 1).lines; InstrCount(lines, |lines|) > 0
  }

  lemma {:induction false} GeneratedAt(env: Environment, funs: seq<Function>, order: seq<nat>, code: seq<F.Instruction>,
                                       records: seq<F.Function>, k: nat)
    requires IsOrder(order, |funs|) && Generated(env, funs, order, |funs|, code, records) && k < |funs|
    ensures |order| == |funs| == |records| && order[k] < |funs| && records[order[k]] == RecordOf(funs, order, k)
    ensures CodeAt(env, funs, order, k, code) && |code| == CodeAddr(funs, order, |funs|)
  {
    hide CodeAt, RecordOf, CodeAddr, FunAt;
  }

  /** Where the function that comes k-th lies. */
  lemma {:induction false} RecordFields(funs: seq<Function>, order: seq<nat>, k: nat)
    requires IsOrder(order, |funs|) && k < |funs| && CodeAddr(funs, order, |funs|) < TWO32
    ensures var r := RecordOf(funs, order, k);
            && r.addr == CodeAddr(funs, order, k) && r.argCount == FunAt(funs, order, k).argCount
            && r.addr + r.instrCount == CodeAddr(funs, order, k + 1) <= CodeAddr(funs, order, |funs|)
  {
    hide InstrCount, IsOrder, FunAt;
    AddrsGrow(funs, order, k, k + 1);
    AddrsGrow(funs, order, k + 1, |funs|);
    NextAddr(funs, order, k);
  }

  lemma {:induction false} NextAddr(funs: seq<Function>, order: seq<nat>, k: nat)
    requires IsOrder(order, |funs|) && k < |funs|
    ensures var lines := FunAt(funs, order, k).lines; CodeAddr(funs, order, k + 1) == CodeAddr(funs, order, k) + InstrCount(lines, |lines|)
  {
  }

  lemma {:induction false} FunctionIsOk(env: Environment, funs: seq<Function>, order: seq<nat>, code: seq<F.Instruction>,
                                        records: seq<F.Function>, i: nat)
    requires IsOrder(order, |funs|) && Generated(env, funs, order, |funs|, code, records) && i < |funs|
    requires CodeAddr(funs, order, |funs| - 1) < CodeAddr(funs, order, |funs|) < TWO32
    ensures |records| == |funs| && ImageReading.FunctionOk(records[i], |code|)
  {
    hide *;
    var k := PlaceOf(order, |funs|, i);
    GeneratedAt(env, funs, order, code, records, k);
    RecordFields(funs, order, k);
    AddrsGrow(funs, order, k, |funs| - 1);
    LiesInside(records[i], |code|);
  }

  lemma {:induction false} LiesInside(f: F.Function, codeSize: nat)
    requires f.addr < codeSize < TWO32 && f.addr + f.instrCount <= codeSize
    ensures ImageReading.FunctionOk(f, codeSize)
  {
  }

  lemma {:induction false} LastFunctionIsNot(env: Environment, funs: seq<Function>, order: seq<nat>, code: seq<F.Instruction>,
                                             records: seq<F.Function>)
    returns (f: F.Function)
    requires IsOrder(order, |funs|) && Generated(env, funs, order, |funs|, code, records) && |funs| > 0
    requires CodeAddr(funs, order, |funs| - 1) == CodeAddr(funs, order, |funs|) < TWO32
    ensures f in records && !ImageReading.FunctionOk(f, |code|)
  {
    hide *;
    GeneratedAt(env, funs, order, code, records, |funs| - 1);
    f := records[order[|funs| - 1]];
    RecordFields(funs, order, |funs| - 1);
    StartsAtEnd(f, |code|);
  }

  lemma {:induction false} StartsAtEnd(f: F.Function, codeSize: nat)
    requires f.addr >= codeSize
    ensures !ImageReading.FunctionOk(f, codeSize)
  {
  }

  lemma {:induction false} FunctionsAreOk(env: Environment, funs: seq<Function>, order: seq<nat>, code: seq<F.Instruction>,
                                          records: seq<F.Function>)
    requires IsOrder(order, |funs|) && Generated(env, funs, order, |funs|, code, records) && CodeAddr(funs, order, |funs|) < TWO32
    ensures (forall f :: f in records ==> ImageReading.FunctionOk(f, |code|)) <==> EndsWithCode(funs, order)
  {
    assert |records| == |funs|;
    hide Generated, CodeAddr, IsOrder, InstrCount, FunAt, ImageReading.FunctionOk;
    if |funs| > 0 {
      NextAddr(funs, order, |funs| - 1);
      if EndsWithCode(funs, order) {
        forall f | f in records ensures ImageReading.FunctionOk(f, |code|) {
          var i :| 0 <= i < |records| && records[i] == f;
          FunctionIsOk(env, funs, order, code, records, i);
        }
      } else {
        var f := LastFunctionIsNot(env, funs, order, code, records);
      }
    }
  }

  /** The loader's test of functions is met exactly if the function that comes last has code. */
  lemma {:induction false} FunctionsOkExactly(src: Source, p: F.Image)
    requires Walks(src) && Compiled(src, p) && CodeSize(src) < TWO32
    ensures (forall f :: f in p.funs ==> ImageReading.FunctionOk(f, |p.code|)) <==> LastHasCode(src)
  {
    FunctionsAreOk(EnvironmentOf(src), Functions(src), src.funOrder, p.code, p.funs);
  }

  lemma {:induction false} GeneratedPart(src: Source, p: F.Image)
    requires Walks(src) && Compiled(src, p)
    ensures Generated(EnvironmentOf(src), Functions(src), src.funOrder, |Functions(src)|, p.code, p.funs)
    ensures |p.funs| == |Functions(src)| && |p.code| == CodeAddr(Functions(src), src.funOrder, |Functions(src)|)
  {
  }

  // ------------------------------------------------------------------ objects

  lemma {:induction false} HeldSize(env: Environment, i: F.Object, o: Object, addrs: map<nat, nat>)
    requires Holds(env, i, o, addrs)
    ensures F.ObjectSize(i) == Size(o)
  {
  }

  lemma {:induction false} HeldIsValid(env: Environment, i: F.Object, o: Object, addrs: map<nat, nat>)
    requires Holds(env, i, o, addrs) && WellTyped(o) && Size(o) < TWO32
    ensures F.ValidObject(i)
  {
    hide InRange;
    forall t | t in i.types ensures t <= 2 {
      var j :| 0 <= j < |i.types| && i.types[j] == t;
    }
    forall e | e in i.elems
      ensures F.ElemSize(o.type_) == 1 ==> e < 256
      ensures F.ElemSize(o.type_) == 2 ==> e < TWO16
      ensures F.ElemSize(o.type_) == 4 ==> e < TWO32
    {
      var j :| 0 <= j < |i.elems| && i.elems[j] == e;
      assert Fits(o.type_, o.elems[j]) by { assert o.elems[j] in o.elems; }
    }
  }

  lemma {:induction false} SizeBound(list: seq<Object>, k: nat)
    requires k < |list|
    ensures Size(list[k]) <= AddressOf(list, |list|)
  {
    hide Size, Align;
    assert AddressOf(list, k + 1) >= Size(list[k]);
    if k + 1 < |list| { AddressesGrow(list, k + 1, |list|); }
  }

  /** The loader finds the objects where the compiler laid them out. */
  lemma {:induction false} SameAddresses(list: seq<Object>, objects: seq<F.Object>, n: nat, k: nat)
    requires |objects| == |list| && (forall j :: 0 <= j < |list| ==> F.ObjectSize(objects[j]) == Size(list[j]))
    requires n <= k <= |list|
    ensures k < |list| ==> R.Addresses(objects[n..], AddressOf(list, n))[k - n] == AddressOf(list, k)
    ensures F.DataSize(objects[n..]) == AddressOf(list, |list|) - AddressOf(list, n)
    decreases |list| - n
  {
    hide F.ObjectSize, Size, Align;
    if n < |list| {
      assert objects[n..][1..] == objects[n + 1..];
      SameAddresses(list, objects, n + 1, if k > n then k else n + 1);
    }
  }

  /** The data section as the compiler counts it: its size, and the addresses of its objects. */
  lemma {:induction false} AddressesAreKept(env: Environment, list: seq<Object>, objects: seq<F.Object>, addrs: map<nat, nat>)
    requires LaidOut(env, list, objects, addrs) && |objects| == |list|
    ensures F.DataSize(objects) == AddressOf(list, |list|)
    ensures forall k :: 0 <= k < |list| ==> R.Addresses(objects, 0)[k] == AddressOf(list, k)
  {
    hide Holds, F.ObjectSize, Size, F.DataSize, R.Addresses;
    forall k | 0 <= k < |list| ensures F.ObjectSize(objects[k]) == Size(list[k]) {
      HeldSize(env, objects[k], list[k], addrs);
    }
    assert objects[0..] == objects;
    SameAddresses(list, objects, 0, |list|);
    forall k | 0 <= k < |list| ensures R.Addresses(objects, 0)[k] == AddressOf(list, k) {
      SameAddresses(list, objects, 0, k);
    }
  }

  lemma {:induction false} ObjectsAreValid(env: Environment, list: seq<Object>, objects: seq<F.Object>, addrs: map<nat, nat>)
    requires LaidOut(env, list, objects, addrs) && |objects| == |list| && AddressOf(list, |list|) < TWO32
    requires forall o :: o in list ==> WellTyped(o)
    ensures forall o :: o in objects ==> F.ValidObject(o)
  {
    hide Holds, F.ValidObject, Size, WellTyped, AddressOf;
    forall o | o in objects ensures F.ValidObject(o) {
      var k :| 0 <= k < |objects| && objects[k] == o;
      SizeBound(list, k);
      HeldIsValid(env, objects[k], list[k], addrs);
    }
  }

  // ------------------------------------------------------------------ variables

  /** The record of a variable, which refers to its object if it has one. */
  lemma {:induction false} VarIs(env: Environment, values: seq<Value>, order: seq<nat>, vars: seq<F.Value>, i: nat)
    requires IsOrder(order, |values|) && VarsWellTyped(values, order, |values|) && i < |values|
    requires DistinctIds(ListedVars(values, order, |values|))
    requires var list := ListedVars(values, order, |values|);
             AddressOf(list, |list|) < TWO32 && VarsGenerated(env, values, order, AddrsOf(list, |list|), |values|, vars)
    ensures InRange(env, TUPLE, values[i]) && |vars| == |values| && vars[i].type_ == TypeOf(values[i])
    ensures !values[i].RefValue? ==> vars[i].i == ValueBits(env, values[i], map[])
    ensures values[i].RefValue? ==>
              var list := ListedVars(values, order, |values|);
              exists at :: 0 <= at < |list| && list[at] == values[i].object_ && vars[i].i == AddressOf(list, at)
  {
    hide *;
    var list := ListedVars(values, order, |values|);
    var addrs := AddrsOf(list, |list|);
    var k := PlaceOf(order, |values|, i);
    VarAtPlace(env, values, order, addrs, vars, k);
    RecordParts(env, values[i], addrs);
    if values[i].RefValue? {
      var at := VarIsListed(values, order, |values|, k);
      AddrsOfAt(list, |list|, at);
      AddressesGrow(list, at, |list|);
    }
  }

  lemma {:induction false} VarAtPlace(env: Environment, values: seq<Value>, order: seq<nat>, addrs: map<nat, nat>, vars: seq<F.Value>, k: nat)
    requires IsOrder(order, |values|) && VarsGenerated(env, values, order, addrs, |values|, vars) && k < |values|
    ensures |order| == |values| == |vars| && order[k] < |values| && VarAt(values, order, k) == values[order[k]]
    ensures InRange(env, TUPLE, values[order[k]]) && vars[order[k]] == VarRecord(env, values[order[k]], addrs)
  {
    hide InRange, ValueBits;
    assert VarAt(values, order, k) == values[order[k]];
  }

  lemma {:induction false} RecordParts(env: Environment, v: Value, addrs: map<nat, nat>)
    requires InRange(env, TUPLE, v)
    ensures VarRecord(env, v, addrs).type_ == TypeOf(v)
    ensures !v.RefValue? ==> VarRecord(env, v, addrs).i == ValueBits(env, v, map[])
    ensures v.RefValue? && v.object_.id in addrs ==> VarRecord(env, v, addrs).i == addrs[v.object_.id] % TWO32
  {
  }

  lemma {:induction false} VarIsOk(env: Environment, values: seq<Value>, order: seq<nat>, vars: seq<F.Value>, addrs: seq<nat>, i: nat)
    requires IsOrder(order, |values|) && VarsWellTyped(values, order, |values|) && i < |values|
    requires DistinctIds(ListedVars(values, order, |values|))
    requires var list := ListedVars(values, order, |values|);
             && AddressOf(list, |list|) < TWO32 && VarsGenerated(env, values, order, AddrsOf(list, |list|), |values|, vars)
             && |addrs| == |list| && forall k :: 0 <= k < |list| ==> addrs[k] == AddressOf(list, k)
    ensures |vars| == |values| && vars[i].type_ <= 2 && (vars[i].type_ == 2 ==> vars[i].i % TWO32 in addrs)
  {
    hide *;
    VarIs(env, values, order, vars, i);
    var list := ListedVars(values, order, |values|);
    TypesAre(values[i]);
    if values[i].RefValue? {
      var at :| 0 <= at < |list| && list[at] == values[i].object_ && vars[i].i == AddressOf(list, at);
      AddressesGrow(list, at, |list|);
      assert addrs[at] == vars[i].i;
    }
  }

  lemma {:induction false} TypesAre(v: Value)
    ensures TypeOf(v) <= 2 && (TypeOf(v) == 2 <==> v.RefValue?)
  {
  }

  lemma {:induction false} VarsAreOk(env: Environment, values: seq<Value>, order: seq<nat>, vars: seq<F.Value>, objects: seq<F.Object>)
    requires IsOrder(order, |values|) && VarsWellTyped(values, order, |values|)
    requires DistinctIds(ListedVars(values, order, |values|))
    requires var list := ListedVars(values, order, |values|);
             && AddressOf(list, |list|) < TWO32 && VarsGenerated(env, values, order, AddrsOf(list, |list|), |values|, vars)
             && |objects| == |list| && LaidOut(env, list, objects, AddrsOf(list, |list|))
    ensures forall v :: v in vars ==> ImageReading.ValueOk(v)
    ensures ImageReading.RefsOk(vars, R.Addresses(objects, 0))
  {
    var list, addrs := ListedVars(values, order, |values|), R.Addresses(objects, 0);
    AddressesAreKept(env, list, objects, AddrsOf(list, |list|));
    assert |vars| == |values|;
    hide ListedVars, IsOrder, InRange, VarsWellTyped, VarsGenerated, LaidOut, R.Addresses, DistinctIds, AddrsOf, AddressOf;
    forall v | v in vars ensures v.type_ <= 2 && (v.type_ == 2 ==> v.i % TWO32 in addrs) {
      var i :| 0 <= i < |vars| && vars[i] == v;
      VarIsOk(env, values, order, vars, addrs, i);
    }
  }

  // ------------------------------------------------------------------ symbols

  lemma {:induction false} FlagsAre(src: Source, flags: U32, entry: U32)
    requires EntryCompiled(src, flags, entry)
    ensures F.IsRelocatable(flags) == F.HasNativeSymbols(flags) == src.isRelocatable && F.HasInfos(flags)
    ensures F.IsLibrary(flags) <==> Entries(src.defs) == []
  {
    hide Entries, EnvironmentOf;
  }

  function IndexedNames(defs: seq<Definition>): Definitions {
    Definitions(Indexes(Funs(defs)).Keys, Indexes(Vars(defs)).Keys)
  }

  lemma {:induction false} PublicsNext(before: Definitions, after: Definitions, publics: seq<Symbol>, s: Symbol)
    requires Publics(before, publics) && before.funs <= after.funs && before.vars <= after.vars
    requires s.defined && !IsDefined(before, s.kind, s.name) && IsDefined(after, s.kind, s.name)
    ensures Publics(after, publics + [s])
  {
    forall j | 0 <= j < |publics| ensures publics[j].kind != s.kind || publics[j].name != s.name {
      assert publics[j] in publics;
    }
  }

  lemma {:induction false} PublicsMore(before: Definitions, after: Definitions, publics: seq<Symbol>)
    requires Publics(before, publics) && before.funs <= after.funs && before.vars <= after.vars
    ensures Publics(after, publics)
  {
  }

  /** The public symbols are definitions of the program, each once. */
  lemma {:induction false} PublicsAre(defs: seq<Definition>, isRelocatable: bool)
    requires Collectable(defs)
    ensures Publics(IndexedNames(defs), PublicSymbols(defs, isRelocatable))
    decreases |defs|
  {
    if defs == [] {
      NoPublics(isRelocatable);
    } else {
      hide *;
      var n := |defs| - 1;
      CollectablePrefix(defs, n);
      PublicsAre(defs[..n], isRelocatable);
      assert defs == defs[..n] + [defs[n]];
      NewName(defs[..n], defs[n], isRelocatable);
      var before, after, publics := IndexedNames(defs[..n]), IndexedNames(defs), PublicSymbols(defs[..n], isRelocatable);
      var s := SymbolOf(defs[n], |Funs(defs[..n])|, |Vars(defs[..n])|, isRelocatable);
      if s == [] {
        assert publics + s == publics;
        PublicsMore(before, after, publics);
      } else {
        assert s == [s[0]];
        PublicsNext(before, after, publics, s[0]);
      }
    }
  }

  lemma {:induction false} NoPublics(isRelocatable: bool)
    ensures Publics(IndexedNames([]), PublicSymbols([], isRelocatable))
  {
  }

  /** A definition that can be added has a new name. */
  lemma {:induction false} NewName(defs: seq<Definition>, d: Definition, isRelocatable: bool)
    requires Collectable(defs) && Collectable(defs + [d])
    ensures var before, after := IndexedNames(defs), IndexedNames(defs + [d]);
            var s := SymbolOf(d, |Funs(defs)|, |Vars(defs)|, isRelocatable);
            && before.funs <= after.funs && before.vars <= after.vars && |s| <= 1
            && PublicSymbols(defs + [d], isRelocatable) == PublicSymbols(defs, isRelocatable) + s
            && (s != [] ==> s[0].defined && !IsDefined(before, s[0].kind, s[0].name) && IsDefined(after, s[0].kind, s[0].name))
  {
    DefinitionsNext(defs, d, isRelocatable);
    NewIndex(Funs(defs), d, d.FunctionDefinition?);
    NewIndex(Vars(defs), d, d.VariableDefinition?);
    hide Indexes, Funs, Vars, Entries, PublicSymbols, Infos, InfosOf, DistinctNames;
  }

  lemma {:induction false} NewIndex(ds: seq<Definition>, d: Definition, isAdded: bool)
    requires DistinctNames(ds) && DistinctNames(ds + if isAdded then [d] else [])
    ensures Indexes(ds + if isAdded then [d] else []).Keys == Indexes(ds).Keys + if isAdded then {d.ident} else {}
    ensures isAdded ==> d.ident !in Indexes(ds)
  {
    if isAdded {
      DistinctAdd(ds, d);
      IndexesNext(ds, d);
    } else {
      assert ds + [] == ds;
    }
    hide Indexes, DistinctNames;
  }

  lemma {:induction false} RelocationIsOk(defs: Definitions, symbols: seq<Symbol>, ref: Reference, r: F.Relocation)
    requires RelocatesBy(defs, symbols, ref, r)
    ensures ImageReading.RelocationOk(r, true) && (ImageReading.IsSymbolic(r) ==> r.symbol < |symbols|)
  {
  }

  lemma {:induction false} SymbolIsOk(s: Symbol)
    requires s.defined ==> s.kind != NativeName
    ensures ImageReading.SymbolTypeOk(WrittenSymbol(s).type_, true)
  {
  }

  /** Names of public definitions and of what is referred to have less than 65536 bytes. */
  predicate NamesShort(src: Source)
    requires Walks(src)
  {
    && (forall d :: d in src.defs && !d.EntryDefinition? && d.isPublic ==> |d.ident| < TWO16)
    && (forall r :: r in AllRefs(src) ==> |r.name| < TWO16)
  }

  lemma {:induction false} PublicsShort(defs: seq<Definition>, isRelocatable: bool)
    requires forall d :: d in defs && !d.EntryDefinition? && d.isPublic ==> |d.ident| < TWO16
    ensures forall s :: s in PublicSymbols(defs, isRelocatable) ==> |s.name| < TWO16
    decreases |defs|
  {
    if defs != [] {
      assert defs[|defs| - 1] in defs;
      PublicsShort(defs[..|defs| - 1], isRelocatable);
    }
  }

  lemma {:induction false} SymbolsAreShort(src: Source)
    requires Walks(src) && NamesShort(src)
    ensures forall s :: s in Symbols(src) ==> |s.name| < TWO16
  {
    hide AllRefs, Externals, PublicSymbols, Walks;
    PublicsShort(src.defs, src.isRelocatable);
    var defs := DefinedNames(EnvironmentOf(src));
    ExternalsAre(defs, AllRefs(src));
    forall s | s in Symbols(src) ensures |s.name| < TWO16 {
      if s in Externals(defs, AllRefs(src)) {
        var r :| r in AllRefs(src) && r.Kind() == s.kind && r.name == s.name;
      }
    }
  }

  /** What the loader tests of relocations and symbols. */
  lemma {:induction false} SymbolsAreOk(src: Source, relocs: seq<F.Relocation>, symbols: seq<F.Symbol>)
    requires Walks(src) && Collectable(src.defs) && SizesFit(src) && NamesShort(src) && SymbolsCompiled(src, relocs, symbols)
    ensures forall r :: r in relocs ==> ImageReading.RelocationOk(r, src.isRelocatable) && (ImageReading.IsSymbolic(r) ==> r.symbol < |symbols|)
    ensures forall s :: s in symbols ==> ImageReading.SymbolTypeOk(s.type_, src.isRelocatable) && |s.name| < TWO16
    ensures |relocs| < TWO32 && |symbols| < TWO32 && (!src.isRelocatable ==> relocs == [] && symbols == [])
  {
    hide AllRefs, Externals, PublicSymbols, Walks, Collectable, RelocatesBy, ImageReading.RelocationOk, ImageReading.SymbolTypeOk,
         ImageReading.IsSymbolic, Publics, NamesShort;
    if src.isRelocatable {
      var defs, table, refs := DefinedNames(EnvironmentOf(src)), Symbols(src), AllRefs(src);
      PublicsAreDefined(src.defs, true);
      ExternalsCount(defs, refs);
      forall r | r in relocs ensures ImageReading.RelocationOk(r, true) && (ImageReading.IsSymbolic(r) ==> r.symbol < |symbols|) {
        var j :| 0 <= j < |relocs| && relocs[j] == r;
        RelocationIsOk(defs, table, refs[j], r);
      }
      PublicsNotNative(src);
      SymbolsAreShort(src);
      forall s | s in symbols ensures ImageReading.SymbolTypeOk(s.type_, true) && |s.name| < TWO16 {
        var j :| 0 <= j < |symbols| && symbols[j] == s;
        assert s == WrittenSymbol(table[j]) && table[j] in table;
        SymbolIsOk(table[j]);
      }
    }
  }

  lemma {:induction false} PublicsNotNative(src: Source)
    requires Walks(src) && Collectable(src.defs)
    ensures forall s :: s in Symbols(src) && s.defined ==> s.kind != NativeName
  {
    PublicsAre(src.defs, src.isRelocatable);
    ExternalsAre(DefinedNames(EnvironmentOf(src)), AllRefs(src));
    hide AllRefs, Externals, PublicSymbols, Walks, Collectable, Indexes, Funs, Vars;
  }

  lemma {:induction false} InfosAreOk(defs: seq<Definition>)
    requires |Funs(defs)| < TWO32
    ensures |Infos(defs)| <= |Funs(defs)| && forall f :: f in Infos(defs) ==> f.funIndex < |Funs(defs)|
    decreases |defs|
  {
    hide InfosOf;
    if defs != [] {
      var n := |defs| - 1;
      InfosAreOk(defs[..n]);
      assert Infos(defs) == Infos(defs[..n]) + InfosOf(defs[n], |Funs(defs[..n])|);
      InfoIsOk(defs[n], |Funs(defs[..n])|);
    }
  }

  lemma {:induction false} InfoIsOk(d: Definition, funCount: nat)
    requires funCount < TWO32
    ensures |InfosOf(d, funCount)| <= if d.FunctionDefinition? then 1 else 0
    ensures forall f :: f in InfosOf(d, funCount) ==> f.funIndex == funCount
  {
  }

  // ------------------------------------------------------------------ what the loader does

  lemma {:induction false} ListedTypes(src: Source)
    requires Walks(src) && Compilable(src)
    ensures forall o :: o in ObjectsOf(src) ==> WellTyped(o)
    ensures RefersBack(ObjectsOf(src)) && VarsWellTyped(Variables(src), src.varOrder, |Variables(src)|)
  {
    ListedVarsWellTyped(Variables(src), src.varOrder, |Variables(src)|);
  }

  lemma {:induction false} CompiledParts(src: Source, p: F.Image)
    requires Walks(src) && Compiled(src, p)
    ensures EntryCompiled(src, p.flags, p.entry) && SymbolsCompiled(src, p.relocs, p.symbols) && p.infos == Infos(src.defs)
    ensures var list := ObjectsOf(src);
            && |p.objects| == |list| && LaidOut(EnvironmentOf(src), list, p.objects, AddrsOf(list, |list|))
            && VarsGenerated(EnvironmentOf(src), Variables(src), src.varOrder, AddrsOf(list, |list|), |Variables(src)|, p.vars)
            && |p.vars| == |Variables(src)|
  {
  }

  lemma {:induction false} SizesAre(src: Source)
    requires Walks(src) && SizesFit(src)
    ensures |Functions(src)| < TWO32 && |Funs(src.defs)| == |Functions(src)| && |Variables(src)| < TWO32
    ensures CodeAddr(Functions(src), src.funOrder, |Functions(src)|) == CodeSize(src) < TWO32
    ensures AddressOf(ObjectsOf(src), |ObjectsOf(src)|) == DataSize(src) < TWO32
    ensures ObjectsOf(src) == ListedVars(Variables(src), src.varOrder, |Variables(src)|)
  {
  }

  lemma {:induction false} IsWritable(p: F.Image)
    requires |p.funs| < TWO32 && |p.vars| < TWO32 && |p.code| < TWO32 && F.DataSize(p.objects) < TWO32
    requires |p.relocs| < TWO32 && |p.symbols| < TWO32 && |p.infos| < TWO32
    requires (forall o :: o in p.objects ==> F.ValidObject(o)) && (forall s :: s in p.symbols ==> |s.name| < TWO16)
    ensures F.Writable(p)
  {
    hide F.ValidObject, F.DataSize;
  }

  /** A compiled image can be written. */
  lemma {:induction false} CompiledIsWritable(src: Source, p: F.Image)
    requires Walks(src) && Compilable(src) && Compiled(src, p) && SizesFit(src) && NamesShort(src)
    ensures F.Writable(p)
  {
    assert Collectable(src.defs);
    hide *;
    var env, list := EnvironmentOf(src), ObjectsOf(src);
    SizesAre(src);
    ListedTypes(src);
    CompiledParts(src, p);
    GeneratedPart(src, p);
    AddressesAreKept(env, list, p.objects, AddrsOf(list, |list|));
    ObjectsAreValid(env, list, p.objects, AddrsOf(list, |list|));
    SymbolsAreOk(src, p.relocs, p.symbols);
    InfosAreOk(src.defs);
    IsWritable(p);
  }

  lemma {:induction false} IsValid(p: F.Image)
    requires F.Writable(p) && F.HasInfos(p.flags)
    requires (forall f :: f in p.funs ==> ImageReading.FunctionOk(f, |p.code|)) && (forall v :: v in p.vars ==> ImageReading.ValueOk(v))
    requires ImageReading.RefsOk(p.vars, R.Addresses(p.objects, 0))
    requires forall r :: r in p.relocs ==>
               ImageReading.RelocationOk(r, F.HasNativeSymbols(p.flags)) && (ImageReading.IsSymbolic(r) ==> r.symbol < |p.symbols|)
    requires forall s :: s in p.symbols ==> ImageReading.SymbolTypeOk(s.type_, F.HasNativeSymbols(p.flags))
    requires forall f :: f in p.infos ==> f.funIndex < |p.funs|
    requires !F.IsRelocatable(p.flags) ==> p.relocs == [] && p.symbols == []
    ensures R.Valid(p)
  {
    hide F.Writable, F.HasInfos, F.HasNativeSymbols, ImageReading.RefsOk, ImageReading.RelocationOk, ImageReading.SymbolTypeOk,
         ImageReading.FunctionOk, ImageReading.ValueOk, ImageReading.IsSymbolic, F.IsRelocatable;
  }

  /** A compiled image meets all tests of the loader if the function that comes last has code. */
  lemma {:induction false} CompiledIsValid(src: Source, p: F.Image)
    requires Walks(src) && Compilable(src) && Compiled(src, p) && SizesFit(src) && NamesShort(src) && DistinctIds(ObjectsOf(src))
    requires LastHasCode(src)
    ensures R.Valid(p)
  {
    assert Collectable(src.defs);
    hide *;
    var env, list := EnvironmentOf(src), ObjectsOf(src);
    SizesAre(src);
    ListedTypes(src);
    CompiledIsWritable(src, p);
    CompiledParts(src, p);
    GeneratedPart(src, p);
    FunctionsOkExactly(src, p);
    VarsAreOk(env, Variables(src), src.varOrder, p.vars, p.objects);
    FlagsAre(src, p.flags, p.entry);
    SymbolsAreOk(src, p.relocs, p.symbols);
    InfosAreOk(src.defs);
    IsValid(p);
  }

  /** The loader accepts a compiled image if and only if the program has no functions or the function
      that comes last has an instruction. */
  lemma {:induction false} AcceptedExactly(src: Source, p: F.Image)
    requires Walks(src) && Compilable(src) && Compiled(src, p) && SizesFit(src) && NamesShort(src) && DistinctIds(ObjectsOf(src))
    ensures F.Writable(p)
    ensures ImageReading.ReadImage(F.PutImage(p)).Some? <==> LastHasCode(src)
  {
    hide *;
    CompiledIsWritable(src, p);
    if LastHasCode(src) {
      CompiledIsValid(src, p);
      R.ImageIsReadBack(p);
    } else {
      SizesAre(src);
      FunctionsOkExactly(src, p);
      var f :| f in p.funs && !ImageReading.FunctionOk(f, |p.code|);
      R.BadFunctionIsRejected(p, f);
    }
  }

  /** Without empty functions the last one has code, in whatever order they come. */
  lemma {:induction false} NonEmptyIsAccepted(src: Source, p: F.Image)
    requires Walks(src) && Compilable(src) && Compiled(src, p) && SizesFit(src) && NamesShort(src) && DistinctIds(ObjectsOf(src))
    requires forall f :: f in Functions(src) ==> InstrCount(f.lines, |f.lines|) > 0
    ensures F.Writable(p) && ImageReading.ReadImage(F.PutImage(p)).Some?
  {
    if |Functions(src)| > 0 {
      assert FunAt(Functions(src), src.funOrder, |Functions(src)| - 1) in Functions(src);
    }
    AcceptedExactly(src, p);
    hide *;
  }
}
