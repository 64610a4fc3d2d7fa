/** The definitions of a program in the compiler (the first walk of `generate_prog` in
    comp/impl_comp.cpp): functions and variables get their indexes in order. */
module DefinitionTable {
  import opened Options
  import opened Bytes
  import opened ParseTrees
  import opened SymbolTable
  import F = ImageFormat

  function Funs(defs: seq<Definition>): (funs: seq<Definition>)
    ensures |funs| <= |defs| && forall d :: d in funs ==> d.FunctionDefinition?
  {
    if defs == [] then []
    else
      var n := |defs| - 1;
      Funs(defs[..n]) + if defs[n].FunctionDefinition? then [defs[n]] else []
  }

  function Vars(defs: seq<Definition>): (vars: seq<Definition>)
    ensures |vars| <= |defs| && forall d :: d in vars ==> d.VariableDefinition?
  {
    if defs == [] then []
    else
      var n := |defs| - 1;
      Vars(defs[..n]) + if defs[n].VariableDefinition? then [defs[n]] else []
  }

  function Entries(defs: seq<Definition>): seq<Name> {
    if defs == [] then []
    else
      var n := |defs| - 1;
      Entries(defs[..n]) + if defs[n].EntryDefinition? then [defs[n].ident] else []
  }

  function SymbolOf(d: Definition, funCount: nat, varCount: nat, isRelocatable: bool): seq<Symbol> {
    if !isRelocatable then []
    else if d.FunctionDefinition? && d.isPublic then [Symbol(FunName, true, d.ident, funCount)]
    else if d.VariableDefinition? && d.isPublic then [Symbol(VarName, true, d.ident, varCount)]
    else []
  }

  /** The symbols of the public definitions of a relocatable program, in order. */
  function PublicSymbols(defs: seq<Definition>, isRelocatable: bool): seq<Symbol> {
    if defs == [] then []
    else
      var before, d := defs[..|defs| - 1], defs[|defs| - 1];
      PublicSymbols(before, isRelocatable) + SymbolOf(d, |Funs(before)|, |Vars(before)|, isRelocatable)
  }

  const ALL_ONES: U32 := 0xffff_ffff

  function InfoOf(index: nat, info: FunctionInfo): F.FunctionInfo {
    F.FunctionInfo(index % TWO32, info.evalStrategy % 0x100,
                   (if info.evalStrategyMask2 == 0 then info.evalStrategyMask else info.evalStrategyMask2) % 0x100)
  }

  /** A function has an info if its annotations say something. */
  function InfosOf(d: Definition, funCount: nat): seq<F.FunctionInfo> {
    if d.FunctionDefinition? && (d.info.evalStrategy != 0 || d.info.evalStrategyMask != ALL_ONES) then [InfoOf(funCount, d.info)] else []
  }

  function Infos(defs: seq<Definition>): seq<F.FunctionInfo> {
    if defs == [] then []
    else
      var before, d := defs[..|defs| - 1], defs[|defs| - 1];
      Infos(before) + InfosOf(d, |Funs(before)|)
  }

  predicate DistinctNames(ds: seq<Definition>) {
    forall j, k :: 0 <= j < k < |ds| ==> ds[j].ident != ds[k].ident
  }

  function Indexes(ds: seq<Definition>): map<Name, nat> {
    if ds == [] then map[] else Indexes(ds[..|ds| - 1])[ds[|ds| - 1].ident := |ds| - 1]
  }

  lemma {:induction false} IndexesAt(ds: seq<Definition>, k: nat)
    requires DistinctNames(ds) && k < |ds|
    ensures ds[k].ident in Indexes(ds) && Indexes(ds)[ds[k].ident] == k
    decreases |ds|
  {
    var n := |ds| - 1;
    if k < n { IndexesAt(ds[..n], k); }
  }

  lemma {:induction false} IndexedName(ds: seq<Definition>, name: Name) returns (k: nat)
    requires name in Indexes(ds)
    ensures k < |ds| && ds[k].ident == name
    decreases |ds|
  {
    k := |ds| - 1;
    if name != ds[k].ident { k := IndexedName(ds[..k], name); }
  }

  lemma IndexesNext(ds: seq<Definition>, d: Definition)
    ensures Indexes(ds + [d]) == Indexes(ds)[d.ident := |ds|]
  {
    assert (ds + [d])[..|ds|] == ds;
  }

  lemma DistinctAdd(ds: seq<Definition>, d: Definition)
    requires DistinctNames(ds)
    ensures DistinctNames(ds + [d]) <==> d.ident !in Indexes(ds)
  {
    if d.ident in Indexes(ds) {
      var k := IndexedName(ds, d.ident);
      assert (ds + [d])[k].ident == (ds + [d])[|ds|].ident;
    } else {
      forall j | 0 <= j < |ds| ensures ds[j].ident != d.ident { IndexesAt(ds, j); }
    }
  }

  lemma DistinctPrefix(ds: seq<Definition>, more: seq<Definition>)
    requires DistinctNames(ds + more)
    ensures DistinctNames(ds)
  {
    forall j, k | 0 <= j < k < |ds| ensures ds[j].ident != ds[k].ident {
      assert (ds + more)[j] == ds[j] && (ds + more)[k] == ds[k];
    }
  }

  predicate Collectable(defs: seq<Definition>) {
    DistinctNames(Funs(defs)) && DistinctNames(Vars(defs)) && |Entries(defs)| <= 1
  }

  lemma {:induction false} CollectablePrefix(defs: seq<Definition>, n: nat)
    requires n <= |defs| && Collectable(defs)
    ensures Collectable(defs[..n])
    decreases |defs|
  {
    if n < |defs| {
      var m := |defs| - 1;
      DistinctPrefix(Funs(defs[..m]), if defs[m].FunctionDefinition? then [defs[m]] else []);
      DistinctPrefix(Vars(defs[..m]), if defs[m].VariableDefinition? then [defs[m]] else []);
      CollectablePrefix(defs[..m], n);
      assert defs[..m][..n] == defs[..n];
    } else {
      assert defs[..n] == defs;
    }
  }

  datatype Collected = Collected(funs: seq<Definition>, vars: seq<Definition>, funIndexes: map<Name, nat>, varIndexes: map<Name, nat>,
                                 publics: seq<Symbol>, infos: seq<F.FunctionInfo>, entry: Option<Name>)

  ghost predicate CollectedFrom(c: Collected, defs: seq<Definition>, isRelocatable: bool) {
    && c.funs == Funs(defs) && c.vars == Vars(defs) && c.funIndexes == Indexes(c.funs) && c.varIndexes == Indexes(c.vars)
    && c.publics == PublicSymbols(defs, isRelocatable) && c.infos == Infos(defs)
    && Entries(defs) == if c.entry.Some? then [c.entry.value] else []
  }

  /** The walk over the definitions: fails on a function, a variable or an entry that is already there. */
  method CollectDefinitions(defs: seq<Definition>, isRelocatable: bool) returns (ok: bool, c: Collected)
    ensures ok <==> Collectable(defs)
    ensures ok ==> CollectedFrom(c, defs, isRelocatable)
  {
    c := Collected([], [], map[], map[], [], [], None);
    var n := 0;
    NothingCollected(isRelocatable);
    assert defs[..0] == [] && defs[..|defs|] == defs;
    hide *;
    while n < |defs|
      invariant n <= |defs| && Collectable(defs[..n]) && CollectedFrom(c, defs[..n], isRelocatable)
    {
      ClashesExactly(defs[..n], c, defs[n], isRelocatable);
      Prefixes(defs, n);
      if Clashes(c, defs[n]) {
        if Collectable(defs) { CollectablePrefix(defs, n + 1); }
        return false, c;
      }
      AddedCollects(defs[..n], c, defs[n], isRelocatable);
      c := Added(c, defs[n], isRelocatable);
      n := n + 1;
    }
    return true, c;
  }

  lemma DefinitionsNext(defs: seq<Definition>, d: Definition, isRelocatable: bool)
    ensures Funs(defs + [d]) == Funs(defs) + if d.FunctionDefinition? then [d] else []
    ensures Vars(defs + [d]) == Vars(defs) + if d.VariableDefinition? then [d] else []
    ensures Entries(defs + [d]) == Entries(defs) + if d.EntryDefinition? then [d.ident] else []
    ensures PublicSymbols(defs + [d], isRelocatable)
            == PublicSymbols(defs, isRelocatable) + SymbolOf(d, |Funs(defs)|, |Vars(defs)|, isRelocatable)
    ensures Infos(defs + [d]) == Infos(defs) + InfosOf(d, |Funs(defs)|)
  {
    assert (defs + [d])[..|defs|] == defs;
  }

  lemma Prefixes(defs: seq<Definition>, n: nat)
    requires n < |defs|
    ensures defs[..n + 1] == defs[..n] + [defs[n]]
  {
  }

  lemma NothingCollected(isRelocatable: bool)
    ensures Collectable([]) && CollectedFrom(Collected([], [], map[], map[], [], [], None), [], isRelocatable)
  {
  }

  /** Whether something of this name is already there; there is only one entry. */
  predicate Clashes(c: Collected, d: Definition) {
    match d
    case FunctionDefinition(_, ident, _, _) => ident in c.funIndexes
    case VariableDefinition(_, ident, _) => ident in c.varIndexes
    case EntryDefinition(_) => c.entry.Some?
  }

  function Added(c: Collected, d: Definition, isRelocatable: bool): Collected {
    var c' := c.(publics := c.publics + SymbolOf(d, |c.funs|, |c.vars|, isRelocatable), infos := c.infos + InfosOf(d, |c.funs|));
    match d
    case FunctionDefinition(_, ident, _, _) => c'.(funs := c.funs + [d], funIndexes := c.funIndexes[ident := |c.funs|])
    case VariableDefinition(_, ident, _) => c'.(vars := c.vars + [d], varIndexes := c.varIndexes[ident := |c.vars|])
    case EntryDefinition(ident) => c'.(entry := Some(ident))
  }

  lemma ClashesExactly(defs: seq<Definition>, c: Collected, d: Definition, isRelocatable: bool)
    requires CollectedFrom(c, defs, isRelocatable) && Collectable(defs)
    ensures Collectable(defs + [d]) <==> !Clashes(c, d)
  {
    DefinitionsNext(defs, d, isRelocatable);
    DistinctAdd(c.funs, d);
    DistinctAdd(c.vars, d);
    hide Indexes, DistinctNames, Funs, Vars, Entries, PublicSymbols, Infos, InfosOf, SymbolOf;
  }

  lemma AddedCollects(defs: seq<Definition>, c: Collected, d: Definition, isRelocatable: bool)
    requires CollectedFrom(c, defs, isRelocatable) && !Clashes(c, d)
    ensures CollectedFrom(Added(c, d, isRelocatable), defs + [d], isRelocatable)
  {
    DefinitionsNext(defs, d, isRelocatable);
    IndexesNext(c.funs, d);
    IndexesNext(c.vars, d);
    hide Indexes, Funs, Vars, Entries, PublicSymbols, Infos, InfosOf, SymbolOf;
  }
}
