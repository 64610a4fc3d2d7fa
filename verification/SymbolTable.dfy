/** The symbols of a relocatable program in the compiler (comp/impl_comp.cpp): every reference to a
    name that the program does not define, and every reference to a native function, gets a
    relocation that names a symbol; the size of all symbols is computed beforehand from the names. */
module SymbolTable {
  import opened Options
  import opened Bytes
  import opened ParseTrees
  import F = ImageFormat

  datatype Kind = FunName | VarName | NativeName

  const RELOC_ARG1_FUN: nat := 0
  const RELOC_ARG2_FUN: nat := 1
  const RELOC_ARG1_VAR: nat := 2
  const RELOC_ARG2_VAR: nat := 3
  const RELOC_ELEM_FUN: nat := 4
  const RELOC_VAR_FUN: nat := 5
  const RELOC_ARG1_NATIVE_FUN: nat := 6
  const RELOC_ARG2_NATIVE_FUN: nat := 7
  const RELOC_ELEM_NATIVE_FUN: nat := 8
  const RELOC_VAR_NATIVE_FUN: nat := 9
  const RELOC_SYMBOLIC: nat := 256

  type RelocType = t: nat | t <= RELOC_VAR_NATIVE_FUN

  /** A reference by name, with the type of its relocation and its place in the code or in the data
      (variables and elements of objects). */
  datatype Reference = Reference(type_: RelocType, addr: U32, name: Name) {
    function Kind(): Kind {
      if type_ == RELOC_ARG1_VAR || type_ == RELOC_ARG2_VAR then VarName
      else if type_ >= RELOC_ARG1_NATIVE_FUN then NativeName
      else FunName
    }

    predicate InData() {
      type_ == RELOC_ELEM_FUN || type_ == RELOC_VAR_FUN || type_ == RELOC_ELEM_NATIVE_FUN || type_ == RELOC_VAR_NATIVE_FUN
    }
  }

  /** The index is that of a definition. */
  datatype Symbol = Symbol(kind: Kind, defined: bool, name: Name, index: nat)

  function External(kind: Kind, name: Name): Symbol {
    Symbol(kind, false, name, 0)
  }

  datatype Definitions = Definitions(funs: set<Name>, vars: set<Name>)

  predicate IsDefined(defs: Definitions, kind: Kind, name: Name) {
    match kind
    case FunName => name in defs.funs
    case VarName => name in defs.vars
    case NativeName => false
  }

  /** The symbols that are not defined here, and where they are in the table. */
  ghost predicate Indexed(symbols: seq<Symbol>, externs: map<(Kind, Name), nat>) {
    && (forall k, n {:trigger (k, n) in externs} :: (k, n) in externs ==>
          externs[(k, n)] < |symbols| && symbols[externs[(k, n)]] == External(k, n))
    && (forall j {:trigger symbols[j]} :: 0 <= j < |symbols| && !symbols[j].defined ==>
          (symbols[j].kind, symbols[j].name) in externs && externs[(symbols[j].kind, symbols[j].name)] == j)
  }

  /** The relocation of a reference; it names the symbol of the reference, if its name is not defined
      in the program. */
  ghost predicate RelocatesBy(defs: Definitions, symbols: seq<Symbol>, ref: Reference, r: F.Relocation) {
    if IsDefined(defs, ref.Kind(), ref.name) then r == F.Relocation(ref.type_, ref.addr, 0)
    else
      && r.type_ == ref.type_ + RELOC_SYMBOLIC && r.addr == ref.addr
      && r.symbol < |symbols| && symbols[r.symbol] == External(ref.Kind(), ref.name)
  }

  lemma IndexedIsThere(publics: seq<Symbol>, added: seq<Symbol>, externs: map<(Kind, Name), nat>, k: Kind, n: Name)
    requires Indexed(publics + added, externs) && forall j :: 0 <= j < |publics| ==> publics[j].defined
    requires forall s :: s in added ==> s.index == 0
    ensures (k, n) in externs <==> External(k, n) in added
  {
    var symbols := publics + added;
    if (k, n) in externs {
      assert symbols[externs[(k, n)]] == added[externs[(k, n)] - |publics|];
    }
    if External(k, n) in added {
      var j :| 0 <= j < |added| && added[j] == External(k, n);
      assert symbols[|publics| + j] == added[j];
    }
  }

  lemma {:induction false} ExternalsCount(defs: Definitions, refs: seq<Reference>)
    ensures |Externals(defs, refs)| <= |refs| && forall s :: s in Externals(defs, refs) ==> s.index == 0
    decreases |refs|
  {
    if refs != [] { ExternalsCount(defs, refs[..|refs| - 1]); }
  }

  ghost predicate AllRelocate(defs: Definitions, symbols: seq<Symbol>, refs: seq<Reference>, relocs: seq<F.Relocation>) {
    |relocs| == |refs| && forall j :: 0 <= j < |refs| ==> RelocatesBy(defs, symbols, refs[j], relocs[j])
  }

  lemma {:induction false} RelocatesMore(defs: Definitions, symbols: seq<Symbol>, refs: seq<Reference>, relocs: seq<F.Relocation>, more: seq<Symbol>,
                      ref: Reference, r: F.Relocation)
    requires AllRelocate(defs, symbols, refs, relocs) && RelocatesBy(defs, symbols + more, ref, r)
    ensures AllRelocate(defs, symbols + more, refs + [ref], relocs + [r])
  {
    assert symbols == (symbols + more)[..|symbols|];
  }

  /** `add_reloc` for all references in order. */
  method AddRelocs(defs: Definitions, publics: seq<Symbol>, refs: seq<Reference>)
    returns (symbols: seq<Symbol>, relocs: seq<F.Relocation>)
    requires forall j :: 0 <= j < |publics| ==> publics[j].defined
    requires |publics| + |refs| < TWO32
    ensures AllRelocate(defs, symbols, refs, relocs)
    ensures symbols == publics + Externals(defs, refs)
  {
    hide AllRelocate;
    symbols, relocs := publics, [];
    var externs: map<(Kind, Name), nat> := map[];
    var i := 0;
    assert AllRelocate(defs, symbols, [], []) by { NoneRelocate(defs, symbols); }
    assert refs[..0] == [];
    while i < |refs|
      invariant i <= |refs| && Indexed(symbols, externs) && AllRelocate(defs, symbols, refs[..i], relocs)
      invariant symbols == publics + Externals(defs, refs[..i])
    {
      var ref := refs[i];
      assert refs[..i + 1][..i] == refs[..i] && refs[..i + 1] == refs[..i] + [ref];
      ExternalsCount(defs, refs[..i]);
      var reloc, more := F.Relocation(ref.type_, ref.addr, 0), [];
      if !IsDefined(defs, ref.Kind(), ref.name) {
        IndexedIsThere(publics, Externals(defs, refs[..i]), externs, ref.Kind(), ref.name);
        var symbol := |symbols|;
        if (ref.Kind(), ref.name) in externs {
          symbol := externs[(ref.Kind(), ref.name)];
        } else {
          externs := externs[(ref.Kind(), ref.name) := symbol];
          more := [External(ref.Kind(), ref.name)];
        }
        reloc := F.Relocation(ref.type_ + RELOC_SYMBOLIC, ref.addr, symbol);
      }
      RelocatesMore(defs, symbols, refs[..i], relocs, more, ref, reloc);
      assert symbols + [] == symbols;
      symbols, relocs := symbols + more, relocs + [reloc];
      i := i + 1;
    }
    assert refs[..|refs|] == refs;
  }

  lemma NoneRelocate(defs: Definitions, symbols: seq<Symbol>)
    ensures AllRelocate(defs, symbols, [], [])
  {
  }

  /** The symbols of names that are not defined, in the order of their first references. */
  function Externals(defs: Definitions, refs: seq<Reference>): seq<Symbol>
    decreases |refs|
  {
    if refs == [] then []
    else
      var before, r := Externals(defs, refs[..|refs| - 1]), refs[|refs| - 1];
      if IsDefined(defs, r.Kind(), r.name) || External(r.Kind(), r.name) in before then before
      else before + [External(r.Kind(), r.name)]
  }

  // ------------------------------------------------------------------ sizes

  function SizeOf(name: Name): nat {
    Align(7 + |name|)
  }

  /** The bytes of symbols behind each other. */
  function SymbolsSize(symbols: seq<Symbol>): nat {
    if symbols == [] then 0 else SymbolsSize(symbols[..|symbols| - 1]) + SizeOf(symbols[|symbols| - 1].name)
  }

  /** The bytes of the symbols of some names. */
  ghost function NamesSize(names: set<Name>): nat {
    if names == {} then 0
    else
      var n :| n in names;
      SizeOf(n) + NamesSize(names - {n})
  }

  lemma {:induction false} NamesSizeWithout(names: set<Name>, n: Name)
    requires n in names
    ensures NamesSize(names) == SizeOf(n) + NamesSize(names - {n})
    decreases |names|
  {
    var m :| m in names && NamesSize(names) == SizeOf(m) + NamesSize(names - {m});
    if m != n {
      NamesSizeWithout(names - {m}, n);
      NamesSizeWithout(names - {n}, m);
      assert names - {m} - {n} == names - {n} - {m};
    }
  }

  lemma NamesSizeAdd(names: set<Name>, n: Name)
    ensures NamesSize(names + {n}) == NamesSize(names) + if n in names then 0 else SizeOf(n)
  {
    if n in names {
      assert names + {n} == names;
    } else {
      NamesSizeWithout(names + {n}, n);
      assert names + {n} - {n} == names;
    }
  }

  function NamesOf(symbols: seq<Symbol>, k: Kind): set<Name> {
    set s | s in symbols && s.kind == k :: s.name
  }

  lemma NamesOfNext(symbols: seq<Symbol>, s: Symbol, k: Kind)
    ensures NamesOf(symbols + [s], k) == NamesOf(symbols, k) + if s.kind == k then {s.name} else {}
  {
    forall n | n in NamesOf(symbols, k) ensures n in NamesOf(symbols + [s], k) {
      var t :| t in symbols && t.kind == k && t.name == n;
      assert t in symbols + [s];
    }
    assert s in symbols + [s];
  }

  /** No two symbols of a kind have the same name. */
  predicate OnceEach(symbols: seq<Symbol>) {
    forall i, j :: 0 <= i < j < |symbols| ==> symbols[i].kind != symbols[j].kind || symbols[i].name != symbols[j].name
  }

  ghost function KindSize(symbols: seq<Symbol>, k: Kind): nat {
    NamesSize(NamesOf(symbols, k))
  }

  lemma KindSizeNext(rest: seq<Symbol>, s: Symbol, k: Kind)
    requires OnceEach(rest + [s])
    ensures KindSize(rest + [s], k) == KindSize(rest, k) + if s.kind == k then SizeOf(s.name) else 0
  {
    NamesOfNext(rest, s, k);
    if s.kind == k {
      NotThereYet(rest, s);
      NamesSizeAdd(NamesOf(rest, k), s.name);
    } else {
      assert NamesOf(rest, k) + {} == NamesOf(rest, k);
    }
  }

  lemma NotThereYet(rest: seq<Symbol>, s: Symbol)
    requires OnceEach(rest + [s])
    ensures s.name !in NamesOf(rest, s.kind)
  {
    forall j | 0 <= j < |rest| ensures rest[j].kind != s.kind || rest[j].name != s.name {
      assert (rest + [s])[j] == rest[j] && (rest + [s])[|rest|] == s;
    }
  }

  lemma OnceEachPrefix(rest: seq<Symbol>, s: Symbol)
    requires OnceEach(rest + [s])
    ensures OnceEach(rest)
  {
    forall i, j | 0 <= i < j < |rest| ensures rest[i].kind != rest[j].kind || rest[i].name != rest[j].name {
      assert (rest + [s])[i] == rest[i] && (rest + [s])[j] == rest[j];
    }
  }

  /** Symbols that are there once have the size of their names. */
  lemma {:induction false} SymbolsSizeByNames(symbols: seq<Symbol>)
    requires OnceEach(symbols)
    ensures SymbolsSize(symbols) == KindSize(symbols, FunName) + KindSize(symbols, VarName) + KindSize(symbols, NativeName)
    decreases |symbols|
  {
    if symbols == [] {
      assert NamesOf(symbols, FunName) == {} && NamesOf(symbols, VarName) == {} && NamesOf(symbols, NativeName) == {};
    } else {
      hide OnceEach, KindSize;
      var rest, s := symbols[..|symbols| - 1], symbols[|symbols| - 1];
      assert symbols == rest + [s];
      OnceEachPrefix(rest, s);
      SymbolsSizeByNames(rest);
      KindSizeNext(rest, s, FunName);
      KindSizeNext(rest, s, VarName);
      KindSizeNext(rest, s, NativeName);
    }
  }

  // ------------------------------------------------------------------ the size computed beforehand

  /** The names that the code or the data refer to. */
  function ReferredTo(refs: seq<Reference>, k: Kind, inData: bool): set<Name> {
    set r | r in refs && r.Kind() == k && r.InData() == inData :: r.name
  }

  /** The names of functions counted beforehand; in the data, those of native functions are among
      them. */
  function FunNames(defs: Definitions, publics: seq<Symbol>, refs: seq<Reference>): set<Name> {
    NamesOf(publics, FunName)
    + ((ReferredTo(refs, FunName, false) + ReferredTo(refs, FunName, true) + ReferredTo(refs, NativeName, true)) - defs.funs)
  }

  function VarNames(defs: Definitions, publics: seq<Symbol>, refs: seq<Reference>): set<Name> {
    NamesOf(publics, VarName) + ((ReferredTo(refs, VarName, false) + ReferredTo(refs, VarName, true)) - defs.vars)
  }

  ghost function ComputedSize(defs: Definitions, publics: seq<Symbol>, refs: seq<Reference>): nat {
    NamesSize(FunNames(defs, publics, refs)) + NamesSize(VarNames(defs, publics, refs)) + NamesSize(ReferredTo(refs, NativeName, false))
  }

  /** Public symbols are definitions of the program, each once. */
  ghost predicate Publics(defs: Definitions, publics: seq<Symbol>) {
    OnceEach(publics) && forall s :: s in publics ==> s.defined && IsDefined(defs, s.kind, s.name)
  }

  lemma {:induction false} ExternalsAre(defs: Definitions, refs: seq<Reference>)
    ensures forall s :: s in Externals(defs, refs) <==>
              s == External(s.kind, s.name) && !IsDefined(defs, s.kind, s.name)
              && exists r :: r in refs && r.Kind() == s.kind && r.name == s.name
    ensures OnceEach(Externals(defs, refs))
    decreases |refs|
  {
    if refs != [] {
      var rest, r := refs[..|refs| - 1], refs[|refs| - 1];
      assert refs == rest + [r];
      ExternalsAre(defs, rest);
      forall s ensures s in Externals(defs, refs) <==>
          s == External(s.kind, s.name) && !IsDefined(defs, s.kind, s.name) && exists x :: x in refs && x.Kind() == s.kind && x.name == s.name
      {
        assert (exists x :: x in refs && x.Kind() == s.kind && x.name == s.name)
          <==> (exists x :: x in rest && x.Kind() == s.kind && x.name == s.name) || (r.Kind() == s.kind && r.name == s.name);
      }
    }
  }

  lemma PublicAndExternalNames(publics: seq<Symbol>, added: seq<Symbol>, k: Kind)
    ensures NamesOf(publics + added, k) == NamesOf(publics, k) + NamesOf(added, k)
  {
    forall s ensures s in publics + added <==> s in publics || s in added {}
    forall n | n in NamesOf(publics, k) + NamesOf(added, k) ensures n in NamesOf(publics + added, k) {
      var s :| (s in publics || s in added) && s.kind == k && s.name == n;
      assert s in publics + added;
    }
  }

  /** The names of external symbols are the ones referred to and not defined. */
  lemma ExternalNames(defs: Definitions, refs: seq<Reference>, k: Kind)
    ensures NamesOf(Externals(defs, refs), k)
            == set n | n in ReferredTo(refs, k, false) + ReferredTo(refs, k, true) && !IsDefined(defs, k, n)
  {
    ExternalsAre(defs, refs);
    var names := set n | n in ReferredTo(refs, k, false) + ReferredTo(refs, k, true) && !IsDefined(defs, k, n);
    forall n | n in names ensures n in NamesOf(Externals(defs, refs), k) {
      var r :| r in refs && r.Kind() == k && r.name == n;
      assert External(k, n) in Externals(defs, refs);
    }
    forall n | n in NamesOf(Externals(defs, refs), k) ensures n in names {
      var s :| s in Externals(defs, refs) && s.kind == k && s.name == n;
      var r :| r in refs && r.Kind() == k && r.name == n;
      assert r.name in ReferredTo(refs, k, r.InData());
    }
  }

  lemma TableOnceEach(defs: Definitions, publics: seq<Symbol>, refs: seq<Reference>)
    requires Publics(defs, publics)
    ensures OnceEach(publics + Externals(defs, refs))
  {
    ExternalsAre(defs, refs);
    var added := Externals(defs, refs);
    forall i, j | 0 <= i < j < |publics + added|
      ensures (publics + added)[i].kind != (publics + added)[j].kind || (publics + added)[i].name != (publics + added)[j].name
    {
      if i < |publics| <= j {
        assert publics[i] in publics && added[j - |publics|] in added;
      }
    }
  }

  /** The bytes of all symbols are those of the names that are public or not defined here. */
  lemma ActualSize(defs: Definitions, publics: seq<Symbol>, refs: seq<Reference>)
    requires Publics(defs, publics)
    ensures SymbolsSize(publics + Externals(defs, refs))
            == NamesSize(NamesOf(publics, FunName) + ((ReferredTo(refs, FunName, false) + ReferredTo(refs, FunName, true)) - defs.funs))
             + NamesSize(VarNames(defs, publics, refs))
             + NamesSize(ReferredTo(refs, NativeName, false) + ReferredTo(refs, NativeName, true))
  {
    var added := Externals(defs, refs);
    TableOnceEach(defs, publics, refs);
    SymbolsSizeByNames(publics + added);
    ActualNames(defs, publics, refs);
  }

  lemma ActualNames(defs: Definitions, publics: seq<Symbol>, refs: seq<Reference>)
    requires Publics(defs, publics)
    ensures var all := publics + Externals(defs, refs);
            && NamesOf(all, FunName) == NamesOf(publics, FunName) + ((ReferredTo(refs, FunName, false) + ReferredTo(refs, FunName, true)) - defs.funs)
            && NamesOf(all, VarName) == VarNames(defs, publics, refs)
            && NamesOf(all, NativeName) == ReferredTo(refs, NativeName, false) + ReferredTo(refs, NativeName, true)
  {
    hide ReferredTo, Externals;
    PublicAndExternalNames(publics, Externals(defs, refs), FunName);
    PublicAndExternalNames(publics, Externals(defs, refs), VarName);
    PublicAndExternalNames(publics, Externals(defs, refs), NativeName);
    ExternalNames(defs, refs, FunName);
    ExternalNames(defs, refs, VarName);
    ExternalNames(defs, refs, NativeName);
    assert NamesOf(publics, NativeName) == {};
  }

  lemma NoNames()
    ensures NamesSize({}) == 0
  {
  }

  lemma {:induction false} NamesSizeUnion(a: set<Name>, b: set<Name>)
    ensures NamesSize(a + b) == NamesSize(a) + NamesSize(b - a)
    decreases |b - a|
  {
    hide NamesSize;
    if b - a == {} {
      assert forall x :: x in b ==> x in a || x in b - a;
      assert a + b == a;
      NoNames();
    } else {
      var n :| n in b - a;
      NamesSizeWithout(b - a, n);
      NamesSizeAdd(a, n);
      assert a + {n} + b == a + b && b - (a + {n}) == (b - a) - {n};
      NamesSizeUnion(a + {n}, b);
    }
  }

  /** The size computed beforehand is right exactly if the native functions that only the data refers
      to take as much as those of them that are counted as functions: as those that are neither
      defined here nor counted already. */
  lemma ComputedSizeIsRightExactly(defs: Definitions, publics: seq<Symbol>, refs: seq<Reference>)
    requires Publics(defs, publics)
    ensures var data, code := ReferredTo(refs, NativeName, true), ReferredTo(refs, NativeName, false);
            var funs := NamesOf(publics, FunName) + ((ReferredTo(refs, FunName, false) + ReferredTo(refs, FunName, true)) - defs.funs);
            ComputedSize(defs, publics, refs) == SymbolsSize(publics + Externals(defs, refs))
            <==> NamesSize((data - defs.funs) - funs) == NamesSize(data - code)
  {
    var data, code := ReferredTo(refs, NativeName, true), ReferredTo(refs, NativeName, false);
    var funs := NamesOf(publics, FunName) + ((ReferredTo(refs, FunName, false) + ReferredTo(refs, FunName, true)) - defs.funs);
    ActualSize(defs, publics, refs);
    NamesSizeUnion(code, data);
    NamesSizeUnion(funs, data - defs.funs);
    hide ReferredTo, NamesOf, NamesSize, VarNames;
    assert FunNames(defs, publics, refs) == funs + (data - defs.funs);
  }

  /** Without native functions in the data the size is right. */
  lemma ComputedSizeWithoutNativesInData(defs: Definitions, publics: seq<Symbol>, refs: seq<Reference>)
    requires Publics(defs, publics) && forall r :: r in refs && r.Kind() == NativeName ==> !r.InData()
    ensures ComputedSize(defs, publics, refs) == SymbolsSize(publics + Externals(defs, refs))
  {
    ComputedSizeIsRightExactly(defs, publics, refs);
    assert ReferredTo(refs, NativeName, true) == {};
    var funs := NamesOf(publics, FunName) + ((ReferredTo(refs, FunName, false) + ReferredTo(refs, FunName, true)) - defs.funs);
    assert ({} - defs.funs) - funs == {} && {} - ReferredTo(refs, NativeName, false) == {};
  }

  /** The symbols of the image are those of the table. */
  predicate SameNames(written: seq<F.Symbol>, symbols: seq<Symbol>) {
    |written| == |symbols| && forall j :: 0 <= j < |written| ==> |written[j].name| == |symbols[j].name|
  }

  lemma {:induction false} WrittenSizeNext(written: seq<F.Symbol>, s: F.Symbol)
    ensures F.SymbolsSize(written + [s]) == F.SymbolsSize(written) + Align(7 + |s.name|)
    decreases |written|
  {
    if written == [] {
      assert [] + [s] == [s];
    } else {
      assert (written + [s])[1..] == written[1..] + [s];
      WrittenSizeNext(written[1..], s);
    }
  }

  lemma {:induction false} WrittenSize(written: seq<F.Symbol>, symbols: seq<Symbol>)
    requires SameNames(written, symbols)
    ensures F.SymbolsSize(written) == SymbolsSize(symbols)
    decreases |written|
  {
    if written != [] {
      var n := |written| - 1;
      assert written == written[..n] + [written[n]];
      WrittenSizeNext(written[..n], written[n]);
      WrittenSize(written[..n], symbols[..n]);
    }
  }

  /** One variable that holds the index of a native function of the same name as a function of the
      program: its symbol is not counted. */
  lemma NativeInDataIsNotCounted(name: Name)
    ensures var defs, refs := Definitions({name}, {}), [Reference(RELOC_VAR_NATIVE_FUN, 0, name)];
            ComputedSize(defs, [], refs) == 0 && SymbolsSize([] + Externals(defs, refs)) == SizeOf(name) > 0
  {
    var defs, refs := Definitions({name}, {}), [Reference(RELOC_VAR_NATIVE_FUN, 0, name)];
    assert FunNames(defs, [], refs) == {} && VarNames(defs, [], refs) == {} && ReferredTo(refs, NativeName, false) == {};
    assert refs[..0] == [] && Externals(defs, refs) == [External(NativeName, name)];
    assert [] + Externals(defs, refs) == [External(NativeName, name)];
    assert [External(NativeName, name)][..0] == [];
  }
}
