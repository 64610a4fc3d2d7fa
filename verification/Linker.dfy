/** Loading several programs into one virtual machine (`load` in vm/impl_vm_base.cpp): the names
    that the programs define are collected, the names that they use are checked, and every program
    is relocated to the place of its functions and variables among those of all. */
module Linker {
  import opened Options
  import opened Relocations
  import opened DataLoading

  function FunBase(progs: seq<Program>, i: nat): nat
    requires i <= |progs|
  {
    if i == 0 then 0 else FunBase(progs, i - 1) + |progs[i - 1].funs|
  }

  function VarBase(progs: seq<Program>, i: nat): nat
    requires i <= |progs|
  {
    if i == 0 then 0 else VarBase(progs, i - 1) + |progs[i - 1].vars|
  }

  /** A symbol of a program. */
  datatype Position = Position(i: nat, j: nat)

  predicate IsPosition(progs: seq<Program>, at: Position) {
    at.i < |progs| && at.j < |progs[at.i].symbols|
  }

  function SymbolAt(progs: seq<Program>, at: Position): Symbol
    requires IsPosition(progs, at)
  {
    progs[at.i].symbols[at.j]
  }

  predicate Precedes(a: Position, b: Position) {
    a.i < b.i || (a.i == b.i && a.j < b.j)
  }

  /** A definition of a function or a variable. */
  predicate Defines(progs: seq<Program>, at: Position) {
    IsPosition(progs, at) && SymbolAt(progs, at).defined && !SymbolAt(progs, at).kind.NativeFunSymbol?
  }

  predicate InRange(progs: seq<Program>, at: Position)
    requires IsPosition(progs, at)
  {
    var s := SymbolAt(progs, at);
    s.index < if s.kind.VarSymbol? then |progs[at.i].vars| else |progs[at.i].funs|
  }

  /** The index of a definition among those of all programs. */
  function Target(progs: seq<Program>, at: Position): int
    requires IsPosition(progs, at)
  {
    var s := SymbolAt(progs, at);
    s.index + if s.kind.VarSymbol? then VarBase(progs, at.i) else FunBase(progs, at.i)
  }

  /** A definition that cannot be added: its index is too large, or its name is taken. */
  ghost predicate Bad(progs: seq<Program>, at: Position) {
    Defines(progs, at) && (!InRange(progs, at) || exists other :: Clashes(progs, other, at))
  }

  ghost predicate Clashes(progs: seq<Program>, other: Position, at: Position)
    requires IsPosition(progs, at)
  {
    Defines(progs, other) && InRange(progs, other) && Precedes(other, at)
    && SymbolAt(progs, other).kind == SymbolAt(progs, at).kind && SymbolAt(progs, other).name == SymbolAt(progs, at).name
  }

  /** Where every collected name is defined. */
  type Definitions = map<(SymbolKind, string), Position>

  ghost predicate Collected(progs: seq<Program>, upTo: Position, names: Names, where_: Definitions, ok: bool) {
    && (forall k, n {:trigger (k, n) in where_} :: (k, n) in where_ ==>
          var at := where_[(k, n)];
          && Defines(progs, at) && InRange(progs, at) && Precedes(at, upTo)
          && SymbolAt(progs, at).kind == k && SymbolAt(progs, at).name == n
          && n in TableOf(names, k) && TableOf(names, k)[n] == Target(progs, at))
    && (forall k: SymbolKind, n {:trigger n in TableOf(names, k)} :: !k.NativeFunSymbol? && n in TableOf(names, k) ==> (k, n) in where_)
    && (ok ==> forall at {:trigger Defines(progs, at)} :: Defines(progs, at) && Precedes(at, upTo) ==>
          !Bad(progs, at) && (SymbolAt(progs, at).kind, SymbolAt(progs, at).name) in where_
          && where_[(SymbolAt(progs, at).kind, SymbolAt(progs, at).name)] == at)
    && (!ok ==> exists at :: Bad(progs, at) && Precedes(at, upTo))
  }

  function WithName(names: Names, k: SymbolKind, n: string, index: int): Names {
    match k
    case FunSymbol => names.(funs := names.funs[n := index])
    case VarSymbol => names.(vars := names.vars[n := index])
    case NativeFunSymbol => names
  }

  lemma SkipKeeps(progs: seq<Program>, at: Position, names: Names, where_: Definitions, ok: bool)
    requires Collected(progs, at, names, where_, ok) && IsPosition(progs, at) && !Defines(progs, at)
    ensures Collected(progs, Position(at.i, at.j + 1), names, where_, ok)
  {
    forall b | Precedes(b, Position(at.i, at.j + 1)) ensures b == at || Precedes(b, at) {}
  }

  lemma BadFails(progs: seq<Program>, at: Position, names: Names, where_: Definitions, ok: bool)
    requires Collected(progs, at, names, where_, ok) && Defines(progs, at)
    requires !InRange(progs, at) || SymbolAt(progs, at).name in TableOf(names, SymbolAt(progs, at).kind)
    ensures Collected(progs, Position(at.i, at.j + 1), names, where_, false)
  {
    var s := SymbolAt(progs, at);
    if InRange(progs, at) {
      assert (s.kind, s.name) in where_;
      assert Clashes(progs, where_[(s.kind, s.name)], at);
    }
    assert Bad(progs, at) && Precedes(at, Position(at.i, at.j + 1));
  }

  /** The tables with one more definition. */
  lemma AddKeepsTables(progs: seq<Program>, at: Position, names: Names, where_: Definitions, ok: bool)
    requires Collected(progs, at, names, where_, ok) && Defines(progs, at) && InRange(progs, at)
    requires SymbolAt(progs, at).name !in TableOf(names, SymbolAt(progs, at).kind)
    ensures var s := SymbolAt(progs, at);
            var names', where' := WithName(names, s.kind, s.name, Target(progs, at)), where_[(s.kind, s.name) := at];
            && (s.kind, s.name) !in where_
            && (forall k: SymbolKind, n {:trigger n in TableOf(names', k)} :: !k.NativeFunSymbol? && n in TableOf(names', k) ==> (k, n) in where')
            && (forall k, n {:trigger (k, n) in where'} :: (k, n) in where' ==>
                  n in TableOf(names', k) && TableOf(names', k)[n] == Target(progs, where'[(k, n)]))
  {
    hide Target, InRange, Bad;
    var s := SymbolAt(progs, at);
    var names', where' := WithName(names, s.kind, s.name, Target(progs, at)), where_[(s.kind, s.name) := at];
    assert (s.kind, s.name) !in where_;
    forall k: SymbolKind, n | !k.NativeFunSymbol? && n in TableOf(names', k) ensures (k, n) in where' {
      if k != s.kind || n != s.name { assert n in TableOf(names, k); }
    }
    forall k: SymbolKind, n | (k, n) in where'
      ensures n in TableOf(names', k) && TableOf(names', k)[n] == Target(progs, where'[(k, n)])
    {
      if k != s.kind || n != s.name { assert (k, n) in where_; }
    }
  }

  lemma AddKeeps(progs: seq<Program>, at: Position, names: Names, where_: Definitions, ok: bool)
    requires Collected(progs, at, names, where_, ok) && Defines(progs, at) && InRange(progs, at)
    requires SymbolAt(progs, at).name !in TableOf(names, SymbolAt(progs, at).kind)
    ensures var s := SymbolAt(progs, at);
            Collected(progs, Position(at.i, at.j + 1), WithName(names, s.kind, s.name, Target(progs, at)),
                      where_[(s.kind, s.name) := at], ok)
  {
    AddKeepsTables(progs, at, names, where_, ok);
    hide Target, InRange, WithName;
    var s, next := SymbolAt(progs, at), Position(at.i, at.j + 1);
    var where' := where_[(s.kind, s.name) := at];
    if !ok {
      var b :| Bad(progs, b) && Precedes(b, at);
      assert Precedes(b, next);
    }
    if ok {
      assert !Bad(progs, at) by {
        if other :| Clashes(progs, other, at) { assert false; }
      }
      forall b | Defines(progs, b) && Precedes(b, next)
        ensures !Bad(progs, b) && (SymbolAt(progs, b).kind, SymbolAt(progs, b).name) in where'
                && where'[(SymbolAt(progs, b).kind, SymbolAt(progs, b).name)] == b
      {
        assert b == at || Precedes(b, at);
      }
    }
  }

  lemma CollectedNext(progs: seq<Program>, at: Position, names: Names, where_: Definitions, ok: bool)
    requires Collected(progs, at, names, where_, ok) && IsPosition(progs, at)
    ensures var s, next := SymbolAt(progs, at), Position(at.i, at.j + 1);
            if !Defines(progs, at) then Collected(progs, next, names, where_, ok)
            else if !InRange(progs, at) || s.name in TableOf(names, s.kind) then Collected(progs, next, names, where_, false)
            else Collected(progs, next, WithName(names, s.kind, s.name, Target(progs, at)), where_[(s.kind, s.name) := at], ok)
  {
    hide Collected;
    var s := SymbolAt(progs, at);
    if !Defines(progs, at) {
      SkipKeeps(progs, at, names, where_, ok);
    } else if !InRange(progs, at) || s.name in TableOf(names, s.kind) {
      BadFails(progs, at, names, where_, ok);
    } else {
      AddKeeps(progs, at, names, where_, ok);
    }
  }

  /** After the last symbol of a program comes the first one of the next. */
  lemma CollectedRow(progs: seq<Program>, i: nat, names: Names, where_: Definitions, ok: bool)
    requires i < |progs| && Collected(progs, Position(i, |progs[i].symbols|), names, where_, ok)
    ensures Collected(progs, Position(i + 1, 0), names, where_, ok)
  {
    var row, next := Position(i, |progs[i].symbols|), Position(i + 1, 0);
    forall at | IsPosition(progs, at) ensures Precedes(at, next) <==> Precedes(at, row) {}
    if !ok {
      var b :| Bad(progs, b) && Precedes(b, row);
      assert Bad(progs, b) && Precedes(b, next);
    }
  }

  lemma NothingCollected(progs: seq<Program>, natives: map<string, int>)
    ensures Collected(progs, Position(0, 0), Names(map[], map[], natives), map[], true)
  {
  }

  // ------------------------------------------------------------------ the phases of loading

  /** A use of a function or a variable that some program must define. */
  predicate Uses(progs: seq<Program>, at: Position) {
    IsPosition(progs, at) && !SymbolAt(progs, at).defined && !SymbolAt(progs, at).kind.NativeFunSymbol?
  }

  ghost predicate Provided(progs: seq<Program>, at: Position, names: Names)
    requires IsPosition(progs, at)
  {
    SymbolAt(progs, at).name in TableOf(names, SymbolAt(progs, at).kind)
  }

  /** The names that all programs define, or a failure if some definition is bad. */
  method CollectSymbols(progs: seq<Program>, natives: map<string, int>) returns (ok: bool, names: Names, ghost where_: Definitions)
    ensures Collected(progs, Position(|progs|, 0), names, where_, ok) && names.nativeFuns == natives
  {
    hide Collected;
    ok, names, where_ := true, Names(map[], map[], natives), map[];
    NothingCollected(progs, natives);
    var funOffset, varOffset, i := 0, 0, 0;
    while i < |progs|
      invariant i <= |progs| && funOffset == FunBase(progs, i) && varOffset == VarBase(progs, i)
      invariant Collected(progs, Position(i, 0), names, where_, ok) && names.nativeFuns == natives
    {
      var j := 0;
      while j < |progs[i].symbols|
        invariant j <= |progs[i].symbols|
        invariant Collected(progs, Position(i, j), names, where_, ok) && names.nativeFuns == natives
      {
        var s := progs[i].symbols[j];
        CollectedNext(progs, Position(i, j), names, where_, ok);
        if s.defined && s.kind.FunSymbol? {
          if s.index >= |progs[i].funs| || s.name in names.funs {
            ok := false;
          } else {
            names := names.(funs := names.funs[s.name := funOffset + s.index]);
            where_ := where_[(s.kind, s.name) := Position(i, j)];
          }
        } else if s.defined && s.kind.VarSymbol? {
          if s.index >= |progs[i].vars| || s.name in names.vars {
            ok := false;
          } else {
            names := names.(vars := names.vars[s.name := varOffset + s.index]);
            where_ := where_[(s.kind, s.name) := Position(i, j)];
          }
        }
        j := j + 1;
      }
      CollectedRow(progs, i, names, where_, ok);
      funOffset, varOffset := funOffset + |progs[i].funs|, varOffset + |progs[i].vars|;
      i := i + 1;
    }
  }

  /** Whether every used name is defined somewhere. */
  method CheckSymbols(progs: seq<Program>, names: Names) returns (ok: bool)
    ensures ok <==> forall at :: Uses(progs, at) ==> Provided(progs, at, names)
  {
    ok := true;
    var i := 0;
    while i < |progs|
      invariant i <= |progs|
      invariant ok <==> forall at :: Uses(progs, at) && at.i < i ==> Provided(progs, at, names)
    {
      var j := 0;
      while j < |progs[i].symbols|
        invariant j <= |progs[i].symbols|
        invariant ok <==> forall at :: Uses(progs, at) && (at.i < i || (at.i == i && at.j < j)) ==> Provided(progs, at, names)
      {
        var s := progs[i].symbols[j];
        ghost var here := Position(i, j);
        if !s.defined && s.kind.FunSymbol? && s.name !in names.funs {
          assert Uses(progs, here) && !Provided(progs, here, names);
          ok := false;
        } else if !s.defined && s.kind.VarSymbol? && s.name !in names.vars {
          assert Uses(progs, here) && !Provided(progs, here, names);
          ok := false;
        }
        j := j + 1;
      }
      i := i + 1;
    }
  }

  /** A program relocated to its place among all. */
  function Placed(progs: seq<Program>, i: nat, names: Names): (Program, bool)
    requires i < |progs|
  {
    Relocated(progs[i], FunBase(progs, i), VarBase(progs, i), names)
  }

  method RelocateProgram(p: Program, funOffset: int, varOffset: int, names: Names) returns (p': Program, ok: bool)
    ensures (p', ok) == Relocated(p, funOffset, varOffset, names)
  {
    hide Relocated;
    var loaded := new LoadedProgram(p);
    ok := loaded.Relocate(funOffset, varOffset, names);
    p' := loaded.p;
  }

  method RelocatePrograms(progs: seq<Program>, names: Names) returns (ok: bool, progs': seq<Program>)
    ensures ok <==> forall i :: 0 <= i < |progs| ==> Placed(progs, i, names).1
    ensures ok ==> |progs'| == |progs| && forall i :: 0 <= i < |progs| ==> progs'[i] == Placed(progs, i, names).0
  {
    hide Relocated;
    ok, progs' := true, progs;
    var funOffset, varOffset, i := 0, 0, 0;
    while i < |progs|
      invariant i <= |progs| == |progs'| && funOffset == FunBase(progs, i) && varOffset == VarBase(progs, i)
      invariant ok <==> forall k :: 0 <= k < i ==> Placed(progs, k, names).1
      invariant forall k :: 0 <= k < i ==> progs'[k] == Placed(progs, k, names).0
    {
      var p', done := RelocateProgram(progs[i], funOffset, varOffset, names);
      assert (p', done) == Placed(progs, i, names);
      progs' := progs'[i := p'];
      if !done { ok := false; }
      funOffset, varOffset := funOffset + |progs[i].funs|, varOffset + |progs[i].vars|;
      i := i + 1;
    }
  }

  // ------------------------------------------------------------------ the environment

  /** A function of the virtual machine: the code of a program, at a function of that program. */
  datatype LinkedFunction = LinkedFunction(prog: nat, fun: Function)

  ghost predicate FunsAt(funs: seq<LinkedFunction>, offset: nat, i: nat, p: Program) {
    offset + |p.funs| <= |funs| && forall j :: 0 <= j < |p.funs| ==> funs[offset + j] == LinkedFunction(i, p.funs[j])
  }

  ghost predicate VarsAt(vars: seq<Element>, offset: nat, p: Program, objects: map<nat, nat>) {
    offset + |p.vars| <= |vars|
    && forall j :: 0 <= j < |p.vars| ==> ElementOf(p.vars[j].type_, p.vars[j].i, objects) == Some(vars[offset + j])
  }

  ghost predicate DataAt(heap: seq<HeapObject>, start: nat, p: Program, addrs: seq<nat>, objects: map<nat, nat>) {
    && start + |addrs| <= |heap| && objects.Keys == p.data.Keys
    && (forall k :: 0 <= k < |addrs| ==> addrs[k] in p.data && objects[addrs[k]] == start + k)
    && forall k :: 0 <= k < |addrs| ==> Filled(p.data[addrs[k]], heap[start + k], objects)
  }

  /** What loading finds out: the names, where they are defined, and the object of every address. */
  datatype Link = Link(names: Names, where_: Definitions, objects: seq<map<nat, nat>>, starts: seq<nat>)

  function Values(images: seq<Option<Program>>): seq<Program>
    requires forall i :: 0 <= i < |images| ==> images[i].Some?
  {
    seq(|images|, i requires 0 <= i < |images| => images[i].value)
  }

  predicate AllRelocatable(progs: seq<Program>) {
    forall i :: 0 <= i < |progs| ==> progs[i].relocatable
  }

  /** Relocatable programs are all relocated, with every name defined once and every used name
      defined; one that is not is taken as it is, alone. */
  ghost predicate IsLinked(progs: seq<Program>, linked: seq<Program>, link: Link) {
    |linked| == |progs| &&
    if AllRelocatable(progs) then
      && Collected(progs, Position(|progs|, 0), link.names, link.where_, true)
      && (forall at :: Uses(progs, at) ==> Provided(progs, at, link.names))
      && forall i :: 0 <= i < |progs| ==> Placed(progs, i, link.names) == (linked[i], true)
    else |progs| == 1 && linked == progs
  }

  predicate VariableOk(v: Variable, addrs: set<nat>) {
    v.type_ == VALUE_TYPE_INT || v.type_ == VALUE_TYPE_FLOAT || (v.type_ == VALUE_TYPE_REF && v.i % TWO32 in addrs)
  }

  lemma VariableOkExactly(v: Variable, objects: map<nat, nat>)
    ensures VariableOk(v, objects.Keys) <==> ElementOf(v.type_, v.i, objects).Some?
  {
  }

  /** There is memory for the data of a program, and all its references are to its data. */
  ghost predicate Loadable(p: Program, addrs: seq<nat>, memory: nat) {
    && |addrs| <= memory && (forall a :: a in p.data ==> WellTyped(p.data[a], p.data.Keys))
    && forall j :: 0 <= j < |p.vars| ==> VariableOk(p.vars[j], p.data.Keys)
  }

  /** At most one of the first programs is not a library. */
  ghost predicate OneEntry(progs: seq<Program>, n: nat)
    requires n <= |progs|
  {
    forall i, j :: 0 <= i < j < n ==> progs[i].library || progs[j].library
  }

  /** The first programs can be loaded together. */
  ghost predicate AllLoadable(progs: seq<Program>, n: nat, addrs: seq<seq<nat>>, memory: seq<nat>)
    requires n <= |progs| == |addrs| == |memory|
  {
    (forall i :: 0 <= i < n ==> Loadable(progs[i], addrs[i], memory[i])) && OneEntry(progs, n)
  }

  /** Some definition is bad, some used name is not defined, or some program cannot be relocated. */
  ghost predicate FailsToLink(progs: seq<Program>, link: Link) {
    || (exists at :: Bad(progs, at))
    || (Collected(progs, Position(|progs|, 0), link.names, link.where_, true)
        && ((exists at :: Uses(progs, at) && !Provided(progs, at, link.names))
            || exists i :: 0 <= i < |progs| && !Placed(progs, i, link.names).1))
  }

  /** Why loading fails: an image that the loader rejects, several programs of which one is not
      relocatable, a failure of linking, or a linked program that cannot be loaded. */
  ghost predicate Fails(images: seq<Option<Program>>, linked: seq<Program>, link: Link, addrs: seq<seq<nat>>, memory: seq<nat>)
    requires |addrs| == |memory| == |images|
  {
    || (exists i :: 0 <= i < |images| && images[i].None?)
    || (!AllRelocatable(Values(images)) && |images| > 1)
    || (AllRelocatable(Values(images)) && FailsToLink(Values(images), link))
    || (IsLinked(Values(images), linked, link) && !AllLoadable(linked, |linked|, addrs, memory))
  }

  /** Once the names are collected, a name is provided exactly if some program defines it. */
  lemma ProvidedExactly(progs: seq<Program>, link: Link, at: Position)
    requires Collected(progs, Position(|progs|, 0), link.names, link.where_, true) && Uses(progs, at)
    ensures Provided(progs, at, link.names)
            <==> exists d :: IsDefinition(progs, d, SymbolAt(progs, at).kind, SymbolAt(progs, at).name)
  {
    var k, n := SymbolAt(progs, at).kind, SymbolAt(progs, at).name;
    if Provided(progs, at, link.names) {
      assert (k, n) in link.where_;
      assert IsDefinition(progs, link.where_[(k, n)], k, n);
    }
  }

  lemma AddressesStay(progs: seq<Program>, linked: seq<Program>, names: Names, addrs: seq<seq<nat>>, relocated: bool)
    requires |linked| == |progs| == |addrs| && forall i :: 0 <= i < |progs| ==> Addresses(addrs[i], progs[i].data)
    requires if relocated then forall i :: 0 <= i < |progs| ==> Placed(progs, i, names) == (linked[i], true) else linked == progs
    ensures forall i :: 0 <= i < |progs| ==> Addresses(addrs[i], linked[i].data)
  {
    hide Relocated;
    if relocated {
      forall i | 0 <= i < |progs| ensures Addresses(addrs[i], linked[i].data) {
        assert Placed(progs, i, names) == (linked[i], true);
        RelocatedParts(progs[i], FunBase(progs, i), VarBase(progs, i), names);
        assert linked[i].data.Keys == progs[i].data.Keys;
      }
    }
  }

  class VirtualMachine {
    var funs: seq<LinkedFunction>
    var vars: seq<Element>
    var heap: seq<HeapObject>
    var funInfos: map<nat, FunctionInfo>
    var entry: Option<int>

    constructor ()
      ensures funs == [] && vars == [] && heap == [] && funInfos == map[] && entry == None
    {
      funs, vars, heap, funInfos, entry := [], [], [], map[], None;
    }

    method SetFuns(i: nat, p: Program, offset: nat)
      requires offset + |p.funs| <= |funs|
      modifies this`funs
      ensures |funs| == |old(funs)| && FunsAt(funs, offset, i, p)
      ensures forall k :: 0 <= k < |funs| && !(offset <= k < offset + |p.funs|) ==> funs[k] == old(funs)[k]
    {
      var j := 0;
      while j < |p.funs|
        invariant j <= |p.funs| && |funs| == |old(funs)|
        invariant forall k :: 0 <= k < j ==> funs[offset + k] == LinkedFunction(i, p.funs[k])
        invariant forall k :: 0 <= k < |funs| && !(offset <= k < offset + j) ==> funs[k] == old(funs)[k]
      {
        funs := funs[offset + j := LinkedFunction(i, p.funs[j])];
        j := j + 1;
      }
    }

    method SetVars(p: Program, offset: nat, objects: map<nat, nat>) returns (ok: bool)
      requires offset + |p.vars| <= |vars|
      modifies this`vars
      ensures |vars| == |old(vars)|
      ensures ok <==> forall j :: 0 <= j < |p.vars| ==> VariableOk(p.vars[j], objects.Keys)
      ensures ok ==> VarsAt(vars, offset, p, objects)
      ensures forall k :: 0 <= k < |vars| && !(offset <= k < offset + |p.vars|) ==> vars[k] == old(vars)[k]
    {
      var j := 0;
      while j < |p.vars|
        invariant j <= |p.vars| && |vars| == |old(vars)|
        invariant forall k :: 0 <= k < j ==> ElementOf(p.vars[k].type_, p.vars[k].i, objects) == Some(vars[offset + k])
        invariant forall k :: 0 <= k < j ==> VariableOk(p.vars[k], objects.Keys)
        invariant forall k :: 0 <= k < |vars| && !(offset <= k < offset + j) ==> vars[k] == old(vars)[k]
      {
        var e := ElementOf(p.vars[j].type_, p.vars[j].i, objects);
        VariableOkExactly(p.vars[j], objects);
        if e.None? { return false; }
        vars := vars[offset + j := e.value];
        j := j + 1;
      }
      return true;
    }

    method SetFunInfos(p: Program, offset: nat)
      modifies this`funInfos
      ensures funInfos == InfosAfter(old(funInfos), p.funInfos, offset)
    {
      var k := 0;
      while k < |p.funInfos|
        invariant k <= |p.funInfos| && InfosAfter(funInfos, p.funInfos[k..], offset) == InfosAfter(old(funInfos), p.funInfos, offset)
      {
        var info := p.funInfos[k];
        funInfos := funInfos[offset + info.funIndex := info];
        assert p.funInfos[k..][1..] == p.funInfos[k + 1..];
        k := k + 1;
      }
    }

    /** `load_prog`: the functions, the data, the variables, the entry and the function infos of one
        program. */
    method LoadProgram(i: nat, p: Program, funOffset: nat, varOffset: nat, addrs: seq<nat>, memory: nat)
      returns (ok: bool, ghost objects: map<nat, nat>)
      requires Addresses(addrs, p.data) && funOffset + |p.funs| <= |funs| && varOffset + |p.vars| <= |vars|
      modifies this
      ensures |funs| == |old(funs)| && |vars| == |old(vars)|
      ensures ok <==> Loadable(p, addrs, memory) && (p.library || old(entry).None?)
      ensures ok ==>
                && FunsAt(funs, funOffset, i, p) && VarsAt(vars, varOffset, p, objects)
                && DataAt(heap, |old(heap)|, p, addrs, objects) && |heap| == |old(heap)| + |addrs| && heap[..|old(heap)|] == old(heap)
                && (p.library || old(entry).None?) && entry == (if p.library then old(entry) else Some(p.entry))
                && funInfos == InfosAfter(old(funInfos), p.funInfos, funOffset)
      ensures forall k :: 0 <= k < |funs| && !(funOffset <= k < funOffset + |p.funs|) ==> funs[k] == old(funs)[k]
      ensures forall k :: 0 <= k < |vars| && !(varOffset <= k < varOffset + |p.vars|) ==> vars[k] == old(vars)[k]
    {
      hide Filled, WellTyped;
      SetFuns(i, p, funOffset);
      var renaming: map<nat, nat>;
      ok, heap, renaming := LoadData(heap, p.data, addrs, memory);
      objects := renaming;
      if !ok { return; }
      ok := SetVars(p, varOffset, renaming);
      if !ok { return; }
      if !p.library {
        if entry.Some? { ok := false; return; }
        entry := Some(p.entry);
      }
      SetFunInfos(p, funOffset);
    }

    /** `load`: the programs with their references resolved, one behind the other. */
    method Load(images: seq<Option<Program>>, natives: map<string, int>, addrs: seq<seq<nat>>, memory: seq<nat>)
      returns (ok: bool, linked: seq<Program>, ghost link: Link)
      requires |addrs| == |memory| == |images|
      requires forall i :: 0 <= i < |images| && images[i].Some? ==> Addresses(addrs[i], images[i].value.data)
      modifies this
      ensures ok <==> !Fails(images, linked, link, addrs, memory)
      ensures ok ==>
                && (forall i :: 0 <= i < |images| ==> images[i].Some?)
                && |linked| == |images| && IsLinked(Values(images), linked, link)
                && AllLoaded(Parts(funs, vars, heap), linked, |linked|, addrs, link.objects, link.starts)
                && EntryOf(linked, |linked|, entry)
    {
      hide AllLoaded, EntryOf, Addresses;
      entry := None;
      linked := [];
      link := Link(Names(map[], map[], natives), map[], [], []);
      var relocatable, i := true, 0;
      ok := true;
      while i < |images|
        invariant i <= |images| && (ok ==> |linked| == i)
        invariant ok ==> forall k :: 0 <= k < i ==> images[k].Some? && linked[k] == images[k].value
        invariant ok ==> (relocatable <==> forall k :: 0 <= k < i ==> images[k].value.relocatable)
        invariant ok ==> relocatable || |images| <= 1
        invariant !ok ==> (exists k :: 0 <= k < i && images[k].None?) || (|images| > 1 && exists k :: 0 <= k < i && images[k].Some? && !images[k].value.relocatable)
      {
        if images[i].None? {
          ok := false;
        } else {
          if !images[i].value.relocatable {
            relocatable := false;
            if |images| > 1 { ok := false; }
          }
          linked := linked + [images[i].value];
        }
        i := i + 1;
      }
      if !ok {
        if k :| 0 <= k < |images| && images[k].Some? && !images[k].value.relocatable && forall j :: 0 <= j < |images| ==> images[j].Some? {
          assert !Values(images)[k].relocatable;
        }
        return;
      }
      ghost var progs := linked;
      assert progs == Values(images);
      if relocatable {
        var names: Names;
        ghost var where_: Definitions;
        ok, names, where_ := CollectSymbols(linked, natives);
        link := Link(names, where_, [], []);
        if !ok { return; }
        ok := CheckSymbols(linked, names);
        if !ok { return; }
        ok, linked := RelocatePrograms(linked, names);
        if !ok { return; }
      }
      AddressesStay(progs, linked, link.names, addrs, relocatable);
      ghost var objects, starts;
      ok, objects, starts := LoadPrograms(linked, addrs, memory);
      link := link.(objects := objects, starts := starts);
    }

    /** Loads every program behind the ones before it. */
    method LoadPrograms(progs: seq<Program>, addrs: seq<seq<nat>>, memory: seq<nat>)
      returns (ok: bool, ghost objects: seq<map<nat, nat>>, ghost starts: seq<nat>)
      requires |addrs| == |memory| == |progs| && forall i :: 0 <= i < |progs| ==> Addresses(addrs[i], progs[i].data)
      requires entry.None?
      modifies this
      ensures ok ==> AllLoaded(Parts(funs, vars, heap), progs, |progs|, addrs, objects, starts)
      ensures ok ==> EntryOf(progs, |progs|, entry)
      ensures ok <==> AllLoadable(progs, |progs|, addrs, memory)
    {
      hide FunsAt, VarsAt, DataAt, AllLoaded, Addresses, Loadable, AllLoadable, EntryOf;
      funs := seq(FunBase(progs, |progs|), _ => LinkedFunction(0, Function(0, 0, 0)));
      vars := seq(VarBase(progs, |progs|), _ => Number(0));
      objects, starts := [], [];
      var funOffset, varOffset, i := 0, 0, 0;
      ok := true;
      NothingLoaded(Parts(funs, vars, heap), progs, addrs);
      NoEntryYet(progs, addrs, memory);
      while i < |progs|
        invariant i <= |progs| && funOffset == FunBase(progs, i) && varOffset == VarBase(progs, i)
        invariant |funs| == FunBase(progs, |progs|) && |vars| == VarBase(progs, |progs|)
        invariant ok ==> AllLoaded(Parts(funs, vars, heap), progs, i, addrs, objects, starts)
        invariant ok ==> EntryOf(progs, i, entry)
        invariant ok <==> AllLoadable(progs, i, addrs, memory)
      {
        BasesGrow(progs, i + 1, |progs|);
        ghost var before, entry0 := Parts(funs, vars, heap), entry;
        var done, found := LoadProgram(i, progs[i], funOffset, varOffset, addrs[i], memory[i]);
        AllLoadableNext(progs, i, addrs, memory, entry0, ok, done);
        if done && ok {
          EntryNext(progs, i, entry0, entry);
          AllLoadedNext(before, Parts(funs, vars, heap), progs, i, addrs, objects, starts, found);
          starts := starts + [|before.heap|];
          objects := objects + [found];
        }
        ok := ok && done;
        funOffset, varOffset := funOffset + |progs[i].funs|, varOffset + |progs[i].vars|;
        i := i + 1;
      }
    }
  }

  datatype Parts = Parts(funs: seq<LinkedFunction>, vars: seq<Element>, heap: seq<HeapObject>)

  /** The functions, variables and data of a program are where they belong. */
  ghost predicate LoadedAt(parts: Parts, progs: seq<Program>, i: nat, addrs: seq<nat>, objects: map<nat, nat>, start: nat)
    requires i < |progs|
  {
    && FunsAt(parts.funs, FunBase(progs, i), i, progs[i]) && VarsAt(parts.vars, VarBase(progs, i), progs[i], objects)
    && DataAt(parts.heap, start, progs[i], addrs, objects)
  }

  /** The same of the first programs, whose objects lie behind each other on the heap. */
  ghost predicate AllLoaded(parts: Parts, progs: seq<Program>, n: nat, addrs: seq<seq<nat>>, objects: seq<map<nat, nat>>,
                            starts: seq<nat>)
  {
    && n <= |progs| && |addrs| == |progs| && |objects| == |starts| == n
    && (forall i :: 0 <= i < n ==> LoadedAt(parts, progs, i, addrs[i], objects[i], starts[i]))
    && (forall i, j :: 0 <= i < j < n ==> starts[i] + |addrs[i]| <= starts[j])
  }

  lemma NothingLoaded(parts: Parts, progs: seq<Program>, addrs: seq<seq<nat>>)
    requires |addrs| == |progs|
    ensures AllLoaded(parts, progs, 0, addrs, [], [])
  {
  }

  lemma AllLoadedNext(before: Parts, after: Parts, progs: seq<Program>, i: nat, addrs: seq<seq<nat>>,
                      objects: seq<map<nat, nat>>, starts: seq<nat>, found: map<nat, nat>)
    requires i < |progs| && AllLoaded(before, progs, i, addrs, objects, starts)
    requires LoadedAt(after, progs, i, addrs[i], found, |before.heap|)
    requires |after.funs| == |before.funs| && forall k :: 0 <= k < FunBase(progs, i) ==> after.funs[k] == before.funs[k]
    requires |after.vars| == |before.vars| && forall k :: 0 <= k < VarBase(progs, i) ==> after.vars[k] == before.vars[k]
    requires |before.heap| <= |after.heap| && after.heap[..|before.heap|] == before.heap
    ensures AllLoaded(after, progs, i + 1, addrs, objects + [found], starts + [|before.heap|])
  {
    hide FunsAt, VarsAt;
    forall k | 0 <= k < i ensures LoadedAt(after, progs, k, addrs[k], objects[k], starts[k]) {
      BasesGrow(progs, k + 1, i);
      LayoutStays(before, after, progs, k, addrs[k], objects[k], starts[k]);
    }
  }

  /** What lies elsewhere stays when another program is loaded. */
  lemma LayoutStays(before: Parts, after: Parts, progs: seq<Program>, i: nat, addrs: seq<nat>, objects: map<nat, nat>, start: nat)
    requires i < |progs| && LoadedAt(before, progs, i, addrs, objects, start)
    requires |after.funs| == |before.funs| && forall k :: 0 <= k < FunBase(progs, i + 1) && k < |before.funs| ==> after.funs[k] == before.funs[k]
    requires |after.vars| == |before.vars| && forall k :: 0 <= k < VarBase(progs, i + 1) && k < |before.vars| ==> after.vars[k] == before.vars[k]
    requires |before.heap| <= |after.heap| && after.heap[..|before.heap|] == before.heap
    ensures LoadedAt(after, progs, i, addrs, objects, start)
  {
    forall p | start <= p < start + |addrs| ensures after.heap[p] == before.heap[p] {
      assert after.heap[p] == after.heap[..|before.heap|][p];
    }
  }

  /** At most one of the first programs is not a library, and it gives the entry. */
  ghost predicate EntryOf(progs: seq<Program>, n: nat, entry: Option<int>)
    requires n <= |progs|
  {
    && OneEntry(progs, n)
    && (forall i :: 0 <= i < n && !progs[i].library ==> entry == Some(progs[i].entry))
    && ((forall i :: 0 <= i < n ==> progs[i].library) ==> entry == None)
  }

  lemma {:induction false} BasesGrow(progs: seq<Program>, i: nat, j: nat)
    requires i <= j <= |progs|
    ensures FunBase(progs, i) <= FunBase(progs, j) && VarBase(progs, i) <= VarBase(progs, j)
    decreases j
  {
    if i < j { BasesGrow(progs, i, j - 1); }
  }

  lemma NoEntryYet(progs: seq<Program>, addrs: seq<seq<nat>>, memory: seq<nat>)
    requires |addrs| == |memory| == |progs|
    ensures EntryOf(progs, 0, None) && AllLoadable(progs, 0, addrs, memory)
  {
  }

  lemma EntryNext(progs: seq<Program>, i: nat, before: Option<int>, after: Option<int>)
    requires i < |progs| && EntryOf(progs, i, before) && (progs[i].library || before.None?)
    requires after == if progs[i].library then before else Some(progs[i].entry)
    ensures EntryOf(progs, i + 1, after)
  {
  }

  lemma AllLoadableNext(progs: seq<Program>, i: nat, addrs: seq<seq<nat>>, memory: seq<nat>, entry: Option<int>, ok: bool, done: bool)
    requires |addrs| == |memory| == |progs| && i < |progs|
    requires (ok ==> EntryOf(progs, i, entry)) && (ok <==> AllLoadable(progs, i, addrs, memory))
    requires done <==> Loadable(progs[i], addrs[i], memory[i]) && (progs[i].library || entry.None?)
    ensures ok && done <==> AllLoadable(progs, i + 1, addrs, memory)
  {
    hide Loadable;
  }

  function InfosAfter(infos: map<nat, FunctionInfo>, added: seq<FunctionInfo>, offset: nat): map<nat, FunctionInfo>
    decreases |added|
  {
    if added == [] then infos else InfosAfter(infos[offset + added[0].funIndex := added[0]], added[1..], offset)
  }

  // ------------------------------------------------------------------ what references denote

  /** A program as the loader made it, whose relocations are about different places. */
  ghost predicate Fresh(p: Program) {
    p.funOffset == 0 && p.varOffset == 0 && Distinct(p, p.relocs)
  }

  lemma PlaceIsRelocated(progs: seq<Program>, names: Names, i: nat, k: nat)
    requires i < |progs| && Fresh(progs[i]) && k < |progs[i].relocs| && Placed(progs, i, names).1
    ensures var p, q, r := progs[i], Placed(progs, i, names).0, progs[i].relocs[k];
            && PlaceOf(p, r).Some? && IsPlace(q, PlaceOf(p, r).value)
            && NewRaw(p, r, PlaceOf(p, r).value, FunBase(progs, i), VarBase(progs, i), names)
               == Some(Get(q, PlaceOf(p, r).value))
  {
    hide PlaceOf, NewRaw, Distinct;
    RelocatedParts(progs[i], FunBase(progs, i), VarBase(progs, i), names);
    RelocatedAt(progs[i], progs[i].relocs, FunBase(progs, i), VarBase(progs, i), names, k);
  }

  lemma LocalIndexShifted(p: Program, r: Relocation, at: Place, funOffset: nat, varOffset: nat, names: Names)
    requires PlaceOf(p, r) == Some(at) && !r.symbolic && !IsNative(r.kind) && p.funOffset == 0 && p.varOffset == 0
    requires NewRaw(p, r, at, funOffset, varOffset, names).Some?
    requires 0 <= Get(p, at) < if IsVar(r.kind) then TWO32 else TWO31
    requires funOffset + TWO32 <= TWO64 && varOffset + TWO32 <= TWO64
    ensures NewRaw(p, r, at, funOffset, varOffset, names) == Some(Get(p, at) + if IsVar(r.kind) then varOffset else funOffset)
  {
  }

  /** A local reference to a function denotes the same function of its program as before, at the
      index shifted by the functions of the programs before it. */
  lemma LocalFunctionKept(progs: seq<Program>, linked: seq<Program>, link: Link, parts: Parts, addrs: seq<seq<nat>>,
                          i: nat, k: nat, at: Place)
    requires IsLinked(progs, linked, link) && AllRelocatable(progs) && AllLoaded(parts, linked, |linked|, addrs, link.objects, link.starts)
    requires i < |progs| && Fresh(progs[i]) && k < |progs[i].relocs| && PlaceOf(progs[i], progs[i].relocs[k]) == Some(at)
    requires !progs[i].relocs[k].symbolic && SymbolKindOf(progs[i].relocs[k].kind) == FunSymbol
    requires 0 <= Get(progs[i], at) < |progs[i].funs| <= TWO31
    requires FunBase(progs, i) + TWO32 <= TWO64 && VarBase(progs, i) + TWO32 <= TWO64
    ensures IsPlace(linked[i], at) && Get(linked[i], at) == FunBase(progs, i) + Get(progs[i], at)
    ensures 0 <= Get(linked[i], at) < |parts.funs|
            && parts.funs[Get(linked[i], at)] == LinkedFunction(i, progs[i].funs[Get(progs[i], at)])
  {
    hide PlaceOf, NewRaw, Collected, AllLoaded, Distinct;
    assert Placed(progs, i, link.names) == (linked[i], true);
    PlaceIsRelocated(progs, link.names, i, k);
    LocalIndexShifted(progs[i], progs[i].relocs[k], at, FunBase(progs, i), VarBase(progs, i), link.names);
    BasesSame(progs, linked, link.names, i);
    FunctionFound(parts, linked, addrs, link, i, Get(progs[i], at));
  }

  lemma FunctionFound(parts: Parts, linked: seq<Program>, addrs: seq<seq<nat>>, link: Link, i: nat, j: nat)
    requires AllLoaded(parts, linked, |linked|, addrs, link.objects, link.starts) && i < |linked| && j < |linked[i].funs|
    ensures FunBase(linked, i) + j < |parts.funs| && parts.funs[FunBase(linked, i) + j] == LinkedFunction(i, linked[i].funs[j])
  {
    assert LoadedAt(parts, linked, i, addrs[i], link.objects[i], link.starts[i]);
  }

  lemma VariableFound(parts: Parts, linked: seq<Program>, addrs: seq<seq<nat>>, link: Link, i: nat, j: nat)
    requires AllLoaded(parts, linked, |linked|, addrs, link.objects, link.starts) && i < |linked| && j < |linked[i].vars|
    ensures VarBase(linked, i) + j < |parts.vars|
    ensures Some(parts.vars[VarBase(linked, i) + j]) == ElementOf(linked[i].vars[j].type_, linked[i].vars[j].i, link.objects[i])
  {
    assert LoadedAt(parts, linked, i, addrs[i], link.objects[i], link.starts[i]);
  }

  /** The same for variables. */
  lemma LocalVariableKept(progs: seq<Program>, linked: seq<Program>, link: Link, parts: Parts, addrs: seq<seq<nat>>,
                          i: nat, k: nat, at: Place)
    requires IsLinked(progs, linked, link) && AllRelocatable(progs) && AllLoaded(parts, linked, |linked|, addrs, link.objects, link.starts)
    requires i < |progs| && Fresh(progs[i]) && k < |progs[i].relocs| && PlaceOf(progs[i], progs[i].relocs[k]) == Some(at)
    requires !progs[i].relocs[k].symbolic && SymbolKindOf(progs[i].relocs[k].kind) == VarSymbol
    requires 0 <= Get(progs[i], at) < |progs[i].vars| <= TWO32
    requires FunBase(progs, i) + TWO32 <= TWO64 && VarBase(progs, i) + TWO32 <= TWO64
    ensures IsPlace(linked[i], at) && Get(linked[i], at) == VarBase(progs, i) + Get(progs[i], at)
    ensures 0 <= Get(linked[i], at) < |parts.vars| && |linked[i].vars| == |progs[i].vars|
    ensures var v := linked[i].vars[Get(progs[i], at)];
            Some(parts.vars[Get(linked[i], at)]) == ElementOf(v.type_, v.i, link.objects[i])
  {
    hide PlaceOf, NewRaw, Collected, AllLoaded, Distinct;
    assert Placed(progs, i, link.names) == (linked[i], true);
    PlaceIsRelocated(progs, link.names, i, k);
    LocalIndexShifted(progs[i], progs[i].relocs[k], at, FunBase(progs, i), VarBase(progs, i), link.names);
    BasesSame(progs, linked, link.names, i);
    VariableFound(parts, linked, addrs, link, i, Get(progs[i], at));
  }

  /** Relocation keeps the number of functions and variables. */
  lemma {:induction false} BasesSame(progs: seq<Program>, linked: seq<Program>, names: Names, i: nat)
    requires |linked| == |progs| && i < |progs|
    requires forall k :: 0 <= k < |progs| ==> Placed(progs, k, names) == (linked[k], true)
    ensures FunBase(linked, i) == FunBase(progs, i) && VarBase(linked, i) == VarBase(progs, i)
    ensures linked[i].funs == progs[i].funs && |linked[i].vars| == |progs[i].vars|
    decreases i
  {
    hide Relocated;
    assert Placed(progs, i, names) == (linked[i], true);
    RelocatedParts(progs[i], FunBase(progs, i), VarBase(progs, i), names);
    if i > 0 { BasesSame(progs, linked, names, i - 1); }
  }

  /** The place of a symbolic relocation holds the index of the definition of its name. */
  lemma SymbolTarget(progs: seq<Program>, link: Link, i: nat, k: nat, at: Place) returns (d: Position)
    requires Collected(progs, Position(|progs|, 0), link.names, link.where_, true)
    requires i < |progs| && Fresh(progs[i]) && k < |progs[i].relocs| && PlaceOf(progs[i], progs[i].relocs[k]) == Some(at)
    requires Placed(progs, i, link.names).1 && progs[i].relocs[k].symbolic && !IsNative(progs[i].relocs[k].kind)
    ensures progs[i].relocs[k].symbol < |progs[i].symbols|
    ensures var r := progs[i].relocs[k];
            OnlyDefinition(progs, d, SymbolKindOf(r.kind), progs[i].symbols[r.symbol].name)
    ensures var q := Placed(progs, i, link.names).0; IsPlace(q, at) && Get(q, at) == Target(progs, d)
  {
    var p, r := progs[i], progs[i].relocs[k];
    PlaceIsRelocated(progs, link.names, i, k);
    hide PlaceOf, Placed, Distinct, Target;
    var kind, name := SymbolKindOf(r.kind), p.symbols[r.symbol].name;
    assert name in TableOf(link.names, kind);
    d := link.where_[(kind, name)];
    DefinedOnce(progs, link, d, kind, name);
  }

  /** The function or variable that a definition defines is at its target. */
  ghost predicate Denotes(progs: seq<Program>, linked: seq<Program>, parts: Parts, link: Link, d: Position)
    requires Defines(progs, d) && InRange(progs, d)
  {
    var x := SymbolAt(progs, d).index;
    if SymbolAt(progs, d).kind.FunSymbol? then
      Target(progs, d) < |parts.funs| && parts.funs[Target(progs, d)] == LinkedFunction(d.i, progs[d.i].funs[x])
    else
      && Target(progs, d) < |parts.vars| && |linked| == |progs| == |link.objects| && |linked[d.i].vars| == |progs[d.i].vars|
      && Some(parts.vars[Target(progs, d)]) == ElementOf(linked[d.i].vars[x].type_, linked[d.i].vars[x].i, link.objects[d.i])
  }

  lemma DefinitionDenotes(progs: seq<Program>, linked: seq<Program>, link: Link, parts: Parts, addrs: seq<seq<nat>>, d: Position)
    requires |linked| == |progs| && forall i :: 0 <= i < |progs| ==> Placed(progs, i, link.names) == (linked[i], true)
    requires AllLoaded(parts, linked, |linked|, addrs, link.objects, link.starts) && Defines(progs, d) && InRange(progs, d)
    ensures Denotes(progs, linked, parts, link, d)
  {
    hide Placed;
    BasesSame(progs, linked, link.names, d.i);
    if SymbolAt(progs, d).kind.FunSymbol? {
      FunctionFound(parts, linked, addrs, link, d.i, SymbolAt(progs, d).index);
    } else {
      VariableFound(parts, linked, addrs, link, d.i, SymbolAt(progs, d).index);
    }
  }

  /** A symbolic reference denotes the one definition of its name in all programs. */
  lemma SymbolResolved(progs: seq<Program>, linked: seq<Program>, link: Link, parts: Parts, addrs: seq<seq<nat>>,
                       i: nat, k: nat, at: Place) returns (d: Position)
    requires IsLinked(progs, linked, link) && AllRelocatable(progs) && AllLoaded(parts, linked, |linked|, addrs, link.objects, link.starts)
    requires i < |progs| && Fresh(progs[i]) && k < |progs[i].relocs| && PlaceOf(progs[i], progs[i].relocs[k]) == Some(at)
    requires progs[i].relocs[k].symbolic && !IsNative(progs[i].relocs[k].kind)
    ensures progs[i].relocs[k].symbol < |progs[i].symbols|
    ensures var r := progs[i].relocs[k];
            OnlyDefinition(progs, d, SymbolKindOf(r.kind), progs[i].symbols[r.symbol].name)
    ensures IsPlace(linked[i], at) && Get(linked[i], at) == Target(progs, d) && Denotes(progs, linked, parts, link, d)
  {
    hide PlaceOf, Placed, Distinct, AllLoaded, Collected, Denotes;
    assert Placed(progs, i, link.names) == (linked[i], true);
    d := SymbolTarget(progs, link, i, k, at);
    DefinitionDenotes(progs, linked, link, parts, addrs, d);
  }

  ghost predicate IsDefinition(progs: seq<Program>, at: Position, kind: SymbolKind, name: string) {
    Defines(progs, at) && InRange(progs, at) && SymbolAt(progs, at).kind == kind && SymbolAt(progs, at).name == name
  }

  ghost predicate OnlyDefinition(progs: seq<Program>, d: Position, kind: SymbolKind, name: string) {
    IsDefinition(progs, d, kind, name) && forall other :: IsDefinition(progs, other, kind, name) ==> other == d
  }

  lemma DefinedOnce(progs: seq<Program>, link: Link, d: Position, kind: SymbolKind, name: string)
    requires Collected(progs, Position(|progs|, 0), link.names, link.where_, true)
    requires (kind, name) in link.where_ && link.where_[(kind, name)] == d
    ensures OnlyDefinition(progs, d, kind, name) && TableOf(link.names, kind)[name] == Target(progs, d)
  {
  }

  lemma LibrarySame(progs: seq<Program>, names: Names, i: nat)
    requires i < |progs| && Placed(progs, i, names).1
    ensures var q := Placed(progs, i, names).0;
            q.library == progs[i].library
            && q.entry == (if q.library then progs[i].entry else (progs[i].entry - progs[i].funOffset + FunBase(progs, i)) % TWO64)
  {
    hide Relocated;
    RelocatedEntry(progs[i], FunBase(progs, i), VarBase(progs, i), names);
  }

  /** The entry denotes the function it denoted in its program, the only one that is no library. */
  lemma EntryKept(progs: seq<Program>, linked: seq<Program>, link: Link, parts: Parts, addrs: seq<seq<nat>>, entry: Option<int>, i: nat)
    requires IsLinked(progs, linked, link) && AllRelocatable(progs) && AllLoaded(parts, linked, |linked|, addrs, link.objects, link.starts)
    requires i < |progs| && !progs[i].library && EntryOf(linked, |linked|, entry)
    requires progs[i].funOffset == 0 && 0 <= progs[i].entry < |progs[i].funs| && FunBase(progs, |progs|) <= TWO64
    ensures entry == Some(FunBase(progs, i) + progs[i].entry) && FunBase(progs, i) + progs[i].entry < |parts.funs|
    ensures parts.funs[FunBase(progs, i) + progs[i].entry] == LinkedFunction(i, progs[i].funs[progs[i].entry])
    ensures forall j :: 0 <= j < |progs| && j != i ==> progs[j].library
  {
    hide Placed, Collected, AllLoaded;
    BasesGrow(progs, i + 1, |progs|);
    forall j | 0 <= j < |progs| ensures linked[j].library == progs[j].library {
      LibrarySame(progs, link.names, j);
    }
    LibrarySame(progs, link.names, i);
    BasesSame(progs, linked, link.names, i);
    FunctionFound(parts, linked, addrs, link, i, progs[i].entry);
  }

  // ------------------------------------------------------------------ the data of all programs

  lemma DataIsLoaded(parts: Parts, linked: seq<Program>, addrs: seq<seq<nat>>, link: Link, i: nat) returns (start: nat)
    requires AllLoaded(parts, linked, |linked|, addrs, link.objects, link.starts) && i < |linked|
    ensures i < |addrs| && i < |link.objects| && start + |addrs[i]| <= |parts.heap|
    ensures Loaded(parts.heap[..start], linked[i].data, addrs[i], parts.heap[..start + |addrs[i]|], link.objects[i])
  {
    hide Filled;
    assert LoadedAt(parts, linked, i, addrs[i], link.objects[i], link.starts[i]);
    start := link.starts[i];
  }

  /** The heap holds the data section of every linked program. */
  lemma LinkedDataLoaded(parts: Parts, linked: seq<Program>, addrs: seq<seq<nat>>, link: Link, i: nat, a: nat, j: nat)
    requires AllLoaded(parts, linked, |linked|, addrs, link.objects, link.starts) && i < |linked|
    requires Addresses(addrs[i], linked[i].data) && a in linked[i].data && j < |linked[i].data[a].elems|
    ensures a in link.objects[i] && link.objects[i][a] < |parts.heap| && link.objects[i].Keys == linked[i].data.Keys
    ensures var d, h := linked[i].data[a], parts.heap[link.objects[i][a]];
            && h.type_ == d.type_ && |h.elems| == |d.elems|
            && (if ElemType(d, j) == VALUE_TYPE_REF then
                  forall b :: b in linked[i].data ==> (h.elems[j] == Reference(link.objects[i][b]) <==> d.elems[j] % TWO32 == b)
                else h.elems[j] == Number(d.elems[j]))
  {
    hide AllLoaded, Addresses;
    var start := DataIsLoaded(parts, linked, addrs, link, i);
    LoadedIsomorphic(parts.heap[..start], linked[i].data, addrs[i], parts.heap[..start + |addrs[i]|], link.objects[i], a, j);
    LoadedKeys(parts.heap[..start], linked[i].data, addrs[i], parts.heap[..start + |addrs[i]|], link.objects[i]);
  }

  lemma LoadedKeys(heap: seq<HeapObject>, data: map<nat, DataObject>, addrs: seq<nat>, heap': seq<HeapObject>, objects: map<nat, nat>)
    requires Loaded(heap, data, addrs, heap', objects)
    ensures objects.Keys == data.Keys
  {
  }

  /** No relocation is about an element that is not a number. */
  lemma OnlyNumbersRelocated(p: Program, r: Relocation, a: nat, j: nat)
    requires PlaceOf(p, r) == Some(InElem(a, j))
    ensures a in p.data && j < |p.data[a].elems| && ElemType(p.data[a], j) == VALUE_TYPE_INT
  {
  }

  lemma ReferencesStay(p: Program, funOffset: int, varOffset: int, names: Names, a: nat, j: nat)
    requires Relocated(p, funOffset, varOffset, names).1 && a in p.data && j < |p.data[a].elems|
    ensures var d := Relocated(p, funOffset, varOffset, names).0.data;
            && d.Keys == p.data.Keys && d[a].type_ == p.data[a].type_ && |d[a].elems| == |p.data[a].elems|
            && ElemType(d[a], j) == ElemType(p.data[a], j)
            && (ElemType(p.data[a], j) != VALUE_TYPE_INT ==> d[a].elems[j] == p.data[a].elems[j])
  {
    hide Relocated, PlaceOf;
    RelocatedParts(p, funOffset, varOffset, names);
    if ElemType(p.data[a], j) != VALUE_TYPE_INT {
      forall k | 0 <= k < |p.relocs| ensures PlaceOf(p, p.relocs[k]) != Some(InElem(a, j)) {
        if PlaceOf(p, p.relocs[k]) == Some(InElem(a, j)) { OnlyNumbersRelocated(p, p.relocs[k], a, j); }
      }
      UntouchedStays(p, p.relocs, funOffset, varOffset, names, InElem(a, j));
    }
  }

  /** After loading any number of programs the heap is isomorphic to the data section of each: every
      data object has an object of its type and length, whose references lead to the objects of the
      data objects at the addresses that the program had, and whose other elements are the linked
      ones. */
  lemma DataKept(progs: seq<Program>, linked: seq<Program>, link: Link, parts: Parts, addrs: seq<seq<nat>>, i: nat, a: nat, j: nat)
    requires IsLinked(progs, linked, link) && AllLoaded(parts, linked, |linked|, addrs, link.objects, link.starts)
    requires i < |progs| && Addresses(addrs[i], linked[i].data) && a in progs[i].data && j < |progs[i].data[a].elems|
    ensures a in linked[i].data && a in link.objects[i] && link.objects[i][a] < |parts.heap|
    ensures link.objects[i].Keys == progs[i].data.Keys
    ensures var d, h := progs[i].data[a], parts.heap[link.objects[i][a]];
            && h.type_ == d.type_ && |h.elems| == |d.elems| == |linked[i].data[a].elems|
            && (if ElemType(d, j) == VALUE_TYPE_REF then
                  forall b :: b in progs[i].data ==> (h.elems[j] == Reference(link.objects[i][b]) <==> d.elems[j] % TWO32 == b)
                else h.elems[j] == Number(linked[i].data[a].elems[j]))
  {
    hide AllLoaded, Addresses, Collected, Relocated, Provided, ElemType;
    if AllRelocatable(progs) {
      assert Placed(progs, i, link.names) == (linked[i], true);
      ReferencesStay(progs[i], FunBase(progs, i), VarBase(progs, i), link.names, a, j);
    }
    LinkedDataLoaded(parts, linked, addrs, link, i, a, j);
  }
}
