/** A compiled program all the way through: the loader reads back the functions with their
    instructions, the variables with their trees of objects, the relocations, the symbols and the
    function infos of the source. */
module CompiledReading {
  import opened Options
  import opened Bytes
  import opened ParseTrees
  import opened Labels
  import opened Instructions
  import opened DefinitionTable
  import opened CodeGeneration
  import opened ObjectGraphLayout
  import opened SymbolTable
  import opened Compiler
  import opened CompiledImages
  import F = ImageFormat
  import ImageReading
  import LP = LoadedPrograms
  import ImageWriter
  import R = ImageRoundTrip

  // ------------------------------------------------------------------ instructions

  /** A word is read as the instruction of its line; of the number of local variables, 258 is read as
      2. A jump leads to its label: `ip` runs behind it when the distance is added. */
  ghost predicate InstrReadBack(env: Environment, lines: seq<Line>, j: nat, word: F.Instruction)
    requires j < |lines| && lines[j].instr.Some?
  {
    var instr, lowered, read := lines[j].instr.value, LowerLine(env, lines, j), Decode(word);
    && lowered.Some? && read.Some? && read.value.(localVarCount := lowered.value.localVarCount) == lowered.value
    && (read == lowered <==> !(instr.instr.LETTUPLE? && instr.localVarCount == Some(258)))
    && match TargetOf(instr)
       case Some(name) =>
         OffsetOf(read.value).Some? && LeadsTo(lines, InstrCount(lines, j), OffsetOf(read.value).value, name)
       case None => OffsetOf(read.value).None?
  }

  lemma {:induction false} OffsetIgnoresCount(l: Lowered, count: bv32)
    ensures OffsetOf(l.(localVarCount := count)) == OffsetOf(l)
  {
  }

  lemma {:induction false} EncodedReadsBack(env: Environment, lines: seq<Line>, j: nat)
    requires j < |lines| && lines[j].instr.Some? && LowerLine(env, lines, j).Some? && OpsFit(env)
    requires InstrCount(lines, |lines|) < TWO32
    ensures InstrReadBack(env, lines, j, Encode(LowerLine(env, lines, j).value))
  {
    var instr, labels, ip := lines[j].instr.value, LabelAddrs(lines, |lines|), InstrCount(lines, j);
    var lowered := LowerLine(env, lines, j).value;
    LoweredFits(env, labels, ip, instr);
    LoweredJumps(env, labels, ip, instr);
    InstructionRoundTripsExactly(lowered);
    CountIsFine(env, labels, ip, instr);
    OffsetIgnoresCount(Decode(Encode(lowered)).value, lowered.localVarCount);
    if TargetOf(instr).Some? { DistanceLeads(lines, ip, TargetOf(instr).value); }
    hide Lower, Encode, Decode, LeadsTo, OffsetOf, TargetOf, LabelAddrs, InstrCount, OpsFit, Distance;
  }

  lemma {:induction false} CountIsFine(env: Environment, labels: map<Name, nat>, ip: nat, instr: Instruction)
    requires OpsFit(env) && Lower(env, labels, ip, instr).Some?
    ensures 2 <= Lower(env, labels, ip, instr).value.localVarCount <= 257
            <==> !(instr.instr.LETTUPLE? && instr.localVarCount == Some(258))
  {
    LoweredFits(env, labels, ip, instr);
    if instr.instr.LETTUPLE? {
      assert LowerWithOp(env, instr, INSTR_LETTUPLE).Some?;
    }
    hide LowerArgs, OpsFit, LowerJc, LowerJump, LowerThrow, LowerPop, LowerWithoutOp;
  }

  // ------------------------------------------------------------------ functions

  /** A function is read with its arguments and, at its address, with the instruction of every line. */
  ghost predicate FunctionReadBack(env: Environment, f: Function, record: F.Function, code: seq<F.Instruction>) {
    && record.argCount == f.argCount && record.instrCount == InstrCount(f.lines, |f.lines|)
    && record.addr + record.instrCount <= |code|
    && forall j :: 0 <= j < |f.lines| && f.lines[j].instr.Some? ==>
         && InstrCount(f.lines, j) < record.instrCount
         && InstrReadBack(env, f.lines, j, code[record.addr + InstrCount(f.lines, j)])
  }

  lemma {:induction false} LineReadsBack(env: Environment, lines: seq<Line>, j: nat, code: seq<F.Instruction>)
    requires j < |lines| && lines[j].instr.Some? && OpsFit(env) && CodeOf(env, lines, |lines|, code) && |code| < TWO32
    ensures InstrCount(lines, j) < |code| && InstrReadBack(env, lines, j, code[InstrCount(lines, j)])
  {
    hide InstrReadBack, LowerLine, Encode, OpsFit, InstrCount;
    EncodedReadsBack(env, lines, j);
  }

  lemma {:induction false} CodeReadsBack(env: Environment, f: Function, record: F.Function, code: seq<F.Instruction>, end: nat)
    requires OpsFit(env) && record.addr <= end <= |code| && CodeOf(env, f.lines, |f.lines|, code[record.addr..end])
    requires record.argCount == f.argCount && record.addr + record.instrCount == end && end < TWO32
    ensures FunctionReadBack(env, f, record, code)
  {
    hide InstrReadBack, InstrCount, OpsFit, CodeOf;
    SizeOfCode(env, f.lines, code[record.addr..end]);
    forall j | 0 <= j < |f.lines| && f.lines[j].instr.Some?
      ensures InstrCount(f.lines, j) < record.instrCount && InstrReadBack(env, f.lines, j, code[record.addr + InstrCount(f.lines, j)])
    {
      LineReadsBack(env, f.lines, j, code[record.addr..end]);
      assert code[record.addr..end][InstrCount(f.lines, j)] == code[record.addr + InstrCount(f.lines, j)];
    }
  }

  lemma {:induction false} FunctionsReadBack(env: Environment, funs: seq<Function>, order: seq<nat>, code: seq<F.Instruction>,
                                             records: seq<F.Function>, i: nat)
    requires IsOrder(order, |funs|) && Generated(env, funs, order, |funs|, code, records) && i < |funs|
    requires CodeAddr(funs, order, |funs|) < TWO32 && OpsFit(env)
    ensures |records| == |funs| && FunctionReadBack(env, funs[i], records[i], code)
  {
    hide *;
    var k := PlaceOf(order, |funs|, i);
    GeneratedAt(env, funs, order, code, records, k);
    RecordFields(funs, order, k);
    OrderAt(funs, order, k);
    CodeIsAt(env, funs, order, k, code);
    CodeReadsBack(env, funs[i], records[i], code, CodeAddr(funs, order, k + 1));
  }

  lemma {:induction false} CodeIsAt(env: Environment, funs: seq<Function>, order: seq<nat>, k: nat, code: seq<F.Instruction>)
    requires IsOrder(order, |funs|) && k < |funs| && CodeAt(env, funs, order, k, code)
    ensures var lines, start, end := FunAt(funs, order, k).lines, CodeAddr(funs, order, k), CodeAddr(funs, order, k + 1);
            start <= end <= |code| && CodeOf(env, lines, |lines|, code[start..end])
  {
    hide CodeOf, IsOrder, FunAt;
    AddrsGrow(funs, order, k, k + 1);
  }

  // ------------------------------------------------------------------ variables

  lemma {:induction false} ObjectsArePlaced(env: Environment, list: seq<Object>, objects: seq<F.Object>, addrs: map<nat, nat>)
    requires LaidOut(env, list, objects, addrs) && |objects| == |list|
    ensures Placed(list, objects, LP.DataOf(R.Addresses(objects, 0), objects))
  {
    AddressesAreKept(env, list, objects, addrs);
    hide LaidOut, R.Addresses, LP.DataOf, AddressOf;
    var at := R.Addresses(objects, 0);
    forall j, k | 0 <= j < k < |list| ensures AddressOf(list, j) < AddressOf(list, k) {
      AddressesGrow(list, j, k);
    }
    forall k | 0 <= k < |list| ensures AddressOf(list, k) in LP.DataOf(at, objects) && LP.DataOf(at, objects)[AddressOf(list, k)] == objects[k] {
      LP.DataOfAt(at, objects, k);
    }
  }

  /** A variable is read with its bits, or with the address at which its whole tree lies. */
  ghost predicate VariableReadBack(env: Environment, v: Value, record: F.Value, data: map<nat, F.Object>) {
    && InRange(env, TUPLE, v) && record.type_ == TypeOf(v)
    && if v.RefValue? then Represents(env, data, record.i, v.object_) else record.i == ValueBits(env, v, map[])
  }

  lemma {:induction false} VariablesReadBack(env: Environment, values: seq<Value>, order: seq<nat>, vars: seq<F.Value>,
                                             objects: seq<F.Object>, i: nat)
    requires IsOrder(order, |values|) && VarsWellTyped(values, order, |values|) && i < |values|
    requires DistinctIds(ListedVars(values, order, |values|))
    requires var list := ListedVars(values, order, |values|);
             && AddressOf(list, |list|) < TWO32 && VarsGenerated(env, values, order, AddrsOf(list, |list|), |values|, vars)
             && |objects| == |list| && LaidOut(env, list, objects, AddrsOf(list, |list|))
    ensures |vars| == |values| && VariableReadBack(env, values[i], vars[i], LP.DataOf(R.Addresses(objects, 0), objects))
  {
    hide *;
    var list, data := ListedVars(values, order, |values|), LP.DataOf(R.Addresses(objects, 0), objects);
    VarIs(env, values, order, vars, i);
    if values[i].RefValue? {
      var at :| 0 <= at < |list| && list[at] == values[i].object_ && vars[i].i == AddressOf(list, at);
      ListedVarsWellTyped(values, order, |values|);
      ObjectsArePlaced(env, list, objects, AddrsOf(list, |list|));
      LaidOutRepresents(env, list, objects, data, at);
    }
    IsReadBack(env, values[i], vars[i], data);
  }

  lemma {:induction false} IsReadBack(env: Environment, v: Value, record: F.Value, data: map<nat, F.Object>)
    requires InRange(env, TUPLE, v) && record.type_ == TypeOf(v)
    requires if v.RefValue? then Represents(env, data, record.i, v.object_) else record.i == ValueBits(env, v, map[])
    ensures VariableReadBack(env, v, record, data)
  {
    hide Represents, InRange, ValueBits;
  }

  // ------------------------------------------------------------------ the program

  ghost predicate ProgramReadBack(src: Source, l: ImageReading.Loaded)
    requires Walks(src)
  {
    var env := EnvironmentOf(src);
    && EntryCompiled(src, l.flags, l.entry)
    && |l.funs| == |Functions(src)| && (forall i :: 0 <= i < |l.funs| ==> FunctionReadBack(env, Functions(src)[i], l.funs[i], l.code))
    && |l.addrs| == |l.objects| && |l.vars| == |Variables(src)|
    && (forall i :: 0 <= i < |l.vars| ==> VariableReadBack(env, Variables(src)[i], l.vars[i], LP.DataOf(l.addrs, l.objects)))
    && SymbolsCompiled(src, l.relocs, l.symbols)
    && l.infos == Infos(src.defs)
  }

  /** The compiler and the loader: the image of a source is accepted if and only if the function that
      comes last has an instruction (or there is none), and then all of the source is read back: every
      function with its instructions, jumps leading to their labels, every variable with its tree of
      objects, a relocation for every reference in its place, the symbols that these name, and the
      infos of the functions. */
  lemma {:induction false} CompiledIsReadBackExactly(src: Source, p: F.Image)
    requires Walks(src) && Compilable(src) && Compiled(src, p) && SizesFit(src) && NamesShort(src) && DistinctIds(ObjectsOf(src))
    requires forall name :: name in src.ops ==> src.ops[name].op < 256
    ensures F.Writable(p)
    ensures var l := ImageReading.ReadImage(F.PutImage(p));
            (l.Some? <==> LastHasCode(src)) && (l.Some? ==> ProgramReadBack(src, l.value))
  {
    assert OpsFit(EnvironmentOf(src));
    hide *;
    AcceptedExactly(src, p);
    if LastHasCode(src) {
      CompiledIsValid(src, p);
      R.ImageIsReadBack(p);
      LoadedPartsAre(p);
      LoadedIsReadBack(src, p, R.LoadedOf(p));
    }
  }

  lemma {:induction false} LoadedPartsAre(p: F.Image)
    ensures var l := R.LoadedOf(p);
            && l.flags == p.flags && l.entry == p.entry && l.funs == p.funs && l.vars == p.vars && l.code == p.code
            && l.addrs == R.Addresses(p.objects, 0) && l.objects == p.objects && l.relocs == p.relocs && l.symbols == p.symbols
            && l.infos == p.infos
  {
  }

  lemma {:induction false} LoadedIsReadBack(src: Source, p: F.Image, l: ImageReading.Loaded)
    requires Walks(src) && Compilable(src) && Compiled(src, p) && SizesFit(src) && DistinctIds(ObjectsOf(src))
    requires OpsFit(EnvironmentOf(src)) && l == R.LoadedOf(p)
    ensures ProgramReadBack(src, l)
  {
    assert IsOrder(src.funOrder, |Functions(src)|) && IsOrder(src.varOrder, |Variables(src)|);
    hide *;
    var env := EnvironmentOf(src);
    SizesAre(src);
    ListedTypes(src);
    CompiledParts(src, p);
    GeneratedPart(src, p);
    LoadedPartsAre(p);
    forall i | 0 <= i < |l.funs| ensures FunctionReadBack(env, Functions(src)[i], l.funs[i], l.code) {
      FunctionsReadBack(env, Functions(src), src.funOrder, p.code, p.funs, i);
    }
    forall i | 0 <= i < |l.vars| ensures VariableReadBack(env, Variables(src)[i], l.vars[i], LP.DataOf(l.addrs, l.objects)) {
      VariablesReadBack(env, Variables(src), src.varOrder, p.vars, p.objects, i);
    }
    AllReadBack(src, l);
  }

  lemma {:induction false} AllReadBack(src: Source, l: ImageReading.Loaded)
    requires Walks(src) && EntryCompiled(src, l.flags, l.entry) && |l.funs| == |Functions(src)| && |l.vars| == |Variables(src)|
    requires |l.addrs| == |l.objects| && SymbolsCompiled(src, l.relocs, l.symbols) && l.infos == Infos(src.defs)
    requires forall i :: 0 <= i < |l.funs| ==> FunctionReadBack(EnvironmentOf(src), Functions(src)[i], l.funs[i], l.code)
    requires forall i :: 0 <= i < |l.vars| ==>
               VariableReadBack(EnvironmentOf(src), Variables(src)[i], l.vars[i], LP.DataOf(l.addrs, l.objects))
    ensures ProgramReadBack(src, l)
  {
    hide Walks, EntryCompiled, Functions, Variables, SymbolsCompiled, Infos, FunctionReadBack, VariableReadBack, LP.DataOf, EnvironmentOf;
  }

  // ------------------------------------------------------------------ the buffer

  /** `prog_size_and_other_sizes`: the size of the buffer, from the source before anything is written. */
  ghost function ProgramSize(src: Source): nat
    requires Walks(src)
  {
    F.HEADER_SIZE + Align(12 * |Functions(src)|) + Align(16 * |Variables(src)|) + Align(12 * CodeSize(src)) + Compiler.DataSize(src)
    + (if src.isRelocatable then Align(12 * |AllRefs(src)|) + SymbolsComputed(src) else 0) + Align(12 * |Infos(src.defs)|)
  }

  ghost function SymbolsComputed(src: Source): nat
    requires Walks(src)
  {
    ComputedSize(DefinedNames(EnvironmentOf(src)), PublicSymbols(src.defs, src.isRelocatable), AllRefs(src))
  }

  lemma {:induction false} EndSizes(src: Source, relocs: seq<F.Relocation>, symbols: seq<F.Symbol>)
    requires Walks(src) && SymbolsCompiled(src, relocs, symbols)
    ensures Align(12 * |relocs|) == if src.isRelocatable then Align(12 * |AllRefs(src)|) else 0
    ensures F.SymbolsSize(symbols) == if src.isRelocatable then SymbolTable.SymbolsSize(Symbols(src)) else 0
  {
    hide Walks, AllRefs, EnvironmentOf, Externals, PublicSymbols;
    if src.isRelocatable { WrittenSize(symbols, Symbols(src)); }
  }

  /** Only the size of the symbols may differ. */
  lemma {:induction false} SizesDiffer(src: Source, p: F.Image)
    requires Walks(src)
    requires |p.funs| == |Functions(src)| && |p.vars| == |Variables(src)| && |p.code| == CodeSize(src) && p.infos == Infos(src.defs)
    requires F.DataSize(p.objects) == Compiler.DataSize(src)
    requires Align(12 * |p.relocs|) == if src.isRelocatable then Align(12 * |AllRefs(src)|) else 0
    requires F.SymbolsSize(p.symbols) == if src.isRelocatable then SymbolTable.SymbolsSize(Symbols(src)) else 0
    ensures F.ImageSize(p) == ProgramSize(src)
            <==> (src.isRelocatable ==> SymbolsComputed(src) == SymbolTable.SymbolsSize(Symbols(src)))
  {
    hide *;
    var r, s, c := Align(12 * |p.relocs|), F.SymbolsSize(p.symbols), if src.isRelocatable then SymbolsComputed(src) else 0;
    var rest := F.HEADER_SIZE + Align(12 * |p.funs|) + Align(16 * |p.vars|) + Align(12 * |p.code|) + F.DataSize(p.objects);
    ImageSizeIs(p, rest);
    ProgramSizeIs(src, rest, r, c);
  }

  lemma {:induction false} ImageSizeIs(p: F.Image, rest: nat)
    requires rest == F.HEADER_SIZE + Align(12 * |p.funs|) + Align(16 * |p.vars|) + Align(12 * |p.code|) + F.DataSize(p.objects)
    ensures F.ImageSize(p) == rest + Align(12 * |p.relocs|) + F.SymbolsSize(p.symbols) + Align(12 * |p.infos|)
  {
    hide Align, F.DataSize, F.SymbolsSize;
  }

  lemma {:induction false} ProgramSizeIs(src: Source, rest: nat, relocs: nat, symbols: nat)
    requires Walks(src)
    requires rest == F.HEADER_SIZE + Align(12 * |Functions(src)|) + Align(16 * |Variables(src)|) + Align(12 * CodeSize(src)) + Compiler.DataSize(src)
    requires relocs == if src.isRelocatable then Align(12 * |AllRefs(src)|) else 0
    requires symbols == if src.isRelocatable then SymbolsComputed(src) else 0
    ensures ProgramSize(src) == rest + relocs + symbols + Align(12 * |Infos(src.defs)|)
  {
    hide Walks, Align, Functions, Variables, CodeSize, Compiler.DataSize, AllRefs, SymbolsComputed, Infos;
  }

  /** The image exactly fills the buffer if and only if the size of its symbols is computed rightly;
      so it does for a program without native functions in its data. */
  lemma {:induction false} ImageFillsProgramSizeExactly(src: Source, p: F.Image)
    requires Walks(src) && Compilable(src) && Compiled(src, p) && SizesFit(src) && NamesShort(src)
    ensures F.Writable(p)
    ensures |F.PutImage(p)| == ProgramSize(src)
            <==> (src.isRelocatable ==> SymbolsComputed(src) == SymbolTable.SymbolsSize(Symbols(src)))
    ensures (forall r :: r in AllRefs(src) && r.Kind() == NativeName ==> !r.InData()) ==> |F.PutImage(p)| == ProgramSize(src)
  {
    hide *;
    CompiledIsWritable(src, p);
    F.ImageFillsSize(p);
    SizesAre(src);
    CompiledParts(src, p);
    GeneratedPart(src, p);
    AddressesAreKept(EnvironmentOf(src), ObjectsOf(src), p.objects, AddrsOf(ObjectsOf(src), |ObjectsOf(src)|));
    EndSizes(src, p.relocs, p.symbols);
    SizesDiffer(src, p);
    if forall r :: r in AllRefs(src) && r.Kind() == NativeName ==> !r.InData() { NoNativesInData(src); }
  }

  lemma {:induction false} NoNativesInData(src: Source)
    requires Walks(src) && Compilable(src) && forall r :: r in AllRefs(src) && r.Kind() == NativeName ==> !r.InData()
    ensures SymbolsComputed(src) == SymbolTable.SymbolsSize(Symbols(src))
  {
    assert Collectable(src.defs);
    hide Walks, Compilable, AllRefs, EnvironmentOf, SymbolTable.SymbolsSize, ComputedSize, PublicSymbols, Collectable, Externals, Publics;
    PublicsAre(src.defs, src.isRelocatable);
    NamesAreIndexed(src);
    ComputedSizeWithoutNativesInData(DefinedNames(EnvironmentOf(src)), PublicSymbols(src.defs, src.isRelocatable), AllRefs(src));
  }

  lemma {:induction false} NamesAreIndexed(src: Source)
    ensures DefinedNames(EnvironmentOf(src)) == IndexedNames(src.defs)
  {
  }

  /** The image in memory, or nothing for a source that is not compiled. */
  method Compile(src: Source) returns (image: array?<Byte>, ghost p: F.Image)
    requires Walks(src) && SizesFit(src) && NamesShort(src) && DistinctIds(ObjectsOf(src))
    ensures image != null <==> Compilable(src)
    ensures image != null ==> fresh(image) && Compiled(src, p) && F.Writable(p) && image[..] == F.PutImage(p)
  {
    hide *;
    var generated := GenerateProg(src);
    if generated.None? {
      image, p := null, F.Image(0, 0, [], [], [], [], [], [], []);
      return;
    }
    p := generated.value;
    CompiledIsWritable(src, p);
    image := ImageWriter.GenerateImage(generated.value);
  }

  // ------------------------------------------------------------------ an empty function

  /** A library of one function without lines. */
  function EmptyFunction(name: Name): Source {
    Source([FunctionDefinition(false, name, Function(0, []), FunctionInfo(0, ALL_ONES, 0))], map[], false, [0], [])
  }

  lemma {:induction false} EmptyFunctionParts(name: Name)
    ensures var src := EmptyFunction(name);
            && Collectable(src.defs) && Entries(src.defs) == [] && Functions(src) == [Function(0, [])] && Variables(src) == []
  {
    var src := EmptyFunction(name);
    var d := src.defs[0];
    assert src.defs[..0] == [] && Funs(src.defs) == [d] && Vars(src.defs) == [] && Entries(src.defs) == [];
  }

  lemma {:induction false} NoCode(funs: seq<Function>, order: seq<nat>)
    requires funs == [Function(0, [])] && order == [0]
    ensures IsOrder(order, 1) && CodeAddr(funs, order, 1) == 0 && CodeRefs(funs, order, 1) == [] && !EndsWithCode(funs, order)
    ensures forall env :: FunsOk(env, funs, order, 1)
  {
    assert FunAt(funs, order, 0) == Function(0, []);
    assert CodeAddr(funs, order, 0) == 0 && InstrCount([], 0) == 0 && LinesRefs([], 0, 0) == [] && CodeRefs(funs, order, 0) == [];
  }

  /** It is compiled, and its image is rejected. */
  lemma {:induction false} EmptyFunctionIsRejected(name: Name)
    ensures var src := EmptyFunction(name); Walks(src) && Compilable(src) && SizesFit(src) && NamesShort(src) && DistinctIds(ObjectsOf(src))
    ensures forall p :: Compiled(EmptyFunction(name), p) ==> F.Writable(p) && ImageReading.ReadImage(F.PutImage(p)).None?
  {
    var src := EmptyFunction(name);
    EmptyFunctionParts(name);
    NoCode(Functions(src), src.funOrder);
    assert Walks(src) && ObjectsOf(src) == [] && AllRefs(src) == [];
    hide Functions, Variables, Collectable, Entries, FunsOk, CodeAddr, CodeRefs, EnvironmentOf, IsOrder, F.Writable, F.PutImage,
         ImageReading.ReadImage, Compiled;
    assert Compilable(src) && SizesFit(src) && NamesShort(src) && !LastHasCode(src);
    hide *;
    forall p | Compiled(src, p) ensures F.Writable(p) && ImageReading.ReadImage(F.PutImage(p)).None? {
      AcceptedExactly(src, p);
    }
  }
}
