/** The program image: what the compiler writes (comp/impl_comp.cpp) and what the loader reads back
    (vm/impl_loader.cpp). All numbers are kept as unsigned patterns of their width. */
module ImageFormat {
  import opened Options
  import opened Bytes

  const HEADER_SIZE: nat := 48
  const MAGIC: seq<Byte> := [0x33, 76, 69, 84, 0x77, 73, 78, 0xff]

  datatype Function = Function(addr: U32, argCount: U32, instrCount: U32)
  datatype Value = Value(type_: U32, i: U64)
  datatype Instruction = Instruction(opcode: U32, arg1: U32, arg2: U32)
  datatype Object = Object(type_: U32, elems: seq<U64>, types: seq<Byte>)
  datatype Relocation = Relocation(type_: U32, addr: U32, symbol: U32)
  datatype Symbol = Symbol(index: U32, type_: Byte, name: seq<Byte>)
  datatype FunctionInfo = FunctionInfo(funIndex: U32, evalStrategy: Byte, evalStrategyMask: Byte)

  datatype Image = Image(flags: U32, entry: U32, funs: seq<Function>, vars: seq<Value>, code: seq<Instruction>,
                         objects: seq<Object>, relocs: seq<Relocation>, symbols: seq<Symbol>, infos: seq<FunctionInfo>)

  predicate IsLibrary(flags: U32) {
    flags % 2 == 1
  }

  predicate IsRelocatable(flags: U32) {
    flags / 2 % 2 == 1
  }

  predicate HasNativeSymbols(flags: U32) {
    flags / 4 % 2 == 1
  }

  predicate HasInfos(flags: U32) {
    flags / 8 % 2 == 1
  }

  // ------------------------------------------------------------------ writing

  function PutAll<T>(xs: seq<T>, put: T -> seq<Byte>): seq<Byte> {
    if xs == [] then [] else put(xs[0]) + PutAll(xs[1..], put)
  }

  lemma {:induction false} PutAllSize<T>(xs: seq<T>, put: T -> seq<Byte>, width: nat)
    requires forall x :: x in xs ==> |put(x)| == width
    ensures |PutAll(xs, put)| == width * |xs|
    decreases |xs|
  {
    if xs != [] {
      PutAllSize(xs[1..], put, width);
      assert width * |xs| == width + width * (|xs| - 1);
    }
  }

  function PutFunction(f: Function): (bs: seq<Byte>)
    ensures |bs| == 12
  {
    Put32(f.addr) + Put32(f.argCount) + Put32(f.instrCount)
  }

  function PutValue(v: Value): (bs: seq<Byte>)
    ensures |bs| == 16
  {
    Put32(v.type_) + Put32(0) + Put64(v.i)
  }

  function PutInstruction(i: Instruction): (bs: seq<Byte>)
    ensures |bs| == 12
  {
    Put32(i.opcode) + Put32(i.arg1) + Put32(i.arg2)
  }

  function PutRelocation(r: Relocation): (bs: seq<Byte>)
    ensures |bs| == 12
  {
    Put32(r.type_) + Put32(r.addr) + Put32(r.symbol)
  }

  function PutInfo(f: FunctionInfo): (bs: seq<Byte>)
    ensures |bs| == 12
  {
    Put32(f.funIndex) + [f.evalStrategy, f.evalStrategyMask] + Zeros(6)
  }

  function PutSymbol(s: Symbol): (bs: seq<Byte>)
    ensures |bs| == 7 + |s.name|
  {
    Put32(s.index) + Put16(|s.name| % TWO16) + [s.type_] + s.name
  }

  /** The width of an element by the type of its object; 0 for an unknown type. */
  function ElemSize(type_: nat): nat {
    if type_ == 0 then 1
    else if type_ == 1 then 2
    else if type_ == 2 || type_ == 4 || type_ == 6 then 4
    else if type_ == 3 || type_ == 5 || type_ == 7 then 8
    else 0
  }

  const TUPLE: nat := 7

  function PutElem(width: nat, n: U64): (bs: seq<Byte>)
    ensures width == 1 || width == 2 || width == 4 || width == 8 ==> |bs| == width
  {
    if width == 1 then [n % 256] else if width == 2 then Put16(n % TWO16) else if width == 4 then Put32(n % TWO32) else Put64(n)
  }

  function ElemPutter(width: nat): U64 -> seq<Byte> {
    n => PutElem(width, n)
  }

  /** The size without padding: a tuple has one byte more for the type of every element. */
  function ObjectSize(o: Object): nat {
    8 + ElemSize(o.type_) * |o.elems| + if o.type_ == TUPLE then |o.elems| else 0
  }

  predicate ValidObject(o: Object) {
    && ElemSize(o.type_) != 0 && |o.elems| < TWO32
    && (ElemSize(o.type_) == 1 ==> forall e :: e in o.elems ==> e < 256)
    && (ElemSize(o.type_) == 2 ==> forall e :: e in o.elems ==> e < TWO16)
    && (ElemSize(o.type_) == 4 ==> forall e :: e in o.elems ==> e < TWO32)
    && (if o.type_ == TUPLE then |o.types| == |o.elems| && forall t :: t in o.types ==> t <= 2 else o.types == [])
  }

  function PutObject(o: Object): (bs: seq<Byte>)
    ensures ValidObject(o) ==> |bs| == ObjectSize(o)
  {
    var width := ElemSize(o.type_);
    var put := ElemPutter(width);
    if width != 0 then PutAllSize(o.elems, put, width); Put32(o.type_) + Put32(|o.elems| % TWO32) + PutAll(o.elems, put) + o.types
    else []
  }

  function DataSize(objects: seq<Object>): (n: nat)
    ensures n % 8 == 0
  {
    if objects == [] then 0 else Align(ObjectSize(objects[0])) + DataSize(objects[1..])
  }

  function SymbolsSize(symbols: seq<Symbol>): nat {
    if symbols == [] then 0 else Align(7 + |symbols[0].name|) + SymbolsSize(symbols[1..])
  }

  lemma {:induction false} PutObjectsSize(objects: seq<Object>)
    requires forall o :: o in objects ==> ValidObject(o)
    ensures |PutAll(objects, PutPaddedObject)| == DataSize(objects)
  {
    if objects != [] {
      assert objects[0] in objects;
      PutObjectsSize(objects[1..]);
    }
  }

  function PutPaddedObject(o: Object): seq<Byte> {
    Padded(PutObject(o))
  }

  lemma {:induction false} PutSymbolsSize(symbols: seq<Symbol>)
    ensures |PutAll(symbols, PutPaddedSymbol)| == SymbolsSize(symbols)
  {
    if symbols != [] { PutSymbolsSize(symbols[1..]); }
  }

  function PutPaddedSymbol(s: Symbol): seq<Byte> {
    Padded(PutSymbol(s))
  }

  predicate Writable(p: Image) {
    && |p.funs| < TWO32 && |p.vars| < TWO32 && |p.code| < TWO32 && DataSize(p.objects) < TWO32
    && |p.relocs| < TWO32 && |p.symbols| < TWO32 && |p.infos| < TWO32
    && (forall o :: o in p.objects ==> ValidObject(o)) && (forall s :: s in p.symbols ==> |s.name| < TWO16)
  }

  function HeaderWords(p: Image): (words: seq<U32>)
    requires Writable(p)
    ensures |words| == 10
  {
    [p.flags, p.entry, |p.funs|, |p.vars|, |p.code|, DataSize(p.objects), |p.relocs|, |p.symbols|, |p.infos|, 0]
  }

  function PutHeader(p: Image): seq<Byte>
    requires Writable(p)
  {
    MAGIC + PutAll(HeaderWords(p), Put32)
  }

  /** The relocations, the symbols and the function infos. */
  function PutEnd(p: Image): seq<Byte> {
    Padded(PutAll(p.relocs, PutRelocation)) + (PutAll(p.symbols, PutPaddedSymbol) + Padded(PutAll(p.infos, PutInfo)))
  }

  function PutImage(p: Image): seq<Byte>
    requires Writable(p)
  {
    PutHeader(p) + (Padded(PutAll(p.funs, PutFunction)) + (Padded(PutAll(p.vars, PutValue))
    + (Padded(PutAll(p.code, PutInstruction)) + (PutAll(p.objects, PutPaddedObject) + PutEnd(p)))))
  }

  /** The size computed before anything is written. */
  function ImageSize(p: Image): nat {
    HEADER_SIZE + Align(12 * |p.funs|) + Align(16 * |p.vars|) + Align(12 * |p.code|) + DataSize(p.objects)
    + Align(12 * |p.relocs|) + SymbolsSize(p.symbols) + Align(12 * |p.infos|)
  }

  /** The sizes of the sections. */
  lemma SectionSizes(p: Image)
    requires Writable(p)
    ensures |PutHeader(p)| == HEADER_SIZE
    ensures |PutAll(p.funs, PutFunction)| == 12 * |p.funs| && |PutAll(p.vars, PutValue)| == 16 * |p.vars|
    ensures |PutAll(p.code, PutInstruction)| == 12 * |p.code| && |PutAll(p.objects, PutPaddedObject)| == DataSize(p.objects)
    ensures |PutAll(p.relocs, PutRelocation)| == 12 * |p.relocs| && |PutAll(p.symbols, PutPaddedSymbol)| == SymbolsSize(p.symbols)
    ensures |PutAll(p.infos, PutInfo)| == 12 * |p.infos|
  {
    PutAllSize(HeaderWords(p), Put32, 4);
    PutAllSize(p.funs, PutFunction, 12);
    PutAllSize(p.vars, PutValue, 16);
    PutAllSize(p.code, PutInstruction, 12);
    PutObjectsSize(p.objects);
    PutAllSize(p.relocs, PutRelocation, 12);
    PutSymbolsSize(p.symbols);
    PutAllSize(p.infos, PutInfo, 12);
  }

  /** The image exactly fills the size computed for it. */
  lemma ImageFillsSize(p: Image)
    requires Writable(p)
    ensures |PutImage(p)| == ImageSize(p)
  {
    SectionSizes(p);
    hide PutHeader, PutAll;
  }
}
