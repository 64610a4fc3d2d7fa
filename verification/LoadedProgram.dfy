/** What the loader hands over to the virtual machine, and what that means for a compiled program:
    every relocation of the image lands on the operand, element or variable that holds the index of
    the name, no two on the same, so that linking resolves the names of the source. */
module LoadedPrograms {
  import opened Options
  import opened Bytes
  import F = ImageFormat
  import ImageReading
  import R = ImageRoundTrip
  import V = Relocations
  import D = DataLoading
  import O = Opcodes

  function KindOf(type_: nat): V.Kind {
    if type_ == 0 then V.Arg1Fun else if type_ == 1 then V.Arg2Fun
    else if type_ == 2 then V.Arg1Var else if type_ == 3 then V.Arg2Var
    else if type_ == 4 then V.ElemFun else if type_ == 5 then V.VarFun
    else if type_ == 6 then V.Arg1NativeFun else if type_ == 7 then V.Arg2NativeFun
    else if type_ == 8 then V.ElemNativeFun else V.VarNativeFun
  }

  function RelocationOf(r: F.Relocation): V.Relocation {
    V.Relocation(KindOf(r.type_ % 256), ImageReading.IsSymbolic(r), r.addr, r.symbol)
  }

  function NameOf(name: seq<Byte>): string {
    seq(|name|, i requires 0 <= i < |name| => name[i] as char)
  }

  function SymbolOf(s: F.Symbol): V.Symbol {
    V.Symbol(if s.type_ % 16 == 0 then V.FunSymbol else if s.type_ % 16 == 1 then V.VarSymbol else V.NativeFunSymbol,
             s.type_ >= 16, s.index, NameOf(s.name))
  }

  function Signed64(n: U64): int {
    if n < 0x8000_0000_0000_0000 then n else n - TWO64
  }

  /** Elements of 64 bits are signed, others are kept as bits. */
  function ObjectOf(o: F.Object): V.DataObject {
    V.DataObject(o.type_, seq(|o.elems|, j requires 0 <= j < |o.elems| => if F.ElemSize(o.type_) == 8 then Signed64(o.elems[j]) else o.elems[j]),
                 o.types)
  }

  function InstructionOf(i: F.Instruction): V.Instruction {
    V.Instruction(i.opcode as bv32, i.arg1, i.arg2)
  }

  /** Every object at its address. */
  function DataOf<T>(addrs: seq<nat>, objects: seq<T>): map<nat, T>
    requires |addrs| == |objects|
  {
    if addrs == [] then map[]
    else DataOf(addrs[..|addrs| - 1], objects[..|objects| - 1])[addrs[|addrs| - 1] := objects[|objects| - 1]]
  }

  function ObjectsOf(data: map<nat, F.Object>): map<nat, V.DataObject> {
    map a | a in data :: ObjectOf(data[a])
  }

  /** The program that is loaded. */
  function ProgramOf(l: ImageReading.Loaded): V.Program
    requires |l.addrs| == |l.objects|
  {
    V.Program(
      F.IsRelocatable(l.flags), F.IsLibrary(l.flags), F.HasNativeSymbols(l.flags), l.entry,
      seq(|l.funs|, i requires 0 <= i < |l.funs| => V.Function(l.funs[i].addr, l.funs[i].argCount, l.funs[i].instrCount)),
      seq(|l.infos|, i requires 0 <= i < |l.infos| => V.FunctionInfo(l.infos[i].funIndex, l.infos[i].evalStrategy, l.infos[i].evalStrategyMask)),
      seq(|l.code|, i requires 0 <= i < |l.code| => InstructionOf(l.code[i])),
      seq(|l.vars|, i requires 0 <= i < |l.vars| => V.Variable(l.vars[i].type_, Signed64(l.vars[i].i))),
      ObjectsOf(DataOf(l.addrs, l.objects)),
      seq(|l.relocs|, i requires 0 <= i < |l.relocs| => RelocationOf(l.relocs[i])),
      seq(|l.symbols|, i requires 0 <= i < |l.symbols| => SymbolOf(l.symbols[i])), 0, 0)
  }

  // ------------------------------------------------------------------ accepted images

  ghost predicate Ascending(addrs: seq<nat>) {
    forall j, k :: 0 <= j < k < |addrs| ==> addrs[j] < addrs[k]
  }

  lemma {:induction false} DataOfAt<T>(addrs: seq<nat>, objects: seq<T>, k: nat)
    requires |addrs| == |objects| && Ascending(addrs) && k < |addrs|
    ensures addrs[k] in DataOf(addrs, objects) && DataOf(addrs, objects)[addrs[k]] == objects[k]
    decreases |addrs|
  {
    if k < |addrs| - 1 {
      DataOfAt(addrs[..|addrs| - 1], objects[..|objects| - 1], k);
    }
  }

  lemma {:induction false} DataOfKeys<T>(addrs: seq<nat>, objects: seq<T>)
    requires |addrs| == |objects|
    ensures forall a :: a in DataOf(addrs, objects) ==> a in addrs
    decreases |addrs|
  {
    if addrs != [] {
      DataOfKeys(addrs[..|addrs| - 1], objects[..|objects| - 1]);
    }
  }

  lemma {:induction false} TiledIsAscending(addrs: seq<nat>, objects: seq<F.Object>, i: nat, size: nat)
    requires R.Tiles(addrs, objects, i, size)
    ensures |addrs| == |objects| && Ascending(addrs) && forall k :: 0 <= k < |addrs| ==> i <= addrs[k]
    decreases |objects|
  {
    hide R.AcceptedObject, F.ObjectSize;
    if objects != [] {
      TiledIsAscending(addrs[1..], objects[1..], Align(i + F.ObjectSize(objects[0])), size);
      assert i < Align(i + F.ObjectSize(objects[0])) by { SomeSize(objects[0]); }
      assert addrs == [addrs[0]] + addrs[1..];
    }
  }

  lemma {:induction false} SomeSize(o: F.Object)
    ensures F.ObjectSize(o) >= 8
  {
  }

  /** The objects of every accepted image are what the virtual machine expects of them: each at its
      address, in ascending order. */
  lemma {:induction false} AcceptedAddresses(bs: seq<Byte>)
    requires ImageReading.ReadImage(bs).Some?
    ensures var l := ImageReading.ReadImage(bs).value; |l.addrs| == |l.objects| && D.Addresses(l.addrs, ProgramOf(l).data)
  {
    R.AcceptedIsWellFormed(bs);
    hide ImageReading.ReadImage, ImageReading.ReadHeader, R.Tiles, DataOf;
    var l := ImageReading.ReadImage(bs).value;
    TiledIsAscending(l.addrs, l.objects, 0, ImageReading.ReadHeader(bs).value.dataSize);
    DataOfKeys(l.addrs, l.objects);
    forall k | 0 <= k < |l.addrs| ensures l.addrs[k] in DataOf(l.addrs, l.objects) {
      DataOfAt(l.addrs, l.objects, k);
    }
  }
}
