/** The loader reads back exactly what the compiler wrote. */
module ImageRoundTrip {
  import opened Options
  import opened Bytes
  import opened ImageFormat
  import opened ImageReading

  // ------------------------------------------------------------------ parts of what lies at a place

  lemma HoldsSplit(bs: seq<Byte>, at: nat, a: seq<Byte>, b: seq<Byte>)
    requires Holds(bs, at, a + b)
    ensures Holds(bs, at, a) && Holds(bs, at + |a|, b)
  {
    assert bs[at..at + |a|] == bs[at..at + |a + b|][..|a|];
    assert bs[at + |a|..at + |a| + |b|] == bs[at..at + |a + b|][|a|..];
  }

  lemma Holds16(bs: seq<Byte>, at: nat, n: U16)
    requires Holds(bs, at, Put16(n))
    ensures U16At(bs, at) == n
  {
    RoundTrip16(n);
  }

  lemma Holds32(bs: seq<Byte>, at: nat, n: U32)
    requires Holds(bs, at, Put32(n))
    ensures U32At(bs, at) == n
  {
    RoundTrip32(n);
  }

  lemma Holds64(bs: seq<Byte>, at: nat, n: U64)
    requires Holds(bs, at, Put64(n))
    ensures U64At(bs, at) == n
  {
    RoundTrip64(n);
  }

  lemma Holds32s(bs: seq<Byte>, at: nat, a: U32, b: U32, c: U32)
    requires Holds(bs, at, Put32(a) + Put32(b) + Put32(c))
    ensures U32At(bs, at) == a && U32At(bs, at + 4) == b && U32At(bs, at + 8) == c
  {
    HoldsSplit(bs, at, Put32(a) + Put32(b), Put32(c));
    HoldsSplit(bs, at, Put32(a), Put32(b));
    Holds32(bs, at, a);
    Holds32(bs, at + 4, b);
    Holds32(bs, at + 8, c);
  }

  lemma ValueBack(bs: seq<Byte>, at: nat, v: Value)
    requires Holds(bs, at, PutValue(v))
    ensures GetValue(bs, at) == v
  {
    HoldsSplit(bs, at, Put32(v.type_) + Put32(0), Put64(v.i));
    HoldsSplit(bs, at, Put32(v.type_), Put32(0));
    Holds32(bs, at, v.type_);
    Holds64(bs, at + 8, v.i);
  }

  lemma InfoBack(bs: seq<Byte>, at: nat, f: FunctionInfo)
    requires Holds(bs, at, PutInfo(f))
    ensures GetInfo(bs, at) == f
  {
    HoldsSplit(bs, at, Put32(f.funIndex) + [f.evalStrategy, f.evalStrategyMask], Zeros(6));
    HoldsSplit(bs, at, Put32(f.funIndex), [f.evalStrategy, f.evalStrategyMask]);
    Holds32(bs, at, f.funIndex);
    assert bs[at + 4..at + 6] == [f.evalStrategy, f.evalStrategyMask];
  }

  lemma ElemBack(bs: seq<Byte>, at: nat, width: nat, n: U64)
    requires Holds(bs, at, PutElem(width, n))
    requires (width == 1 && n < 256) || (width == 2 && n < TWO16) || (width == 4 && n < TWO32) || width == 8
    ensures GetElem(width, bs, at) == n
  {
    hide U16At, U32At, U64At, Put16, Put32, Put64;
    if width == 1 {
      assert bs[at..at + 1] == [n];
    } else if width == 2 {
      Holds16(bs, at, n);
    } else if width == 4 {
      Holds32(bs, at, n);
    } else {
      Holds64(bs, at, n);
    }
  }

  /** Records of one width are read back if each is. */
  lemma {:induction false} AllBack<T>(bs: seq<Byte>, at: nat, xs: seq<T>, width: nat, put: T -> seq<Byte>, get: (seq<Byte>, nat) -> T)
    requires Holds(bs, at, PutAll(xs, put))
    requires forall x :: x in xs ==> |put(x)| == width
    requires forall x, i: nat :: x in xs && Holds(bs, i, put(x)) ==> get(bs, i) == x
    ensures GetAll(bs, at, |xs|, width, get) == xs
    decreases |xs|
  {
    if xs != [] {
      HoldsSplit(bs, at, put(xs[0]), PutAll(xs[1..], put));
      assert xs[0] in xs;
      AllBack(bs, at + width, xs[1..], width, put, get);
    }
  }

  lemma PaddedBack(bs: seq<Byte>, at: nat, e: seq<Byte>)
    requires Holds(bs, at, Padded(e))
    ensures Holds(bs, at, e) && at + Align(|e|) <= |bs|
  {
    HoldsSplit(bs, at, e, Zeros(Align(|e|) - |e|));
  }

  // ------------------------------------------------------------------ objects and symbols

  lemma ElemsBack(bs: seq<Byte>, at: nat, o: Object)
    requires ValidObject(o) && Holds(bs, at, PutAll(o.elems, ElemPutter(ElemSize(o.type_))))
    ensures GetAll(bs, at, |o.elems|, ElemSize(o.type_), ElemGetter(ElemSize(o.type_))) == o.elems
  {
    var width := ElemSize(o.type_);
    forall n, i: nat | n in o.elems && Holds(bs, i, ElemPutter(width)(n)) ensures ElemGetter(width)(bs, i) == n {
      ElemBack(bs, i, width, n);
    }
    AllBack(bs, at, o.elems, width, ElemPutter(width), ElemGetter(width));
  }

  lemma {:induction false} TypesBack(bs: seq<Byte>, at: nat, types: seq<Byte>)
    requires Holds(bs, at, types)
    ensures GetAll(bs, at, |types|, 1, ByteAt) == types
    decreases |types|
  {
    if types != [] {
      assert types == [types[0]] + types[1..];
      HoldsSplit(bs, at, [types[0]], types[1..]);
      assert bs[at..at + 1] == [types[0]];
      TypesBack(bs, at + 1, types[1..]);
    }
  }

  lemma ObjectLayout(bs: seq<Byte>, at: nat, o: Object)
    requires ValidObject(o) && Holds(bs, at, PutObject(o))
    ensures Holds(bs, at, Put32(o.type_)) && Holds(bs, at + 4, Put32(|o.elems|))
    ensures Holds(bs, at + 8, PutAll(o.elems, ElemPutter(ElemSize(o.type_))))
    ensures Holds(bs, at + 8 + ElemSize(o.type_) * |o.elems|, o.types)
  {
    var elems := PutAll(o.elems, ElemPutter(ElemSize(o.type_)));
    assert PutObject(o) == Put32(o.type_) + Put32(|o.elems|) + elems + o.types;
    assert |elems| == ElemSize(o.type_) * |o.elems| by {
      PutAllSize(o.elems, ElemPutter(ElemSize(o.type_)), ElemSize(o.type_));
    }
    hide PutObject, Holds, PutAll, ElemPutter, ElemSize, Put32;
    HoldsSplit(bs, at, Put32(o.type_) + Put32(|o.elems|) + elems, o.types);
    HoldsSplit(bs, at, Put32(o.type_) + Put32(|o.elems|), elems);
    HoldsSplit(bs, at, Put32(o.type_), Put32(|o.elems|));
  }

  lemma ObjectParts(bs: seq<Byte>, at: nat, o: Object)
    requires ValidObject(o) && Holds(bs, at, PutObject(o))
    ensures U32At(bs, at) == o.type_ && U32At(bs, at + 4) == |o.elems|
    ensures GetAll(bs, at + 8, |o.elems|, ElemSize(o.type_), ElemGetter(ElemSize(o.type_))) == o.elems
    ensures o.type_ == TUPLE ==> GetAll(bs, at + 8 + 8 * |o.elems|, |o.elems|, 1, ByteAt) == o.types
  {
    hide *;
    ObjectLayout(bs, at, o);
    TupleShape(o);
    Holds32(bs, at, o.type_);
    Holds32(bs, at + 4, |o.elems|);
    ElemsBack(bs, at + 8, o);
    if o.type_ == TUPLE { TypesBack(bs, at + 8 + 8 * |o.elems|, o.types); }
  }

  lemma TupleShape(o: Object)
    requires ValidObject(o)
    ensures |o.elems| < 0x1_0000_0000 && (o.type_ == TUPLE ==> ElemSize(o.type_) == 8 && |o.types| == |o.elems|)
  {
  }

  /** The addresses of objects that lie behind each other. */
  function Addresses(objects: seq<Object>, i: nat): (addrs: seq<nat>)
    ensures |addrs| == |objects|
  {
    if objects == [] then [] else [i] + Addresses(objects[1..], i + Align(ObjectSize(objects[0])))
  }

  lemma ReadObjectIs(bs: seq<Byte>, data: nat, i: nat, size: nat, o: Object)
    requires ValidObject(o) && i + ObjectSize(o) <= size
    requires U32At(bs, data + i) == o.type_ && U32At(bs, data + i + 4) == |o.elems|
    requires GetAll(bs, data + i + 8, |o.elems|, ElemSize(o.type_), ElemGetter(ElemSize(o.type_))) == o.elems
    requires o.type_ == TUPLE ==> GetAll(bs, data + i + 8 + 8 * |o.elems|, |o.elems|, 1, ByteAt) == o.types
    ensures ReadObject(bs, data, i, size) == Some((o, i + ObjectSize(o)))
  {
    hide GetAll, ElemGetter, U32At, ElemSize;
  }

  lemma ObjectBack(bs: seq<Byte>, data: nat, i: nat, o: Object, size: nat)
    requires ValidObject(o) && Holds(bs, data + i, PutPaddedObject(o)) && i + ObjectSize(o) <= size
    ensures ReadObject(bs, data, i, size) == Some((o, i + ObjectSize(o)))
  {
    hide *;
    PaddedObjectBack(bs, data + i, o);
    ObjectParts(bs, data + i, o);
    ReadObjectIs(bs, data, i, size, o);
  }

  lemma PaddedObjectBack(bs: seq<Byte>, at: nat, o: Object)
    requires Holds(bs, at, PutPaddedObject(o))
    ensures Holds(bs, at, PutObject(o))
  {
    hide Holds, PutObject, Padded;
    PaddedBack(bs, at, PutObject(o));
  }

  lemma ReadObjectsNext(bs: seq<Byte>, data: nat, i: nat, size: nat, objects: seq<Object>, end: nat)
    requires i < size && objects != [] && ReadObject(bs, data, i, size) == Some((objects[0], end))
    requires Align(end) == i + Align(ObjectSize(objects[0]))
    requires ReadObjects(bs, data, Align(end), size) == Some((Addresses(objects[1..], Align(end)), objects[1..]))
    ensures ReadObjects(bs, data, i, size) == Some((Addresses(objects, i), objects))
  {
    hide ReadObject, Align, ObjectSize;
    assert objects == [objects[0]] + objects[1..];
  }

  lemma FirstObject(bs: seq<Byte>, data: nat, i: nat, objects: seq<Object>)
    requires objects != [] && (forall o :: o in objects ==> ValidObject(o))
    requires Holds(bs, data + i, PutAll(objects, PutPaddedObject))
    ensures var o, rest, next := objects[0], objects[1..], i + Align(ObjectSize(objects[0]));
            && ValidObject(o) && (forall x :: x in rest ==> ValidObject(x)) && ObjectSize(o) >= 8
            && Holds(bs, data + i, PutPaddedObject(o)) && Holds(bs, data + next, PutAll(rest, PutPaddedObject))
            && DataSize(objects) == Align(ObjectSize(o)) + DataSize(rest)
  {
    hide ValidObject, Holds, Align, PutPaddedObject, ObjectSize;
    assert objects[0] in objects;
    PaddedObjectSize(objects[0]);
    HoldsSplit(bs, data + i, PutPaddedObject(objects[0]), PutAll(objects[1..], PutPaddedObject));
  }

  lemma {:induction false} ObjectsBack(bs: seq<Byte>, data: nat, i: nat, objects: seq<Object>, size: nat)
    requires forall o :: o in objects ==> ValidObject(o)
    requires Holds(bs, data + i, PutAll(objects, PutPaddedObject)) && i % 8 == 0 && size == i + DataSize(objects)
    ensures ReadObjects(bs, data, i, size) == Some((Addresses(objects, i), objects))
    decreases |objects|, 1
  {
    if objects != [] { MoreObjectsBack(bs, data, i, objects, size); }
  }

  lemma {:induction false} MoreObjectsBack(bs: seq<Byte>, data: nat, i: nat, objects: seq<Object>, size: nat)
    requires objects != [] && forall o :: o in objects ==> ValidObject(o)
    requires Holds(bs, data + i, PutAll(objects, PutPaddedObject)) && i % 8 == 0 && size == i + DataSize(objects)
    ensures ReadObjects(bs, data, i, size) == Some((Addresses(objects, i), objects))
    decreases |objects|, 0
  {
    hide *;
    var o := objects[0];
    FirstObject(bs, data, i, objects);
    ObjectBack(bs, data, i, o, size);
    AlignSum(i, ObjectSize(o));
    ObjectsBack(bs, data, i + Align(ObjectSize(o)), objects[1..], size);
    ReadObjectsNext(bs, data, i, size, objects, i + ObjectSize(o));
  }

  lemma PaddedObjectSize(o: Object)
    requires ValidObject(o)
    ensures |PutPaddedObject(o)| == Align(ObjectSize(o)) && ObjectSize(o) >= 8
  {
  }

  lemma AlignSum(i: nat, n: nat)
    requires i % 8 == 0
    ensures Align(i + n) == i + Align(n)
  {
  }

  lemma SymbolParts(bs: seq<Byte>, at: nat, s: Symbol)
    requires |s.name| < TWO16 && Holds(bs, at, PutSymbol(s))
    ensures at + 7 + |s.name| <= |bs| && U32At(bs, at) == s.index && U16At(bs, at + 4) == |s.name|
    ensures bs[at + 6] == s.type_ && bs[at + 7..at + 7 + |s.name|] == s.name
  {
    HoldsSplit(bs, at, Put32(s.index) + Put16(|s.name| % TWO16) + [s.type_], s.name);
    HoldsSplit(bs, at, Put32(s.index) + Put16(|s.name| % TWO16), [s.type_]);
    HoldsSplit(bs, at, Put32(s.index), Put16(|s.name| % TWO16));
    Holds32(bs, at, s.index);
    Holds16(bs, at + 4, |s.name|);
    assert bs[at + 6..at + 7] == [s.type_];
  }

  lemma SymbolBack(bs: seq<Byte>, at: nat, s: Symbol, isLast: bool, native: bool)
    requires |s.name| < TWO16 && SymbolTypeOk(s.type_, native) && Holds(bs, at, PutPaddedSymbol(s))
    ensures ReadSymbol(bs, at, isLast, native)
            == Some((s, if isLast then at + 7 + |s.name| else at + Align(7 + |s.name|)))
  {
    PaddedBack(bs, at, PutSymbol(s));
    SymbolParts(bs, at, s);
  }

  lemma ReadSymbolsNext(bs: seq<Byte>, at: nat, symbols: seq<Symbol>, native: bool, next: nat, end: nat)
    requires symbols != [] && ReadSymbol(bs, at, |symbols| == 1, native) == Some((symbols[0], next))
    requires ReadSymbols(bs, next, |symbols| - 1, native) == Some((symbols[1..], end))
    ensures ReadSymbols(bs, at, |symbols|, native) == Some((symbols, end))
  {
    hide ReadSymbol;
    assert symbols == [symbols[0]] + symbols[1..];
  }

  /** Symbols are read back; their end is the unpadded end of the last. */
  lemma {:induction false} SymbolsBack(bs: seq<Byte>, at: nat, symbols: seq<Symbol>, native: bool) returns (end: nat)
    requires forall s :: s in symbols ==> |s.name| < TWO16 && SymbolTypeOk(s.type_, native)
    requires Holds(bs, at, PutAll(symbols, PutPaddedSymbol)) && at % 8 == 0
    ensures ReadSymbols(bs, at, |symbols|, native) == Some((symbols, end)) && Align(end) == at + SymbolsSize(symbols)
    decreases |symbols|, 1
  {
    if symbols == [] { end := at; } else { end := MoreSymbolsBack(bs, at, symbols, native); }
  }

  lemma {:induction false} MoreSymbolsBack(bs: seq<Byte>, at: nat, symbols: seq<Symbol>, native: bool) returns (end: nat)
    requires symbols != [] && forall s :: s in symbols ==> |s.name| < TWO16 && SymbolTypeOk(s.type_, native)
    requires Holds(bs, at, PutAll(symbols, PutPaddedSymbol)) && at % 8 == 0
    ensures ReadSymbols(bs, at, |symbols|, native) == Some((symbols, end)) && Align(end) == at + SymbolsSize(symbols)
    decreases |symbols|, 0
  {
    hide *;
    var s := symbols[0];
    FirstSymbol(bs, at, symbols, native);
    SymbolBack(bs, at, s, |symbols| == 1, native);
    AlignSum(at, 7 + |s.name|);
    if |symbols| == 1 {
      end := at + 7 + |s.name|;
      assert symbols[1..] == [];
      NoSymbols(bs, end, native);
      ReadSymbolsNext(bs, at, symbols, native, end, end);
    } else {
      var next := at + Align(7 + |s.name|);
      end := SymbolsBack(bs, next, symbols[1..], native);
      ReadSymbolsNext(bs, at, symbols, native, next, end);
    }
  }

  lemma FirstSymbol(bs: seq<Byte>, at: nat, symbols: seq<Symbol>, native: bool)
    requires symbols != [] && (forall s :: s in symbols ==> |s.name| < TWO16 && SymbolTypeOk(s.type_, native))
    requires Holds(bs, at, PutAll(symbols, PutPaddedSymbol))
    ensures var s, rest, next := symbols[0], symbols[1..], at + Align(7 + |symbols[0].name|);
            && |s.name| < TWO16 && SymbolTypeOk(s.type_, native)
            && (forall x :: x in rest ==> |x.name| < TWO16 && SymbolTypeOk(x.type_, native))
            && Holds(bs, at, PutPaddedSymbol(s)) && Holds(bs, next, PutAll(rest, PutPaddedSymbol))
            && SymbolsSize(symbols) == Align(7 + |s.name|) + SymbolsSize(rest)
  {
    hide SymbolTypeOk, Holds, Align, PutPaddedSymbol;
    assert symbols[0] in symbols;
    PaddedSymbolSize(symbols[0]);
    HoldsSplit(bs, at, PutPaddedSymbol(symbols[0]), PutAll(symbols[1..], PutPaddedSymbol));
  }

  lemma NoSymbols(bs: seq<Byte>, at: nat, native: bool)
    ensures ReadSymbols(bs, at, 0, native) == Some(([], at)) && SymbolsSize([]) == 0
  {
  }

  lemma PaddedSymbolSize(s: Symbol)
    ensures |PutPaddedSymbol(s)| == Align(7 + |s.name|)
  {
  }

  // ------------------------------------------------------------------ the whole image

  /** What the loader tests. */
  ghost predicate Valid(p: Image) {
    && Writable(p)
    && (forall f :: f in p.funs ==> FunctionOk(f, |p.code|)) && (forall v :: v in p.vars ==> ValueOk(v))
    && RefsOk(p.vars, Addresses(p.objects, 0))
    && (forall r :: r in p.relocs ==> RelocationOk(r, HasNativeSymbols(p.flags)) && (IsSymbolic(r) ==> r.symbol < |p.symbols|))
    && (forall s :: s in p.symbols ==> SymbolTypeOk(s.type_, HasNativeSymbols(p.flags)))
    && (forall f :: f in p.infos ==> f.funIndex < |p.funs|)
    && (IsRelocatable(p.flags) || (p.relocs == [] && p.symbols == [])) && (HasInfos(p.flags) || p.infos == [])
  }

  function HeaderOf(p: Image): Header
    requires Writable(p)
  {
    Header(p.flags, p.entry, |p.funs|, |p.vars|, |p.code|, DataSize(p.objects), |p.relocs|, |p.symbols|, |p.infos|)
  }

  function LoadedOf(p: Image): Loaded {
    Loaded(p.flags, p.entry, p.funs, p.vars, p.code, Addresses(p.objects, 0), p.objects, p.relocs, p.symbols, p.infos)
  }

  lemma {:induction false} WordsBack(bs: seq<Byte>, at: nat, words: seq<U32>)
    requires Holds(bs, at, PutAll(words, Put32))
    ensures forall k :: 0 <= k < |words| ==> U32At(bs, at + 4 * k) == words[k]
    decreases |words|
  {
    if words != [] {
      HoldsSplit(bs, at, Put32(words[0]), PutAll(words[1..], Put32));
      Holds32(bs, at, words[0]);
      WordsBack(bs, at + 4, words[1..]);
      forall k | 0 <= k < |words| ensures U32At(bs, at + 4 * k) == words[k] {
        if k > 0 { assert U32At(bs, at + 4 + 4 * (k - 1)) == words[1..][k - 1]; }
      }
    }
  }

  /** Where the sections of an image start. */
  function FunsStart(p: Image): nat { HEADER_SIZE }
  function VarsStart(p: Image): nat { FunsStart(p) + Align(12 * |p.funs|) }
  function CodeStart(p: Image): nat { VarsStart(p) + Align(16 * |p.vars|) }
  function DataStart(p: Image): nat { CodeStart(p) + Align(12 * |p.code|) }
  function RelocsStart(p: Image): nat { DataStart(p) + DataSize(p.objects) }
  function SymbolsStart(p: Image): nat { RelocsStart(p) + Align(12 * |p.relocs|) }
  function InfosStart(p: Image): nat { SymbolsStart(p) + SymbolsSize(p.symbols) }

  lemma HoldsSix(bs: seq<Byte>, at: nat, a: seq<Byte>, b: seq<Byte>, c: seq<Byte>, d: seq<Byte>, e: seq<Byte>, f: seq<Byte>)
    requires Holds(bs, at, a + (b + (c + (d + (e + f)))))
    ensures Holds(bs, at, a) && Holds(bs, at + |a|, b) && Holds(bs, at + |a| + |b|, c)
    ensures Holds(bs, at + |a| + |b| + |c|, d) && Holds(bs, at + |a| + |b| + |c| + |d|, e)
    ensures Holds(bs, at + |a| + |b| + |c| + |d| + |e|, f)
  {
    hide Holds;
    HoldsSplit(bs, at, a, b + (c + (d + (e + f))));
    HoldsSplit(bs, at + |a|, b, c + (d + (e + f)));
    HoldsSplit(bs, at + |a| + |b|, c, d + (e + f));
    HoldsSplit(bs, at + |a| + |b| + |c|, d, e + f);
    HoldsSplit(bs, at + |a| + |b| + |c| + |d|, e, f);
  }

  lemma HoldsSelf(bs: seq<Byte>)
    ensures Holds(bs, 0, bs)
  {
  }

  lemma SectionsHeld(p: Image)
    requires Writable(p)
    ensures var bs := PutImage(p);
            && Holds(bs, 0, PutHeader(p))
            && Holds(bs, FunsStart(p), Padded(PutAll(p.funs, PutFunction)))
            && Holds(bs, VarsStart(p), Padded(PutAll(p.vars, PutValue)))
            && Holds(bs, CodeStart(p), Padded(PutAll(p.code, PutInstruction)))
            && Holds(bs, DataStart(p), PutAll(p.objects, PutPaddedObject))
            && Holds(bs, RelocsStart(p), PutEnd(p))
  {
    hide Holds, PutAll, PutHeader, PutEnd, Align, DataSize, Padded, Writable;
    SectionSizes(p);
    HoldsSelf(PutImage(p));
    HoldsSix(PutImage(p), 0, PutHeader(p), Padded(PutAll(p.funs, PutFunction)), Padded(PutAll(p.vars, PutValue)),
             Padded(PutAll(p.code, PutInstruction)), PutAll(p.objects, PutPaddedObject), PutEnd(p));
  }

  lemma EndHeld(p: Image)
    requires Writable(p)
    ensures var bs := PutImage(p);
            && Holds(bs, RelocsStart(p), Padded(PutAll(p.relocs, PutRelocation)))
            && Holds(bs, SymbolsStart(p), PutAll(p.symbols, PutPaddedSymbol))
            && Holds(bs, InfosStart(p), Padded(PutAll(p.infos, PutInfo)))
  {
    hide Holds, PutAll, PutImage, Align, DataSize, Padded, SymbolsSize, Writable, RelocsStart;
    SectionSizes(p);
    SectionsHeld(p);
    var relocs, symbols, infos := Padded(PutAll(p.relocs, PutRelocation)), PutAll(p.symbols, PutPaddedSymbol), Padded(PutAll(p.infos, PutInfo));
    HoldsSplit(PutImage(p), RelocsStart(p), relocs, symbols + infos);
    HoldsSplit(PutImage(p), SymbolsStart(p), symbols, infos);
  }

  lemma MagicHeld(bs: seq<Byte>, rest: seq<Byte>)
    requires Holds(bs, 0, MAGIC + rest)
    ensures |bs| >= 8 && bs[..8] == MAGIC && Holds(bs, 8, rest)
  {
    HoldsSplit(bs, 0, MAGIC, rest);
  }

  lemma HeaderWordsBack(bs: seq<Byte>, w: seq<U32>)
    requires |w| == 10 && Holds(bs, 0, MAGIC + PutAll(w, Put32)) && HEADER_SIZE <= |bs|
    ensures ReadHeader(bs) == Some(Header(w[0], w[1], w[2], w[3], w[4], w[5], w[6], w[7], w[8]))
  {
    hide PutAll, U32At, Holds, Put32;
    MagicHeld(bs, PutAll(w, Put32));
    WordsBack(bs, 8, w);
    assert U32At(bs, 8 + 4 * 0) == w[0] && U32At(bs, 8 + 4 * 1) == w[1] && U32At(bs, 8 + 4 * 2) == w[2];
    assert U32At(bs, 8 + 4 * 3) == w[3] && U32At(bs, 8 + 4 * 4) == w[4] && U32At(bs, 8 + 4 * 5) == w[5];
    assert U32At(bs, 8 + 4 * 6) == w[6] && U32At(bs, 8 + 4 * 7) == w[7] && U32At(bs, 8 + 4 * 8) == w[8];
  }

  lemma HeaderBack(p: Image)
    requires Writable(p)
    ensures ReadHeader(PutImage(p)) == Some(HeaderOf(p))
  {
    hide Holds, PutAll, PutImage, Align, DataSize, ReadHeader;
    SectionsHeld(p);
    SectionSizes(p);
    HeldFits(PutImage(p), 0, PutHeader(p));
    HeaderWordsBack(PutImage(p), HeaderWords(p));
  }

  lemma HeldFits(bs: seq<Byte>, at: nat, e: seq<Byte>)
    requires Holds(bs, at, e)
    ensures at + |e| <= |bs|
  {
  }

  /** A padded section of records is read back, and ends inside the buffer. */
  lemma SectionBack<T>(bs: seq<Byte>, at: nat, xs: seq<T>, width: nat, put: T -> seq<Byte>, get: (seq<Byte>, nat) -> T)
    requires Holds(bs, at, Padded(PutAll(xs, put))) && |PutAll(xs, put)| == width * |xs|
    requires forall x :: x in xs ==> |put(x)| == width
    requires forall x, i: nat :: x in xs && Holds(bs, i, put(x)) ==> get(bs, i) == x
    ensures GetAll(bs, at, |xs|, width, get) == xs && SectionEnd(bs, at, width * |xs|) == Some(at + Align(width * |xs|))
  {
    hide Holds, PutAll, GetAll, Padded, Align;
    PaddedBack(bs, at, PutAll(xs, put));
    AllBack(bs, at, xs, width, put, get);
  }

  lemma FunctionsReadable(bs: seq<Byte>)
    ensures forall f, i: nat :: Holds(bs, i, PutFunction(f)) ==> GetFunction(bs, i) == f
  {
    hide Holds, U32At, Put32;
    forall f, i: nat | Holds(bs, i, PutFunction(f)) ensures GetFunction(bs, i) == f {
      Holds32s(bs, i, f.addr, f.argCount, f.instrCount);
    }
  }

  lemma ValuesReadable(bs: seq<Byte>)
    ensures forall v, i: nat :: Holds(bs, i, PutValue(v)) ==> GetValue(bs, i) == v
  {
    hide *;
    forall v, i: nat | Holds(bs, i, PutValue(v)) ensures GetValue(bs, i) == v {
      ValueBack(bs, i, v);
    }
  }

  lemma InstructionsReadable(bs: seq<Byte>)
    ensures forall c, i: nat :: Holds(bs, i, PutInstruction(c)) ==> GetInstruction(bs, i) == c
  {
    hide Holds, U32At, Put32;
    forall c, i: nat | Holds(bs, i, PutInstruction(c)) ensures GetInstruction(bs, i) == c {
      Holds32s(bs, i, c.opcode, c.arg1, c.arg2);
    }
  }

  lemma RelocationsReadable(bs: seq<Byte>)
    ensures forall r, i: nat :: Holds(bs, i, PutRelocation(r)) ==> GetRelocation(bs, i) == r
  {
    hide Holds, U32At, Put32;
    forall r, i: nat | Holds(bs, i, PutRelocation(r)) ensures GetRelocation(bs, i) == r {
      Holds32s(bs, i, r.type_, r.addr, r.symbol);
    }
  }

  lemma InfosReadable(bs: seq<Byte>)
    ensures forall f, i: nat :: Holds(bs, i, PutInfo(f)) ==> GetInfo(bs, i) == f
  {
    hide *;
    forall f, i: nat | Holds(bs, i, PutInfo(f)) ensures GetInfo(bs, i) == f {
      InfoBack(bs, i, f);
    }
  }

  lemma FunsBack(p: Image)
    requires Writable(p)
    ensures GetAll(PutImage(p), FunsStart(p), |p.funs|, 12, GetFunction) == p.funs
    ensures SectionEnd(PutImage(p), FunsStart(p), 12 * |p.funs|) == Some(FunsStart(p) + Align(12 * |p.funs|))
  {
    hide *;
    SectionsHeld(p);
    SectionSizes(p);
    FunctionsReadable(PutImage(p));
    SectionBack(PutImage(p), FunsStart(p), p.funs, 12, PutFunction, GetFunction);
  }

  lemma VarsBack(p: Image)
    requires Writable(p)
    ensures GetAll(PutImage(p), VarsStart(p), |p.vars|, 16, GetValue) == p.vars
    ensures SectionEnd(PutImage(p), VarsStart(p), 16 * |p.vars|) == Some(VarsStart(p) + Align(16 * |p.vars|))
  {
    hide *;
    SectionsHeld(p);
    SectionSizes(p);
    ValuesReadable(PutImage(p));
    SectionBack(PutImage(p), VarsStart(p), p.vars, 16, PutValue, GetValue);
  }

  lemma CodeBack(p: Image)
    requires Writable(p)
    ensures GetAll(PutImage(p), CodeStart(p), |p.code|, 12, GetInstruction) == p.code
    ensures SectionEnd(PutImage(p), CodeStart(p), 12 * |p.code|) == Some(CodeStart(p) + Align(12 * |p.code|))
  {
    hide *;
    SectionsHeld(p);
    SectionSizes(p);
    InstructionsReadable(PutImage(p));
    SectionBack(PutImage(p), CodeStart(p), p.code, 12, PutInstruction, GetInstruction);
  }

  lemma AlignedAgain(n: nat)
    requires n % 8 == 0
    ensures Align(n) == n
  {
  }

  lemma SectionEndIs(bs: seq<Byte>, at: nat, n: nat)
    requires at + Align(n) <= |bs|
    ensures SectionEnd(bs, at, n) == Some(at + Align(n))
  {
  }

  lemma DataBack(p: Image)
    requires Writable(p)
    ensures SectionEnd(PutImage(p), DataStart(p), DataSize(p.objects)) == Some(DataStart(p) + DataSize(p.objects))
    ensures ReadObjects(PutImage(p), DataStart(p), 0, DataSize(p.objects)) == Some((Addresses(p.objects, 0), p.objects))
  {
    hide *;
    WritableObjects(p);
    SectionsHeld(p);
    SectionSizes(p);
    AlignedAgain(DataSize(p.objects));
    HeldFits(PutImage(p), DataStart(p), PutAll(p.objects, PutPaddedObject));
    SectionEndIs(PutImage(p), DataStart(p), DataSize(p.objects));
    ObjectsBack(PutImage(p), DataStart(p), 0, p.objects, DataSize(p.objects));
  }

  lemma WritableObjects(p: Image)
    requires Writable(p)
    ensures forall o :: o in p.objects ==> ValidObject(o)
    ensures forall s :: s in p.symbols ==> |s.name| < TWO16
  {
  }

  lemma BodyBack(p: Image)
    requires Valid(p)
    ensures ReadBody(PutImage(p), HeaderOf(p))
            == Some(Body(p.funs, p.vars, p.code, Addresses(p.objects, 0), p.objects, RelocsStart(p)))
  {
    hide PutImage, GetAll, ReadObjects, SectionEnd, RefsOk, Addresses, DataSize, Align, FunctionOk, ValueOk;
    FunsBack(p);
    VarsBack(p);
    CodeBack(p);
    DataBack(p);
  }

  lemma RelocsBack(p: Image)
    requires Writable(p)
    ensures GetAll(PutImage(p), RelocsStart(p), |p.relocs|, 12, GetRelocation) == p.relocs
    ensures SectionEnd(PutImage(p), RelocsStart(p), 12 * |p.relocs|) == Some(RelocsStart(p) + Align(12 * |p.relocs|))
  {
    hide *;
    EndHeld(p);
    SectionSizes(p);
    RelocationsReadable(PutImage(p));
    SectionBack(PutImage(p), RelocsStart(p), p.relocs, 12, PutRelocation, GetRelocation);
  }

  lemma SumAligned(a: nat, b: nat)
    requires a % 8 == 0 && b % 8 == 0
    ensures (a + b) % 8 == 0
  {
  }

  lemma StartsAligned(p: Image)
    ensures RelocsStart(p) % 8 == 0 && SymbolsStart(p) % 8 == 0
    ensures p.relocs == [] && p.symbols == [] ==> Align(RelocsStart(p)) == InfosStart(p)
  {
    hide Align, DataSize, SymbolsSize;
    SumAligned(HEADER_SIZE, Align(12 * |p.funs|));
    SumAligned(VarsStart(p), Align(16 * |p.vars|));
    SumAligned(CodeStart(p), Align(12 * |p.code|));
    SumAligned(DataStart(p), DataSize(p.objects));
    SumAligned(RelocsStart(p), Align(12 * |p.relocs|));
    AlignedAgain(RelocsStart(p));
    AlignedAgain(0);
    if p.symbols == [] { NothingToAlign(p); }
  }

  lemma NothingToAlign(p: Image)
    requires p.symbols == []
    ensures SymbolsSize(p.symbols) == 0
  {
  }

  lemma RelocationPartBack(p: Image) returns (end: nat)
    requires Valid(p)
    ensures ReadRelocs(PutImage(p), HeaderOf(p), RelocsStart(p)) == Some((p.relocs, p.symbols, end))
    ensures Align(end) == InfosStart(p)
  {
    hide PutImage, Holds, GetAll, PutAll, Align, SectionEnd, SymbolTypeOk, RelocationOk, ReadSymbols, IsSymbolic, DataSize,
         SymbolsSize, RelocsStart, IsRelocatable, HasNativeSymbols;
    StartsAligned(p);
    if IsRelocatable(p.flags) {
      EndHeld(p);
      RelocsBack(p);
      end := SymbolsBack(PutImage(p), SymbolsStart(p), p.symbols, HasNativeSymbols(p.flags));
    } else {
      end := RelocsStart(p);
    }
  }

  lemma InfosBack(p: Image, at: nat)
    requires Valid(p) && Align(at) == InfosStart(p)
    ensures ReadInfos(PutImage(p), HeaderOf(p), at) == Some(p.infos)
  {
    hide PutImage, Holds, GetAll, PutAll, Align, SectionEnd, Padded, InfosStart, HasInfos;
    if HasInfos(p.flags) {
      SectionSizes(p);
      EndHeld(p);
      InfosReadable(PutImage(p));
      SectionBack(PutImage(p), InfosStart(p), p.infos, 12, PutInfo, GetInfo);
    }
  }

  /** The loader accepts every image that meets its tests and reads back its functions, variables,
      code, objects at their addresses, relocations, symbols and function infos. */
  lemma ImageIsReadBack(p: Image)
    requires Valid(p)
    ensures ReadImage(PutImage(p)) == Some(LoadedOf(p))
  {
    hide PutImage, ReadHeader, ReadBody, ReadRelocs, ReadInfos, Align, RelocsStart;
    HeaderBack(p);
    BodyBack(p);
    var end := RelocationPartBack(p);
    InfosBack(p, end);
  }

  /** A function that starts behind the code, or ends there, makes the loader reject the image. */
  lemma BadFunctionIsRejected(p: Image, f: Function)
    requires Writable(p) && f in p.funs && !FunctionOk(f, |p.code|)
    ensures ReadImage(PutImage(p)) == None
  {
    hide PutImage, ReadHeader, GetAll, SectionEnd, FunctionOk, Writable, Align;
    HeaderBack(p);
    FunsBack(p);
    assert ReadFuns(PutImage(p), HeaderOf(p), HEADER_SIZE) == None;
  }

  // ------------------------------------------------------------------ every accepted image

  /** An object as the loader lets it pass. */
  predicate AcceptedObject(o: Object) {
    && ElemSize(o.type_) != 0
    && (if o.type_ == TUPLE then |o.types| == |o.elems| && forall t :: t in o.types ==> t <= 2 else o.types == [])
  }

  /** Objects behind each other without overlap, each aligned and inside the data section, up to its
      end. */
  ghost predicate Tiles(addrs: seq<nat>, objects: seq<Object>, i: nat, size: nat)
    decreases |objects|
  {
    if objects == [] then addrs == [] && i >= size
    else
      && addrs != [] && addrs[0] == i && i % 8 == 0 && i + ObjectSize(objects[0]) <= size && AcceptedObject(objects[0])
      && Tiles(addrs[1..], objects[1..], Align(i + ObjectSize(objects[0])), size)
  }

  lemma ReadObjectAccepts(bs: seq<Byte>, data: nat, i: nat, size: nat)
    requires ReadObject(bs, data, i, size).Some?
    ensures var r := ReadObject(bs, data, i, size).value;
            AcceptedObject(r.0) && r.1 == i + ObjectSize(r.0) && r.1 <= size
  {
    hide GetAll, ElemGetter, U32At;
  }

  lemma {:induction false} ReadObjectsTile(bs: seq<Byte>, data: nat, i: nat, size: nat)
    requires i % 8 == 0 && ReadObjects(bs, data, i, size).Some?
    ensures var r := ReadObjects(bs, data, i, size).value; Tiles(r.0, r.1, i, size)
    decreases if i < size then size - i else 0
  {
    hide ReadObject, AcceptedObject, ObjectSize, Align;
    if i < size {
      ReadObjectAccepts(bs, data, i, size);
      ReadObjectsTile(bs, data, Align(ReadObject(bs, data, i, size).value.1), size);
    }
  }

  /** Whatever bytes the loader accepts: its functions lie in the code, its objects tile the data
      section, every reference of a variable is the address of an object modulo 2^32, every symbolic
      relocation names a symbol, and every function info a function. */
  lemma AcceptedIsWellFormed(bs: seq<Byte>)
    requires ReadImage(bs).Some?
    ensures var p, h := ReadImage(bs).value, ReadHeader(bs).value;
            && |p.funs| == h.funCount && |p.vars| == h.varCount && |p.code| == h.codeSize
            && (forall f :: f in p.funs ==> f.addr < |p.code| && f.addr + f.instrCount <= |p.code|)
            && (forall v :: v in p.vars ==> v.type_ <= 2 && (v.type_ == 2 ==> v.i % TWO32 in p.addrs))
            && Tiles(p.addrs, p.objects, 0, h.dataSize)
            && (forall r :: r in p.relocs && IsSymbolic(r) ==> r.symbol < |p.symbols|)
            && (forall f :: f in p.infos ==> f.funIndex < |p.funs|)
  {
    var h := ReadHeader(bs).value;
    AcceptedBody(bs, h);
    AcceptedEnd(bs, h, ReadBody(bs, h).value.end);
    hide ReadHeader, ReadBody, ReadRelocs, ReadInfos, Tiles, IsSymbolic;
  }

  /** Where the sections of an image with some header start. */
  function VarsAfter(h: Header): nat { HEADER_SIZE + Align(12 * h.funCount) }
  function CodeAfter(h: Header): nat { VarsAfter(h) + Align(16 * h.varCount) }
  function DataAfter(h: Header): nat { CodeAfter(h) + Align(12 * h.codeSize) }
  function BodyEnd(h: Header): nat { DataAfter(h) + Align(h.dataSize) }

  lemma FunsRead(bs: seq<Byte>, h: Header, at: nat)
    requires ReadFuns(bs, h, at).Some?
    ensures at + Align(12 * h.funCount) <= |bs|
    ensures ReadFuns(bs, h, at).value == (GetAll(bs, at, h.funCount, 12, GetFunction), at + Align(12 * h.funCount))
  {
    hide GetAll, Align, FunctionOk;
  }

  lemma VarsRead(bs: seq<Byte>, h: Header, at: nat)
    requires ReadVars(bs, h, at).Some?
    ensures at + Align(16 * h.varCount) <= |bs|
    ensures ReadVars(bs, h, at).value == (GetAll(bs, at, h.varCount, 16, GetValue), at + Align(16 * h.varCount))
  {
    hide GetAll, Align, ValueOk;
  }

  lemma BodyRead(bs: seq<Byte>, h: Header)
    requires ReadBody(bs, h).Some?
    ensures var b := ReadBody(bs, h).value;
            && b.end == BodyEnd(h) <= |bs|
            && b.funs == GetAll(bs, HEADER_SIZE, h.funCount, 12, GetFunction)
            && b.vars == GetAll(bs, VarsAfter(h), h.varCount, 16, GetValue)
            && b.code == GetAll(bs, CodeAfter(h), h.codeSize, 12, GetInstruction)
            && ReadObjects(bs, DataAfter(h), 0, h.dataSize) == Some((b.addrs, b.objects))
  {
    hide GetAll, ReadObjects, Align, RefsOk, ReadFuns, ReadVars;
    FunsRead(bs, h, HEADER_SIZE);
    VarsRead(bs, h, VarsAfter(h));
  }

  function SymbolsAfter(h: Header): nat {
    BodyEnd(h) + if IsRelocatable(h.flags) then Align(12 * h.relocCount) else 0
  }

  /** The relocations and the symbols behind them; without relocations neither is there. */
  lemma RelocsRead(bs: seq<Byte>, h: Header)
    requires ReadRelocs(bs, h, BodyEnd(h)).Some?
    ensures var r := ReadRelocs(bs, h, BodyEnd(h)).value;
            if IsRelocatable(h.flags) then
              && SymbolsAfter(h) <= |bs|
              && r.0 == GetAll(bs, BodyEnd(h), h.relocCount, 12, GetRelocation)
              && ReadSymbols(bs, SymbolsAfter(h), h.symbolCount, HasNativeSymbols(h.flags)) == Some((r.1, r.2))
            else r == ([], [], BodyEnd(h))
  {
    hide GetAll, Align, RelocationOk, ReadSymbols, IsSymbolic, IsRelocatable, HasNativeSymbols;
  }

  lemma {:induction false} SymbolsInside(bs: seq<Byte>, at: nat, n: nat, native: bool)
    requires at <= |bs| && ReadSymbols(bs, at, n, native).Some?
    ensures at <= ReadSymbols(bs, at, n, native).value.1 <= |bs|
    decreases n
  {
    if n > 0 {
      SymbolsInside(bs, ReadSymbol(bs, at, n == 1, native).value.1, n - 1, native);
    }
  }

  ghost predicate SymbolAt(bs: seq<Byte>, at: nat, s: Symbol) {
    var next := at + 7 + |s.name|;
    && next <= |bs| && U32At(bs, at) == s.index && U16At(bs, at + 4) == |s.name| && bs[at + 6] == s.type_
    && bs[at + 7..next] == s.name
  }

  function NextSymbol(at: nat, s: Symbol, isLast: bool): nat {
    at + if isLast then 7 + |s.name| else Align(7 + |s.name|)
  }

  /** Every symbol lies behind the one before it, aligned; the last one ends where it ends. */
  ghost predicate SymbolsTile(bs: seq<Byte>, at: nat, symbols: seq<Symbol>, end: nat)
    decreases |symbols|
  {
    if symbols == [] then end == at
    else SymbolAt(bs, at, symbols[0]) && SymbolsTile(bs, NextSymbol(at, symbols[0], |symbols| == 1), symbols[1..], end)
  }

  lemma ReadSymbolIsAt(bs: seq<Byte>, at: nat, isLast: bool, native: bool)
    requires ReadSymbol(bs, at, isLast, native).Some?
    ensures var r := ReadSymbol(bs, at, isLast, native).value; SymbolAt(bs, at, r.0) && r.1 == NextSymbol(at, r.0, isLast)
  {
    hide U32At, U16At, Align;
  }

  lemma {:induction false} ReadSymbolsTile(bs: seq<Byte>, at: nat, n: nat, native: bool)
    requires ReadSymbols(bs, at, n, native).Some?
    ensures var r := ReadSymbols(bs, at, n, native).value; |r.0| == n && SymbolsTile(bs, at, r.0, r.1)
    decreases n
  {
    hide ReadSymbol, SymbolAt, NextSymbol;
    if n > 0 {
      ReadSymbolIsAt(bs, at, n == 1, native);
      ReadSymbolsTile(bs, ReadSymbol(bs, at, n == 1, native).value.1, n - 1, native);
    }
  }

  lemma InfosRead(bs: seq<Byte>, h: Header, at: nat)
    requires ReadInfos(bs, h, at).Some?
    ensures if HasInfos(h.flags) then
              && Align(at) + Align(12 * h.infoCount) <= |bs|
              && ReadInfos(bs, h, at).value == GetAll(bs, Align(at), h.infoCount, 12, GetInfo)
            else ReadInfos(bs, h, at).value == []
  {
    hide GetAll, Align, HasInfos;
  }

  lemma StartsAfterAligned(h: Header)
    ensures VarsAfter(h) % 8 == 0 && CodeAfter(h) % 8 == 0 && DataAfter(h) % 8 == 0 && BodyEnd(h) % 8 == 0
    ensures SymbolsAfter(h) % 8 == 0
  {
    hide Align, IsRelocatable;
    SumAligned(HEADER_SIZE, Align(12 * h.funCount));
    SumAligned(VarsAfter(h), Align(16 * h.varCount));
    SumAligned(CodeAfter(h), Align(12 * h.codeSize));
    SumAligned(DataAfter(h), Align(h.dataSize));
    SumAligned(BodyEnd(h), Align(12 * h.relocCount));
  }

  lemma ImageParts(bs: seq<Byte>)
    requires ReadImage(bs).Some?
    ensures ReadHeader(bs).Some?
    ensures var p, h := ReadImage(bs).value, ReadHeader(bs).value;
            && p.flags == h.flags && p.entry == h.entry
            && ReadBody(bs, h).Some?
            && var b := ReadBody(bs, h).value;
               && p.funs == b.funs && p.vars == b.vars && p.code == b.code && p.addrs == b.addrs && p.objects == b.objects
               && ReadRelocs(bs, h, b.end).Some?
               && var r := ReadRelocs(bs, h, b.end).value;
                  p.relocs == r.0 && p.symbols == r.1 && ReadInfos(bs, h, r.2) == Some(p.infos)
  {
    hide ReadHeader, ReadBody, ReadRelocs, ReadInfos;
  }

  /** Where the sections behind the data of an accepted image lie and end; `end` is the end of the
      symbols. */
  ghost predicate EndSections(bs: seq<Byte>, h: Header, p: Loaded, end: nat) {
    && (if IsRelocatable(h.flags) then
          && BodyEnd(h) <= SymbolsAfter(h) <= end <= |bs|
          && p.relocs == GetAll(bs, BodyEnd(h), h.relocCount, 12, GetRelocation)
          && |p.symbols| == h.symbolCount && SymbolsTile(bs, SymbolsAfter(h), p.symbols, end)
        else p.relocs == [] && p.symbols == [] && end == BodyEnd(h))
    && (if HasInfos(h.flags) then
          && Align(end) + Align(12 * h.infoCount) <= |bs|
          && p.infos == GetAll(bs, Align(end), h.infoCount, 12, GetInfo)
        else p.infos == [])
  }

  lemma AcceptedEndSections(bs: seq<Byte>) returns (end: nat)
    requires ReadImage(bs).Some?
    ensures ReadHeader(bs).Some? && EndSections(bs, ReadHeader(bs).value, ReadImage(bs).value, end)
  {
    ImageParts(bs);
    hide GetAll, ReadSymbols, ReadHeader, ReadBody, ReadRelocs, ReadInfos, ReadImage, SymbolsTile, IsRelocatable, HasInfos, Align;
    var h := ReadHeader(bs).value;
    BodyRead(bs, h);
    RelocsRead(bs, h);
    end := ReadRelocs(bs, h, BodyEnd(h)).value.2;
    if IsRelocatable(h.flags) {
      SymbolsInside(bs, SymbolsAfter(h), h.symbolCount, HasNativeSymbols(h.flags));
      ReadSymbolsTile(bs, SymbolsAfter(h), h.symbolCount, HasNativeSymbols(h.flags));
    }
    InfosRead(bs, h, end);
  }

  /** The sections of an accepted image lie one behind the other, each at a multiple of eight, inside
      the buffer, and hold what is read; `end` is the end of the symbols, behind which the function
      infos lie. */
  lemma AcceptedSections(bs: seq<Byte>) returns (end: nat)
    requires ReadImage(bs).Some?
    ensures ReadHeader(bs).Some?
    ensures var p, h := ReadImage(bs).value, ReadHeader(bs).value;
            && VarsAfter(h) % 8 == 0 && CodeAfter(h) % 8 == 0 && DataAfter(h) % 8 == 0 && BodyEnd(h) % 8 == 0
            && SymbolsAfter(h) % 8 == 0 && BodyEnd(h) <= |bs|
            && p.funs == GetAll(bs, HEADER_SIZE, h.funCount, 12, GetFunction)
            && p.vars == GetAll(bs, VarsAfter(h), h.varCount, 16, GetValue)
            && p.code == GetAll(bs, CodeAfter(h), h.codeSize, 12, GetInstruction)
            && ReadObjects(bs, DataAfter(h), 0, h.dataSize) == Some((p.addrs, p.objects))
            && EndSections(bs, h, p, end)
  {
    hide *;
    ImageParts(bs);
    var h := ReadHeader(bs).value;
    BodyRead(bs, h);
    StartsAfterAligned(h);
    end := AcceptedEndSections(bs);
  }

  lemma AcceptedBody(bs: seq<Byte>, h: Header)
    requires ReadBody(bs, h).Some?
    ensures var b := ReadBody(bs, h).value;
            && |b.funs| == h.funCount && |b.vars| == h.varCount && |b.code| == h.codeSize
            && (forall f :: f in b.funs ==> f.addr < |b.code| && f.addr + f.instrCount <= |b.code|)
            && (forall v :: v in b.vars ==> v.type_ <= 2 && (v.type_ == 2 ==> v.i % TWO32 in b.addrs))
            && Tiles(b.addrs, b.objects, 0, h.dataSize)
            && HEADER_SIZE <= b.end <= |bs|
  {
    hide GetAll, ReadObjects, Tiles, Align;
    var data := SectionEnd(bs, ReadVars(bs, h, ReadFuns(bs, h, HEADER_SIZE).value.1).value.1, 12 * h.codeSize).value;
    ReadObjectsTile(bs, data, 0, h.dataSize);
  }

  lemma AcceptedEnd(bs: seq<Byte>, h: Header, at: nat)
    requires ReadRelocs(bs, h, at).Some?
    ensures var r := ReadRelocs(bs, h, at).value; forall x :: x in r.0 && IsSymbolic(x) ==> x.symbol < |r.1|
    ensures var end := ReadRelocs(bs, h, at).value.2;
            ReadInfos(bs, h, end).Some? ==> forall f :: f in ReadInfos(bs, h, end).value ==> f.funIndex < h.funCount
  {
    hide GetAll, Align, IsSymbolic, RelocationOk;
    if IsRelocatable(h.flags) { ReadSymbolsCount(bs, SectionEnd(bs, at, 12 * h.relocCount).value, h.symbolCount, HasNativeSymbols(h.flags)); }
  }

  lemma {:induction false} ReadSymbolsCount(bs: seq<Byte>, at: nat, n: nat, native: bool)
    ensures ReadSymbols(bs, at, n, native).Some? ==> |ReadSymbols(bs, at, n, native).value.0| == n
    decreases n
  {
    hide ReadSymbol;
    if n > 0 && ReadSymbol(bs, at, n == 1, native).Some? {
      ReadSymbolsCount(bs, ReadSymbol(bs, at, n == 1, native).value.1, n - 1, native);
    }
  }
}
