/** What the loader reads from an image (vm/impl_loader.cpp), as a function of the bytes, and the
    round trip with what the compiler writes. */
module ImageReading {
  import opened Options
  import opened Bytes
  import opened ImageFormat

  // ------------------------------------------------------------------ numbers and records at a place

  /** Some bytes lie at a place. */
  ghost predicate Holds(bs: seq<Byte>, at: nat, e: seq<Byte>) {
    at + |e| <= |bs| && bs[at..at + |e|] == e
  }

  function ByteAt(bs: seq<Byte>, at: nat): Byte {
    if at < |bs| then bs[at] else 0
  }

  function U16At(bs: seq<Byte>, at: nat): U16 {
    if at + 2 <= |bs| then Get16(bs[at..at + 2]) else 0
  }

  function U32At(bs: seq<Byte>, at: nat): U32 {
    if at + 4 <= |bs| then Get32(bs[at..at + 4]) else 0
  }

  function U64At(bs: seq<Byte>, at: nat): U64 {
    if at + 8 <= |bs| then Get64(bs[at..at + 8]) else 0
  }

  function GetFunction(bs: seq<Byte>, at: nat): Function {
    Function(U32At(bs, at), U32At(bs, at + 4), U32At(bs, at + 8))
  }

  function GetValue(bs: seq<Byte>, at: nat): Value {
    Value(U32At(bs, at), U64At(bs, at + 8))
  }

  function GetInstruction(bs: seq<Byte>, at: nat): Instruction {
    Instruction(U32At(bs, at), U32At(bs, at + 4), U32At(bs, at + 8))
  }

  function GetRelocation(bs: seq<Byte>, at: nat): Relocation {
    Relocation(U32At(bs, at), U32At(bs, at + 4), U32At(bs, at + 8))
  }

  function GetInfo(bs: seq<Byte>, at: nat): FunctionInfo {
    FunctionInfo(U32At(bs, at), ByteAt(bs, at + 4), ByteAt(bs, at + 5))
  }

  function GetElem(width: nat, bs: seq<Byte>, at: nat): U64 {
    if width == 1 then ByteAt(bs, at) else if width == 2 then U16At(bs, at) else if width == 4 then U32At(bs, at) else U64At(bs, at)
  }

  function ElemGetter(width: nat): (seq<Byte>, nat) -> U64 {
    (bs, at) => GetElem(width, bs, at)
  }

  function GetAll<T>(bs: seq<Byte>, at: nat, n: nat, width: nat, get: (seq<Byte>, nat) -> T): (r: seq<T>)
    ensures |r| == n
    decreases n
  {
    if n == 0 then [] else [get(bs, at)] + GetAll(bs, at + width, n - 1, width, get)
  }

  // ------------------------------------------------------------------ sections

  datatype Header = Header(flags: U32, entry: U32, funCount: U32, varCount: U32, codeSize: U32, dataSize: U32,
                           relocCount: U32, symbolCount: U32, infoCount: U32)

  datatype Loaded = Loaded(flags: U32, entry: U32, funs: seq<Function>, vars: seq<Value>, code: seq<Instruction>,
                           addrs: seq<nat>, objects: seq<Object>, relocs: seq<Relocation>, symbols: seq<Symbol>,
                           infos: seq<FunctionInfo>)

  function ReadHeader(bs: seq<Byte>): Option<Header> {
    if |bs| < HEADER_SIZE || bs[..8] != MAGIC then None
    else Some(Header(U32At(bs, 8), U32At(bs, 12), U32At(bs, 16), U32At(bs, 20), U32At(bs, 24), U32At(bs, 28),
                     U32At(bs, 32), U32At(bs, 36), U32At(bs, 40)))
  }

  /** The end of a section of some length, if it lies in the buffer. */
  function SectionEnd(bs: seq<Byte>, at: nat, length: nat): Option<nat> {
    if at + Align(length) <= |bs| then Some(at + Align(length)) else None
  }

  /** A function starts before the end of the code, and its instructions end there at the latest;
      their sum is one of 32 bits that must not wrap around. */
  predicate FunctionOk(f: Function, codeSize: nat) {
    f.addr < codeSize && f.addr + f.instrCount < TWO32 && f.addr + f.instrCount <= codeSize
  }

  predicate ValueOk(v: Value) {
    v.type_ <= 2
  }

  /** An object of the data section, and where it ends. */
  function ReadObject(bs: seq<Byte>, data: nat, i: nat, size: nat): (r: Option<(Object, nat)>)
    ensures r.Some? ==> i + 8 <= r.value.1 <= size
  {
    var type_, length := U32At(bs, data + i), U32At(bs, data + i + 4);
    var width := ElemSize(type_);
    var end := i + 8 + width * length + if type_ == TUPLE then length else 0;
    if width == 0 || end > size then None
    else
      var elems := GetAll(bs, data + i + 8, length, width, ElemGetter(width));
      var types := if type_ == TUPLE then GetAll(bs, data + i + 8 + 8 * length, length, 1, ByteAt) else [];
      if exists t :: t in types && t > 2 then None else Some((Object(type_, elems, types), end))
  }

  /** The objects of the data section from a place on, with their addresses. */
  function ReadObjects(bs: seq<Byte>, data: nat, i: nat, size: nat): Option<(seq<nat>, seq<Object>)>
    decreases if i < size then size - i else 0
  {
    if i >= size then Some(([], []))
    else
      match ReadObject(bs, data, i, size)
      case None => None
      case Some(first) =>
        match ReadObjects(bs, data, Align(first.1), size)
        case None => None
        case Some(rest) => Some(([i] + rest.0, [first.0] + rest.1))
  }

  predicate RelocationOk(r: Relocation, native: bool) {
    r.type_ % 256 + (r.type_ / 512) * 512 <= 5
    || (native && (r.type_ == 262 || r.type_ == 263 || r.type_ == 264 || r.type_ == 265))
  }

  predicate IsSymbolic(r: Relocation) {
    r.type_ / 256 % 2 == 1
  }

  predicate SymbolTypeOk(type_: Byte, native: bool) {
    type_ == 0 || type_ == 1 || type_ == 16 || type_ == 17 || (native && type_ == 2)
  }

  /** A symbol, and where the next one starts; the last one is not padded. */
  function ReadSymbol(bs: seq<Byte>, at: nat, isLast: bool, native: bool): Option<(Symbol, nat)> {
    if at + 7 > |bs| || !SymbolTypeOk(bs[at + 6], native) then None
    else
      var end := at + 7 + U16At(bs, at + 4);
      var next := if isLast then end else at + Align(end - at);
      if next > |bs| then None else Some((Symbol(U32At(bs, at), bs[at + 6], bs[at + 7..end]), next))
  }

  /** The symbols from a place on, and where they end. */
  function ReadSymbols(bs: seq<Byte>, at: nat, n: nat, native: bool): Option<(seq<Symbol>, nat)>
    decreases n
  {
    if n == 0 then Some(([], at))
    else
      match ReadSymbol(bs, at, n == 1, native)
      case None => None
      case Some(first) =>
        match ReadSymbols(bs, first.1, n - 1, native)
        case None => None
        case Some(rest) => Some(([first.0] + rest.0, rest.1))
  }

  /** Every variable that is a reference refers to the start of an object; addresses are compared
      modulo 2^32. */
  predicate RefsOk(vars: seq<Value>, addrs: seq<nat>) {
    forall v :: v in vars && v.type_ == 2 ==> v.i % TWO32 in addrs
  }

  function ReadRelocs(bs: seq<Byte>, h: Header, at: nat): Option<(seq<Relocation>, seq<Symbol>, nat)> {
    if !IsRelocatable(h.flags) then Some(([], [], at))
    else
      match SectionEnd(bs, at, 12 * h.relocCount)
      case None => None
      case Some(end) =>
        var relocs := GetAll(bs, at, h.relocCount, 12, GetRelocation);
        if exists r :: r in relocs && !RelocationOk(r, HasNativeSymbols(h.flags)) then None
        else
          match ReadSymbols(bs, end, h.symbolCount, HasNativeSymbols(h.flags))
          case None => None
          case Some(symbols) =>
            if exists r :: r in relocs && IsSymbolic(r) && r.symbol >= h.symbolCount then None
            else Some((relocs, symbols.0, symbols.1))
  }

  function ReadInfos(bs: seq<Byte>, h: Header, at: nat): Option<seq<FunctionInfo>> {
    if !HasInfos(h.flags) then Some([])
    else
      match SectionEnd(bs, Align(at), 12 * h.infoCount)
      case None => None
      case Some(_) =>
        var infos := GetAll(bs, Align(at), h.infoCount, 12, GetInfo);
        if exists f :: f in infos && f.funIndex >= h.funCount then None else Some(infos)
  }

  /** The four sections that every image has. */
  datatype Body = Body(funs: seq<Function>, vars: seq<Value>, code: seq<Instruction>, addrs: seq<nat>, objects: seq<Object>, end: nat)

  function ReadFuns(bs: seq<Byte>, h: Header, at: nat): Option<(seq<Function>, nat)> {
    match SectionEnd(bs, at, 12 * h.funCount)
    case None => None
    case Some(end) =>
      var funs := GetAll(bs, at, h.funCount, 12, GetFunction);
      if exists f :: f in funs && !FunctionOk(f, h.codeSize) then None else Some((funs, end))
  }

  function ReadVars(bs: seq<Byte>, h: Header, at: nat): Option<(seq<Value>, nat)> {
    match SectionEnd(bs, at, 16 * h.varCount)
    case None => None
    case Some(end) =>
      var vars := GetAll(bs, at, h.varCount, 16, GetValue);
      if exists v :: v in vars && !ValueOk(v) then None else Some((vars, end))
  }

  function ReadBody(bs: seq<Byte>, h: Header): Option<Body> {
    match ReadFuns(bs, h, HEADER_SIZE)
    case None => None
    case Some(funs) =>
      match ReadVars(bs, h, funs.1)
      case None => None
      case Some(vars) =>
        match SectionEnd(bs, vars.1, 12 * h.codeSize)
        case None => None
        case Some(data) =>
          match SectionEnd(bs, data, h.dataSize)
          case None => None
          case Some(end) =>
            match ReadObjects(bs, data, 0, h.dataSize)
            case None => None
            case Some(objects) =>
              if !RefsOk(vars.0, objects.0) then None
              else Some(Body(funs.0, vars.0, GetAll(bs, vars.1, h.codeSize, 12, GetInstruction), objects.0, objects.1, end))
  }

  function ReadImage(bs: seq<Byte>): Option<Loaded> {
    match ReadHeader(bs)
    case None => None
    case Some(h) =>
      match ReadBody(bs, h)
      case None => None
      case Some(b) =>
        match ReadRelocs(bs, h, b.end)
        case None => None
        case Some(r) =>
          match ReadInfos(bs, h, r.2)
          case None => None
          case Some(infos) => Some(Loaded(h.flags, h.entry, b.funs, b.vars, b.code, b.addrs, b.objects, r.0, r.1, infos))
  }
}
