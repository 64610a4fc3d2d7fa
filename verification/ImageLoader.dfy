/** The loader itself: one pass over the image with a cursor, which keeps the addresses that
    variables refer to until it meets their objects, and the symbols that relocations name until it
    meets them. */
module ImageLoader {
  import opened Options
  import opened Bytes
  import opened ImageFormat
  import opened ImageReading

  lemma {:induction false} GetAllNext<T>(bs: seq<Byte>, at: nat, n: nat, width: nat, get: (seq<Byte>, nat) -> T)
    ensures GetAll(bs, at, n + 1, width, get) == GetAll(bs, at, n, width, get) + [get(bs, at + width * n)]
    decreases n
  {
    if n > 0 {
      GetAllNext(bs, at + width, n - 1, width, get);
      assert at + width + width * (n - 1) == at + width * n;
    }
  }

  /** The first records are the records of a shorter section. */
  lemma {:induction false} GetAllPrefix<T>(bs: seq<Byte>, at: nat, k: nat, n: nat, width: nat, get: (seq<Byte>, nat) -> T)
    requires k <= n
    ensures GetAll(bs, at, n, width, get)[..k] == GetAll(bs, at, k, width, get)
    decreases n
  {
    if k < n {
      GetAllPrefix(bs, at, k, n - 1, width, get);
      GetAllNext(bs, at, n - 1, width, get);
    }
  }

  lemma GetAllAt<T>(bs: seq<Byte>, at: nat, k: nat, n: nat, width: nat, get: (seq<Byte>, nat) -> T)
    requires k < n
    ensures GetAll(bs, at, n, width, get)[k] == get(bs, at + width * k)
  {
    GetAllPrefix(bs, at, k + 1, n, width, get);
    GetAllNext(bs, at, k, width, get);
    assert GetAll(bs, at, n, width, get)[k] == GetAll(bs, at, n, width, get)[..k + 1][k];
  }

  method LoadFuns(bs: seq<Byte>, at: nat, n: nat, codeSize: nat) returns (r: Option<seq<Function>>)
    ensures r == if exists f :: f in GetAll(bs, at, n, 12, GetFunction) && !FunctionOk(f, codeSize) then None
                 else Some(GetAll(bs, at, n, 12, GetFunction))
  {
    hide GetAll, FunctionOk;
    ghost var all := GetAll(bs, at, n, 12, GetFunction);
    var funs: seq<Function> := [];
    var i := 0;
    while i < n
      invariant i <= n && funs == all[..i] && forall f :: f in funs ==> FunctionOk(f, codeSize)
    {
      var f := GetFunction(bs, at + 12 * i);
      GetAllAt(bs, at, i, n, 12, GetFunction);
      if !FunctionOk(f, codeSize) {
        assert all[i] in all;
        return None;
      }
      funs := funs + [f];
      i := i + 1;
    }
    assert all[..n] == all;
    return Some(funs);
  }

  /** The addresses modulo 2^32 of the variables that are references. */
  function RefsOf(vars: seq<Value>): set<nat> {
    set v | v in vars && v.type_ == 2 :: v.i % TWO32
  }

  method LoadVars(bs: seq<Byte>, at: nat, n: nat) returns (r: Option<seq<Value>>, varAddrs: set<nat>)
    ensures r == if exists v :: v in GetAll(bs, at, n, 16, GetValue) && !ValueOk(v) then None else Some(GetAll(bs, at, n, 16, GetValue))
    ensures r.Some? ==> varAddrs == RefsOf(r.value)
  {
    hide GetAll;
    ghost var all := GetAll(bs, at, n, 16, GetValue);
    var vars: seq<Value> := [];
    varAddrs := {};
    var i := 0;
    while i < n
      invariant i <= n && vars == all[..i] && forall v :: v in vars ==> ValueOk(v)
      invariant varAddrs == RefsOf(vars)
    {
      var v := GetValue(bs, at + 16 * i);
      GetAllAt(bs, at, i, n, 16, GetValue);
      if !ValueOk(v) {
        assert all[i] in all;
        return None, varAddrs;
      }
      if v.type_ == 2 { varAddrs := varAddrs + {v.i % TWO32}; }
      RefsNext(vars, v);
      vars := vars + [v];
      i := i + 1;
    }
    assert all[..n] == all;
    return Some(vars), varAddrs;
  }

  lemma RefsNext(vars: seq<Value>, v: Value)
    ensures RefsOf(vars + [v]) == RefsOf(vars) + if v.type_ == 2 then {v.i % TWO32} else {}
  {
    forall x | x in RefsOf(vars) ensures x in RefsOf(vars + [v]) {
      var w :| w in vars && w.type_ == 2 && w.i % TWO32 == x;
      assert w in vars + [v];
    }
    assert v in vars + [v];
  }

  /** The data section; what is left of the addresses are those that no object has. */
  method LoadObjects(bs: seq<Byte>, data: nat, size: nat, varAddrs: set<nat>)
    returns (r: Option<(seq<nat>, seq<Object>)>, left: set<nat>)
    ensures r == ReadObjects(bs, data, 0, size)
    ensures r.Some? ==> left == varAddrs - set a | a in r.value.0
  {
    hide ReadObject, Align;
    left := varAddrs;
    var addrs: seq<nat>, objects: seq<Object> := [], [];
    var i := 0;
    ghost var whole := ReadObjects(bs, data, 0, size);
    BehindEnds(addrs, objects, whole);
    while i < size
      invariant left == varAddrs - set a | a in addrs
      invariant whole == Behind(addrs, objects, ReadObjects(bs, data, i, size))
      decreases if i < size then size - i else 0
    {
      left := left - {i};
      var object_ := ReadObject(bs, data, i, size);
      if object_.None? {
        return None, left;
      }
      BehindNext(addrs, objects, i, object_.value.0, ReadObjects(bs, data, Align(object_.value.1), size));
      addrs := addrs + [i];
      objects := objects + [object_.value.0];
      i := Align(object_.value.1);
    }
    BehindEnds(addrs, objects, None);
    return Some((addrs, objects)), left;
  }

  lemma BehindEnds(addrs: seq<nat>, objects: seq<Object>, rest: Option<(seq<nat>, seq<Object>)>)
    ensures Behind([], [], rest) == rest && Behind(addrs, objects, Some(([], []))) == Some((addrs, objects))
  {
    if rest.Some? { assert [] + rest.value.0 == rest.value.0 && [] + rest.value.1 == rest.value.1; }
    assert addrs + [] == addrs && objects + [] == objects;
  }

  /** What follows, behind what was read before. */
  function Behind(addrs: seq<nat>, objects: seq<Object>, rest: Option<(seq<nat>, seq<Object>)>): Option<(seq<nat>, seq<Object>)> {
    match rest
    case None => None
    case Some(r) => Some((addrs + r.0, objects + r.1))
  }

  lemma BehindNext(addrs: seq<nat>, objects: seq<Object>, a: nat, o: Object, rest: Option<(seq<nat>, seq<Object>)>)
    ensures Behind(addrs, objects, match rest case None => None case Some(r) => Some(([a] + r.0, [o] + r.1)))
            == Behind(addrs + [a], objects + [o], rest)
  {
    if rest.Some? {
      assert addrs + ([a] + rest.value.0) == addrs + [a] + rest.value.0;
      assert objects + ([o] + rest.value.1) == objects + [o] + rest.value.1;
    }
  }

  /** The symbols that relocations name. */
  function SymbolsOf(relocs: seq<Relocation>): set<nat> {
    set r | r in relocs && IsSymbolic(r) :: r.symbol
  }

  lemma SymbolsNext(relocs: seq<Relocation>, r: Relocation)
    ensures SymbolsOf(relocs + [r]) == SymbolsOf(relocs) + if IsSymbolic(r) then {r.symbol} else {}
  {
    forall x | x in SymbolsOf(relocs) ensures x in SymbolsOf(relocs + [r]) {
      var q :| q in relocs && IsSymbolic(q) && q.symbol == x;
      assert q in relocs + [r];
    }
    assert r in relocs + [r];
  }

  method LoadRelocs(bs: seq<Byte>, at: nat, n: nat, native: bool) returns (r: Option<seq<Relocation>>, symbolIdxs: set<nat>)
    ensures r == if exists x :: x in GetAll(bs, at, n, 12, GetRelocation) && !RelocationOk(x, native) then None
                 else Some(GetAll(bs, at, n, 12, GetRelocation))
    ensures r.Some? ==> symbolIdxs == SymbolsOf(r.value)
  {
    hide GetAll, RelocationOk, IsSymbolic;
    ghost var all := GetAll(bs, at, n, 12, GetRelocation);
    var relocs: seq<Relocation> := [];
    symbolIdxs := {};
    var i := 0;
    while i < n
      invariant i <= n && relocs == all[..i] && forall x :: x in relocs ==> RelocationOk(x, native)
      invariant symbolIdxs == SymbolsOf(relocs)
    {
      var x := GetRelocation(bs, at + 12 * i);
      GetAllAt(bs, at, i, n, 12, GetRelocation);
      if !RelocationOk(x, native) {
        assert all[i] in all;
        return None, symbolIdxs;
      }
      if IsSymbolic(x) { symbolIdxs := symbolIdxs + {x.symbol}; }
      SymbolsNext(relocs, x);
      relocs := relocs + [x];
      i := i + 1;
    }
    assert all[..n] == all;
    return Some(relocs), symbolIdxs;
  }

  /** The symbols; what is left of the named ones are those that do not exist. */
  method LoadSymbols(bs: seq<Byte>, at: nat, n: nat, native: bool, symbolIdxs: set<nat>)
    returns (r: Option<(seq<Symbol>, nat)>, left: set<nat>)
    ensures r == ReadSymbols(bs, at, n, native)
    ensures r.Some? ==> left == set x | x in symbolIdxs && x >= n
  {
    hide ReadSymbol;
    left := symbolIdxs;
    var symbols: seq<Symbol>, idx := [], at;
    var j := 0;
    ghost var whole := ReadSymbols(bs, at, n, native);
    assert whole == After(symbols, ReadSymbols(bs, idx, n - j, native)) by { AfterEnds(symbols, idx, whole); }
    while j < n
      invariant j <= n && left == set x | x in symbolIdxs && x >= j
      invariant whole == After(symbols, ReadSymbols(bs, idx, n - j, native))
    {
      left := left - {j};
      var s := ReadSymbol(bs, idx, j + 1 == n, native);
      if s.None? {
        return None, left;
      }
      AfterNext(symbols, s.value.0, ReadSymbols(bs, s.value.1, n - j - 1, native));
      symbols := symbols + [s.value.0];
      idx := s.value.1;
      j := j + 1;
    }
    AfterEnds(symbols, idx, None);
    return Some((symbols, idx)), left;
  }

  function After(symbols: seq<Symbol>, rest: Option<(seq<Symbol>, nat)>): Option<(seq<Symbol>, nat)> {
    match rest
    case None => None
    case Some(r) => Some((symbols + r.0, r.1))
  }

  lemma AfterNext(symbols: seq<Symbol>, s: Symbol, rest: Option<(seq<Symbol>, nat)>)
    ensures After(symbols, match rest case None => None case Some(r) => Some(([s] + r.0, r.1))) == After(symbols + [s], rest)
  {
    if rest.Some? { assert symbols + ([s] + rest.value.0) == symbols + [s] + rest.value.0; }
  }

  lemma AfterEnds(symbols: seq<Symbol>, end: nat, rest: Option<(seq<Symbol>, nat)>)
    ensures After([], rest) == rest && After(symbols, Some(([], end))) == Some((symbols, end))
  {
    if rest.Some? { assert [] + rest.value.0 == rest.value.0; }
    assert symbols + [] == symbols;
  }

  method LoadCode(bs: seq<Byte>, at: nat, n: nat) returns (code: seq<Instruction>)
    ensures code == GetAll(bs, at, n, 12, GetInstruction)
  {
    hide GetAll;
    ghost var all := GetAll(bs, at, n, 12, GetInstruction);
    code := [];
    var i := 0;
    while i < n
      invariant i <= n && code == all[..i]
    {
      GetAllAt(bs, at, i, n, 12, GetInstruction);
      code := code + [GetInstruction(bs, at + 12 * i)];
      i := i + 1;
    }
    assert all[..n] == all;
  }

  /** The sections that every image has. */
  method LoadBody(bs: seq<Byte>, h: Header) returns (r: Option<Body>)
    ensures r == ReadBody(bs, h)
  {
    hide GetAll, ReadObjects, FunctionOk, ValueOk;
    var idx := HEADER_SIZE;
    var end := SectionEnd(bs, idx, 12 * h.funCount);
    if end.None? { return None; }
    var funs := LoadFuns(bs, idx, h.funCount, h.codeSize);
    if funs.None? { return None; }
    idx := end.value;
    end := SectionEnd(bs, idx, 16 * h.varCount);
    if end.None? { return None; }
    var vars, varAddrs := LoadVars(bs, idx, h.varCount);
    if vars.None? { return None; }
    idx := end.value;
    end := SectionEnd(bs, idx, 12 * h.codeSize);
    if end.None? { return None; }
    var code := LoadCode(bs, idx, h.codeSize);
    idx := end.value;
    end := SectionEnd(bs, idx, h.dataSize);
    if end.None? { return None; }
    var objects, left := LoadObjects(bs, idx, h.dataSize, varAddrs);
    if objects.None? { return None; }
    RefsLeft(vars.value, objects.value.0);
    if left != {} { return None; }
    return Some(Body(funs.value, vars.value, code, objects.value.0, objects.value.1, end.value));
  }

  /** No address is left exactly if every reference is to an object. */
  lemma RefsLeft(vars: seq<Value>, addrs: seq<nat>)
    ensures RefsOf(vars) - (set a | a in addrs) == {} <==> RefsOk(vars, addrs)
  {
    if RefsOf(vars) - (set a | a in addrs) == {} {
      forall v | v in vars && v.type_ == 2 ensures v.i % TWO32 in addrs {
        assert v.i % TWO32 in RefsOf(vars);
        assert v.i % TWO32 !in RefsOf(vars) - (set a | a in addrs);
      }
    }
  }

  lemma SymbolsLeft(relocs: seq<Relocation>, n: nat)
    ensures (set x | x in SymbolsOf(relocs) && x >= n) == {} <==> !exists r :: r in relocs && IsSymbolic(r) && r.symbol >= n
  {
    hide IsSymbolic;
    var left := set x | x in SymbolsOf(relocs) && x >= n;
    if r :| r in relocs && IsSymbolic(r) && r.symbol >= n {
      assert r.symbol in left;
    }
  }

  method LoadRelocsAndSymbols(bs: seq<Byte>, h: Header, at: nat) returns (r: Option<(seq<Relocation>, seq<Symbol>, nat)>)
    ensures r == ReadRelocs(bs, h, at)
  {
    hide GetAll, RelocationOk, IsSymbolic, ReadSymbols, IsRelocatable, HasNativeSymbols;
    if !IsRelocatable(h.flags) { return Some(([], [], at)); }
    var end := SectionEnd(bs, at, 12 * h.relocCount);
    if end.None? { return None; }
    var relocs, symbolIdxs := LoadRelocs(bs, at, h.relocCount, HasNativeSymbols(h.flags));
    if relocs.None? { return None; }
    var symbols, left := LoadSymbols(bs, end.value, h.symbolCount, HasNativeSymbols(h.flags), symbolIdxs);
    if symbols.None? { return None; }
    SymbolsLeft(relocs.value, h.symbolCount);
    if left != {} { return None; }
    return Some((relocs.value, symbols.value.0, symbols.value.1));
  }

  method LoadInfos(bs: seq<Byte>, h: Header, at: nat) returns (r: Option<seq<FunctionInfo>>)
    ensures r == ReadInfos(bs, h, at)
  {
    hide GetAll, Align;
    if !HasInfos(h.flags) { return Some([]); }
    var idx := Align(at);
    var end := SectionEnd(bs, idx, 12 * h.infoCount);
    if end.None? { return None; }
    ghost var all := GetAll(bs, idx, h.infoCount, 12, GetInfo);
    var infos: seq<FunctionInfo> := [];
    var i := 0;
    while i < h.infoCount
      invariant i <= h.infoCount && infos == all[..i] && forall f :: f in infos ==> f.funIndex < h.funCount
    {
      var f := GetInfo(bs, idx + 12 * i);
      GetAllAt(bs, idx, i, h.infoCount, 12, GetInfo);
      if f.funIndex >= h.funCount {
        assert all[i] in all;
        return None;
      }
      infos := infos + [f];
      i := i + 1;
    }
    assert all[..h.infoCount] == all;
    return Some(infos);
  }

  /** `load`: the cursor goes through header, functions, variables, code, data, relocations, symbols
      and function infos. */
  method Load(bs: seq<Byte>) returns (r: Option<Loaded>)
    ensures r == ReadImage(bs)
  {
    hide ReadBody, ReadRelocs, ReadInfos, U32At;
    var h := ReadHeader(bs);
    if h.None? { return None; }
    var body := LoadBody(bs, h.value);
    if body.None? { return None; }
    var relocs := LoadRelocsAndSymbols(bs, h.value, body.value.end);
    if relocs.None? { return None; }
    var infos := LoadInfos(bs, h.value, relocs.value.2);
    if infos.None? { return None; }
    var b := body.value;
    return Some(Loaded(h.value.flags, h.value.entry, b.funs, b.vars, b.code, b.addrs, b.objects,
                       relocs.value.0, relocs.value.1, infos.value));
  }
}
