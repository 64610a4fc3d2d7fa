/** The data objects of a program in the compiler (comp/impl_comp.cpp): the objects of a variable are
    a tree, which is listed with every object behind those it refers to and laid out in that order;
    references become the addresses of their objects. */
module ObjectGraphLayout {
  import opened Options
  import opened Bytes
  import opened ParseTrees
  import F = ImageFormat

  const IARRAY8: nat := 0
  const IARRAY16: nat := 1
  const IARRAY32: nat := 2
  const IARRAY64: nat := 3
  const SFARRAY: nat := 4
  const DFARRAY: nat := 5
  const RARRAY: nat := 6
  const TUPLE: nat := F.TUPLE

  /** The header and the elements; those of a tuple have a byte more for their type. */
  function Size(o: Object): nat {
    8 + F.ElemSize(o.type_) * |o.elems| + if o.type_ == TUPLE then |o.elems| else 0
  }

  /** Which values an object may hold. */
  predicate Fits(type_: nat, e: Value) {
    if type_ <= IARRAY16 then e.IntValue?
    else if type_ <= IARRAY64 then e.IntValue? || e.FunIndex? || e.NativeFunIndex?
    else if type_ <= DFARRAY then e.FloatValue?
    else type_ == RARRAY ==> e.RefValue?
  }

  predicate WellTyped(o: Object)
    decreases o
  {
    o.type_ <= TUPLE && forall e :: e in o.elems ==> Fits(o.type_, e) && (e.RefValue? ==> WellTyped(e.object_))
  }

  /** All objects of a tree, every object behind those it refers to. */
  function Listed(o: Object): seq<Object>
    decreases o, |o.elems| + 1
  {
    ListedFrom(o, 0) + [o]
  }

  /** Those that the elements from some one on refer to. */
  function ListedFrom(o: Object, j: nat): seq<Object>
    requires j <= |o.elems|
    decreases o, |o.elems| - j
  {
    if j == |o.elems| then []
    else (if o.elems[j].RefValue? then Listed(o.elems[j].object_) else []) + ListedFrom(o, j + 1)
  }

  /** Whether the first elements fit their object, and those of all they refer to. */
  ghost predicate ElemsOk(o: Object, n: nat)
    requires n <= |o.elems|
  {
    forall k :: 0 <= k < n ==> ElemOk(o.type_, o.elems[k])
  }

  lemma WellTypedByElems(o: Object)
    ensures WellTyped(o) <==> o.type_ <= TUPLE && ElemsOk(o, |o.elems|)
  {
    hide Fits;
    if o.type_ <= TUPLE && ElemsOk(o, |o.elems|) {
      forall e | e in o.elems ensures ElemOk(o.type_, e) {
        var k :| 0 <= k < |o.elems| && o.elems[k] == e;
        assert ElemOk(o.type_, o.elems[k]);
      }
    }
    if WellTyped(o) {
      forall k | 0 <= k < |o.elems| ensures ElemOk(o.type_, o.elems[k]) {
        assert o.elems[k] in o.elems;
      }
    }
  }

  lemma ListedFromNext(o: Object, j: nat, before: seq<Object>)
    requires j < |o.elems|
    ensures before + ListedFrom(o, j)
            == before + (if o.elems[j].RefValue? then Listed(o.elems[j].object_) else []) + ListedFrom(o, j + 1)
  {
    hide Listed;
  }

  /** `add_object_pairs_from_object`: fails on an object of a wrong type or with wrong elements. */
  method AddObjects(list: seq<Object>, o: Object) returns (ok: bool, list': seq<Object>)
    ensures ok <==> WellTyped(o)
    ensures ok ==> list' == list + Listed(o)
    decreases o, |o.elems| + 1
  {
    hide WellTyped, ElemsOk, ListedFrom;
    WellTypedByElems(o);
    if o.type_ > TUPLE { return false, list; }
    ok, list' := AddElems(list, o);
    if ok { list' := list' + [o]; }
  }

  method AddElems(list: seq<Object>, o: Object) returns (ok: bool, list': seq<Object>)
    ensures ok <==> ElemsOk(o, |o.elems|)
    ensures ok ==> list' == list + ListedFrom(o, 0)
    decreases o, |o.elems|
  {
    hide WellTyped, ListedFrom, Listed, Fits;
    list' := list;
    var j := 0;
    while j < |o.elems|
      invariant j <= |o.elems| && ElemsOk(o, j)
      invariant list + ListedFrom(o, 0) == list' + ListedFrom(o, j)
    {
      var e := o.elems[j];
      ListedFromNext(o, j, list');
      if !Fits(o.type_, e) {
        assert !ElemOk(o.type_, o.elems[j]);
        return false, list';
      }
      if e.RefValue? {
        var done;
        done, list' := AddObjects(list', e.object_);
        if !done {
          assert !ElemOk(o.type_, o.elems[j]);
          return false, list';
        }
      }
      j := j + 1;
    }
    NothingListed(o);
    return true, list';
  }

  lemma NothingListed(o: Object)
    ensures ListedFrom(o, |o.elems|) == []
  {
  }

  predicate ElemOk(type_: nat, e: Value) {
    Fits(type_, e) && (e.RefValue? ==> WellTyped(e.object_))
  }

  // ------------------------------------------------------------------ order

  /** Every object refers only to objects before it. */
  ghost predicate RefersBack(list: seq<Object>) {
    forall k, e {:trigger e in list[k].elems} :: 0 <= k < |list| && e in list[k].elems && e.RefValue? ==> e.object_ in list[..k]
  }

  lemma AppendRefersBack(a: seq<Object>, b: seq<Object>)
    requires RefersBack(a) && RefersBack(b)
    ensures RefersBack(a + b)
  {
    forall k, e | 0 <= k < |a + b| && e in (a + b)[k].elems && e.RefValue? ensures e.object_ in (a + b)[..k] {
      if k < |a| {
        assert e in a[k].elems && (a + b)[..k] == a[..k];
      } else {
        assert e in b[k - |a|].elems && (a + b)[..k] == a + b[..k - |a|];
      }
    }
  }

  lemma {:induction false} ListedRefersBack(o: Object)
    ensures RefersBack(Listed(o))
    decreases o, |o.elems| + 1
  {
    ListedFromRefersBack(o, 0);
    var list := ListedFrom(o, 0);
    forall k, e | 0 <= k <= |list| && e in (list + [o])[k].elems && e.RefValue? ensures e.object_ in (list + [o])[..k] {
      assert (list + [o])[..k] == list[..k];
      if k < |list| { assert e in list[k].elems; }
    }
  }

  lemma {:induction false} ListedFromRefersBack(o: Object, j: nat)
    requires j <= |o.elems|
    ensures RefersBack(ListedFrom(o, j))
    ensures forall e :: e in o.elems[j..] && e.RefValue? ==> e.object_ in ListedFrom(o, j)
    decreases o, |o.elems| - j
  {
    if j < |o.elems| {
      ListedFromRefersBack(o, j + 1);
      assert o.elems[j..] == [o.elems[j]] + o.elems[j + 1..];
      if o.elems[j].RefValue? {
        var first := Listed(o.elems[j].object_);
        ListedRefersBack(o.elems[j].object_);
        AppendRefersBack(first, ListedFrom(o, j + 1));
        assert first[|first| - 1] == o.elems[j].object_;
      } else {
        assert [] + ListedFrom(o, j + 1) == ListedFrom(o, j + 1);
      }
    }
  }

  // ------------------------------------------------------------------ addresses

  function AddressOf(list: seq<Object>, k: nat): nat
    requires k <= |list|
  {
    if k == 0 then 0 else AddressOf(list, k - 1) + Align(Size(list[k - 1]))
  }

  ghost predicate DistinctIds(list: seq<Object>) {
    forall j, k :: 0 <= j < k < |list| ==> list[j].id != list[k].id
  }

  /** The addresses of the first objects by their identities. */
  function AddrsOf(list: seq<Object>, n: nat): map<nat, nat>
    requires n <= |list|
  {
    if n == 0 then map[] else AddrsOf(list, n - 1)[list[n - 1].id := AddressOf(list, n - 1)]
  }

  lemma {:induction false} AddrsOfAt(list: seq<Object>, n: nat, k: nat)
    requires k < n <= |list| && DistinctIds(list)
    ensures list[k].id in AddrsOf(list, n) && AddrsOf(list, n)[list[k].id] == AddressOf(list, k)
    decreases n
  {
    hide AddressOf;
    if k < n - 1 { AddrsOfAt(list, n - 1, k); }
  }

  lemma AddressesGrow(list: seq<Object>, j: nat, k: nat)
    requires j < k <= |list|
    ensures AddressOf(list, j) < AddressOf(list, k)
    decreases k
  {
    if j < k - 1 { AddressesGrow(list, j, k - 1); }
  }

  // ------------------------------------------------------------------ elements

  /** A number is in the range of the elements, and a name is known. */
  predicate InRange(env: Environment, type_: nat, e: Value) {
    match e
    case IntValue(i) =>
      && (type_ == IARRAY8 ==> -0x80 <= i < 0x100)
      && (type_ == IARRAY16 ==> -0x8000 <= i < 0x1_0000)
      && (type_ == IARRAY32 ==> -0x8000_0000 <= i < TWO32)
    case FunIndex(name) => IndexOf(env, env.funs, name).Some?
    case NativeFunIndex(_) => NativeIndex(env).Some?
    case _ => true
  }

  /** An index of 32 bits becomes a signed number. */
  function Extended(index: U32): U64 {
    if index < 0x8000_0000 then index else index + TWO64 - TWO32
  }

  /** A value of 64 bits: `value_to_format_value`. */
  function ValueBits(env: Environment, e: Value, addrs: map<nat, nat>): U64
    requires e.FunIndex? ==> IndexOf(env, env.funs, e.fun).Some?
    requires e.NativeFunIndex? ==> NativeIndex(env).Some?
  {
    match e
    case IntValue(i) => i % TWO64
    case FloatValue(_, double_) => double_
    case RefValue(o) => if o.id in addrs then addrs[o.id] % TWO32 else 0
    case FunIndex(name) => Extended(IndexOf(env, env.funs, name).value)
    case NativeFunIndex(_) => Extended(NativeIndex(env).value)
  }

  const VALUE_TYPE_INT: Byte := 0
  const VALUE_TYPE_FLOAT: Byte := 1
  const VALUE_TYPE_REF: Byte := 2

  function TypeOf(e: Value): Byte {
    if e.FloatValue? then VALUE_TYPE_FLOAT else if e.RefValue? then VALUE_TYPE_REF else VALUE_TYPE_INT
  }

  /** An element of an object, in the width of its type. */
  function ElemBits(env: Environment, type_: nat, e: Value, addrs: map<nat, nat>): U64
    requires InRange(env, type_, e)
  {
    var bits := ValueBits(env, e, addrs);
    if type_ == IARRAY8 then bits % 0x100
    else if type_ == IARRAY16 then bits % TWO16
    else if type_ == SFARRAY && e.FloatValue? then e.single
    else if type_ == IARRAY32 || type_ == SFARRAY || type_ == RARRAY then bits % TWO32
    else bits
  }

  ghost predicate ElemsInRange(env: Environment, o: Object, n: nat)
    requires n <= |o.elems|
  {
    forall j :: 0 <= j < n ==> InRange(env, o.type_, o.elems[j])
  }

  /** An object of the image: an object of the program with the addresses of those it refers to. */
  ghost predicate Holds(env: Environment, i: F.Object, o: Object, addrs: map<nat, nat>) {
    && i.type_ == o.type_ && |i.elems| == |o.elems| && |i.types| == (if o.type_ == TUPLE then |o.elems| else 0)
    && forall j :: 0 <= j < |o.elems| ==>
         && InRange(env, o.type_, o.elems[j]) && i.elems[j] == ElemBits(env, o.type_, o.elems[j], addrs)
         && (o.type_ == TUPLE ==> i.types[j] == TypeOf(o.elems[j]))
  }

  method ImageOf(env: Environment, o: Object, addrs: map<nat, nat>) returns (ok: bool, i: F.Object)
    requires o.type_ <= TUPLE
    ensures ok <==> ElemsInRange(env, o, |o.elems|)
    ensures ok ==> Holds(env, i, o, addrs)
  {
    hide InRange, ElemBits;
    var elems: seq<U64>, types: seq<Byte> := [], [];
    ok := true;
    var j := 0;
    while j < |o.elems|
      invariant j <= |o.elems| == |o.elems| && |elems| == j && |types| == (if o.type_ == TUPLE then j else 0)
      invariant ok <==> ElemsInRange(env, o, j)
      invariant ok ==> forall k :: 0 <= k < j ==> InRange(env, o.type_, o.elems[k]) && elems[k] == ElemBits(env, o.type_, o.elems[k], addrs)
      invariant ok && o.type_ == TUPLE ==> forall k :: 0 <= k < j ==> types[k] == TypeOf(o.elems[k])
    {
      if InRange(env, o.type_, o.elems[j]) {
        elems := elems + [ElemBits(env, o.type_, o.elems[j], addrs)];
      } else {
        ok := false;
        elems := elems + [0];
      }
      if o.type_ == TUPLE { types := types + [TypeOf(o.elems[j])]; }
      j := j + 1;
    }
    i := F.Object(o.type_, elems, types);
  }

  /** Only the addresses of the objects referred to count. */
  lemma {:induction false} HoldsMore(env: Environment, i: F.Object, o: Object, addrs: map<nat, nat>, id: nat, addr: nat)
    requires Holds(env, i, o, addrs) && forall e :: e in o.elems && e.RefValue? ==> e.object_.id != id
    ensures Holds(env, i, o, addrs[id := addr])
  {
    hide InRange;
    forall j | 0 <= j < |o.elems| ensures i.elems[j] == ElemBits(env, o.type_, o.elems[j], addrs[id := addr]) {
      assert o.elems[j] in o.elems;
    }
  }

  // ------------------------------------------------------------------ layout

  ghost predicate AllInRange(env: Environment, list: seq<Object>, n: nat)
    requires n <= |list|
  {
    forall k :: 0 <= k < n ==> ElemsInRange(env, list[k], |list[k].elems|)
  }

  ghost predicate LaidOut(env: Environment, list: seq<Object>, objects: seq<F.Object>, addrs: map<nat, nat>) {
    |objects| <= |list| && forall k :: 0 <= k < |objects| ==> Holds(env, objects[k], list[k], addrs)
  }

  /** What an object refers to is another one than those behind it. */
  lemma RefersToOthers(list: seq<Object>, j: nat, k: nat)
    requires j <= k < |list| && RefersBack(list) && DistinctIds(list)
    ensures forall e :: e in list[j].elems && e.RefValue? ==> e.object_.id != list[k].id
  {
    forall e | e in list[j].elems && e.RefValue? ensures e.object_.id != list[k].id {
      var i :| 0 <= i < j && list[..j][i] == e.object_;
      assert list[i].id != list[k].id;
    }
  }

  lemma {:induction false} LaidOutNext(env: Environment, list: seq<Object>, objects: seq<F.Object>, i: F.Object)
    requires |objects| < |list| && DistinctIds(list) && RefersBack(list)
    requires LaidOut(env, list, objects, AddrsOf(list, |objects|)) && Holds(env, i, list[|objects|], AddrsOf(list, |objects|))
    ensures LaidOut(env, list, objects + [i], AddrsOf(list, |objects| + 1))
  {
    hide Holds, AddressOf, DistinctIds, RefersBack;
    var n := |objects|;
    forall k | 0 <= k <= n ensures Holds(env, (objects + [i])[k], list[k], AddrsOf(list, n + 1)) {
      RefersToOthers(list, k, n);
      HoldsMore(env, (objects + [i])[k], list[k], AddrsOf(list, n), list[n].id, AddressOf(list, n));
    }
  }

  /** The objects one behind the other, aligned; fails on a value out of its range or unknown. */
  method LayOut(env: Environment, list: seq<Object>) returns (ok: bool, addrs: map<nat, nat>, objects: seq<F.Object>)
    requires DistinctIds(list) && RefersBack(list) && forall o :: o in list ==> o.type_ <= TUPLE
    ensures ok <==> AllInRange(env, list, |list|)
    ensures addrs == AddrsOf(list, |list|) && (ok ==> |objects| == |list| && LaidOut(env, list, objects, addrs))
  {
    hide Holds, DistinctIds, RefersBack, ElemsInRange, LaidOut;
    ok, addrs, objects := true, map[], [];
    var at, k := 0, 0;
    NothingLaidOut(env, list);
    while k < |list|
      invariant k <= |list| && at == AddressOf(list, k) && addrs == AddrsOf(list, k)
      invariant ok <==> AllInRange(env, list, k)
      invariant |objects| == k && (ok ==> LaidOut(env, list, objects, addrs))
    {
      var fits, i := ImageOf(env, list[k], addrs);
      if ok && fits { LaidOutNext(env, list, objects, i); }
      ok := ok && fits;
      objects := objects + [i];
      addrs := addrs[list[k].id := at];
      at := at + Align(Size(list[k]));
      k := k + 1;
    }
  }

  lemma {:induction false} NothingLaidOut(env: Environment, list: seq<Object>)
    ensures LaidOut(env, list, [], map[])
  {
  }

  // ------------------------------------------------------------------ the objects read back

  predicate IsAddress(o: F.Object, j: nat) {
    o.type_ == RARRAY || (o.type_ == TUPLE && j < |o.types| && o.types[j] == VALUE_TYPE_REF)
  }

  /** The tree that lies at an address: the same types, every value as its bits, and every reference
      the address of the tree that it refers to. */
  ghost predicate Represents(env: Environment, data: map<nat, F.Object>, addr: nat, o: Object)
    decreases o
  {
    && addr in data && data[addr].type_ == o.type_ && |data[addr].elems| == |o.elems|
    && forall j :: 0 <= j < |o.elems| ==>
         && (IsAddress(data[addr], j) <==> o.elems[j].RefValue?)
         && if o.elems[j].RefValue? then Represents(env, data, data[addr].elems[j], o.elems[j].object_)
            else InRange(env, o.type_, o.elems[j]) && data[addr].elems[j] == ElemBits(env, o.type_, o.elems[j], map[])
  }

  /** The objects are found at their addresses. */
  ghost predicate Placed(list: seq<Object>, objects: seq<F.Object>, data: map<nat, F.Object>) {
    |objects| == |list| && forall k {:trigger objects[k]} :: 0 <= k < |list| ==> AddressOf(list, k) in data && data[AddressOf(list, k)] == objects[k]
  }

  lemma {:induction false} ReferenceIsAddress(env: Environment, i: F.Object, o: Object, addrs: map<nat, nat>, j: nat)
    requires Holds(env, i, o, addrs) && j < |o.elems| && o.elems[j].RefValue? && Fits(o.type_, o.elems[j]) && o.type_ <= TUPLE
    requires o.elems[j].object_.id in addrs && addrs[o.elems[j].object_.id] < TWO32
    ensures IsAddress(i, j) && i.elems[j] == addrs[o.elems[j].object_.id]
  {
  }

  lemma {:induction false} OtherIsValue(env: Environment, i: F.Object, o: Object, addrs: map<nat, nat>, j: nat)
    requires Holds(env, i, o, addrs) && j < |o.elems| && !o.elems[j].RefValue? && Fits(o.type_, o.elems[j])
    ensures !IsAddress(i, j) && InRange(env, o.type_, o.elems[j]) && i.elems[j] == ElemBits(env, o.type_, o.elems[j], map[])
  {
  }

  /** The laid out data is the object graph of the source: at the address of every object lies its
      whole tree. */
  lemma {:induction false} LaidOutRepresents(env: Environment, list: seq<Object>, objects: seq<F.Object>, data: map<nat, F.Object>, k: nat)
    requires RefersBack(list) && DistinctIds(list) && forall o :: o in list ==> WellTyped(o)
    requires LaidOut(env, list, objects, AddrsOf(list, |list|)) && Placed(list, objects, data)
    requires k < |list| && AddressOf(list, |list|) < TWO32
    ensures Represents(env, data, AddressOf(list, k), list[k])
    decreases k
  {
    hide Holds, ElemBits, InRange, IsAddress, DistinctIds, LaidOut;
    var o, image, addrs := list[k], objects[k], AddrsOf(list, |list|);
    HoldsAt(env, list, objects, addrs, k);
    assert data[AddressOf(list, k)] == image && WellTyped(o);
    forall j | 0 <= j < |o.elems|
      ensures (IsAddress(image, j) <==> o.elems[j].RefValue?)
      ensures if o.elems[j].RefValue? then Represents(env, data, image.elems[j], o.elems[j].object_)
              else InRange(env, o.type_, o.elems[j]) && image.elems[j] == ElemBits(env, o.type_, o.elems[j], map[])
    {
      var e := o.elems[j];
      assert e in list[k].elems;
      if e.RefValue? {
        var at :| 0 <= at < k && list[..k][at] == e.object_;
        LaidOutRepresents(env, list, objects, data, at);
        AddrsOfAt(list, |list|, at);
        AddressesGrow(list, at, |list|);
        ReferenceIsAddress(env, image, o, addrs, j);
      } else {
        OtherIsValue(env, image, o, addrs, j);
      }
    }
  }

  lemma {:induction false} HoldsAt(env: Environment, list: seq<Object>, objects: seq<F.Object>, addrs: map<nat, nat>, k: nat)
    requires LaidOut(env, list, objects, addrs) && k < |objects|
    ensures Holds(env, objects[k], list[k], addrs)
    ensures objects[k].type_ == list[k].type_ && |objects[k].elems| == |list[k].elems|
  {
  }
}
