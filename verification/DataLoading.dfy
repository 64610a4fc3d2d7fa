/** Building the objects of a program's data section on the heap (`load_prog` in
    vm/impl_vm_base.cpp): one new object for every data object, then the contents, in which the
    addresses of data objects become references to the new ones. */
module DataLoading {
  import opened Options
  import opened Relocations

  const VALUE_TYPE_FLOAT: int := 1
  const VALUE_TYPE_REF: int := 2
  const OBJECT_TYPE_RARRAY: int := 6

  datatype Element = Number(i: int) | Reference(id: nat)
  datatype HeapObject = HeapObject(type_: int, elems: seq<Element>, elemTypes: seq<int>)

  /** An element of a data object by the type of the element; the address of a reference is taken
      modulo 2^32. `None` for an unknown type or address. */
  function ElementOf(type_: int, i: int, objects: map<nat, nat>): Option<Element> {
    if type_ == VALUE_TYPE_INT || type_ == VALUE_TYPE_FLOAT then Some(Number(i))
    else if type_ == VALUE_TYPE_REF && i % TWO32 in objects then Some(Reference(objects[i % TWO32]))
    else None
  }

  predicate IsNumberArray(type_: int) {
    0 <= type_ < OBJECT_TYPE_RARRAY
  }

  function ElemType(d: DataObject, j: nat): int
    requires j < |d.elems|
  {
    if IsNumberArray(d.type_) then VALUE_TYPE_INT
    else if d.type_ == OBJECT_TYPE_RARRAY then VALUE_TYPE_REF
    else if d.type_ == OBJECT_TYPE_TUPLE && j < |d.elemTypes| then d.elemTypes[j]
    else -1
  }

  predicate KnownType(d: DataObject) {
    IsNumberArray(d.type_) || d.type_ == OBJECT_TYPE_RARRAY || d.type_ == OBJECT_TYPE_TUPLE
  }

  /** An object holds the contents of a data object. */
  ghost predicate Filled(d: DataObject, h: HeapObject, objects: map<nat, nat>) {
    && KnownType(d) && h.type_ == d.type_ && |h.elems| == |d.elems|
    && (forall j :: 0 <= j < |d.elems| ==> ElementOf(ElemType(d, j), d.elems[j], objects) == Some(h.elems[j]))
    && (d.type_ == OBJECT_TYPE_TUPLE ==> h.elemTypes == d.elemTypes)
  }

  /** A data object of known types whose references are addresses of data objects. */
  ghost predicate WellTyped(d: DataObject, addrs: set<nat>) {
    KnownType(d) && forall j :: 0 <= j < |d.elems| ==>
      var t := ElemType(d, j);
      t == VALUE_TYPE_INT || t == VALUE_TYPE_FLOAT || (t == VALUE_TYPE_REF && d.elems[j] % TWO32 in addrs)
  }

  /** The addresses of all data objects in ascending order. */
  ghost predicate Addresses(addrs: seq<nat>, data: map<nat, DataObject>) {
    && (forall k :: 0 <= k < |addrs| ==> addrs[k] in data)
    && (forall a :: a in data ==> a in addrs)
    && forall j, k :: 0 <= j < k < |addrs| ==> addrs[j] < addrs[k]
  }

  /** Contents of one object. */
  method Fill(d: DataObject, h: HeapObject, objects: map<nat, nat>) returns (r: Option<HeapObject>)
    requires h.type_ == d.type_ && |h.elems| == |d.elems|
    ensures r.Some? <==> WellTyped(d, objects.Keys)
    ensures r.Some? ==> Filled(d, r.value, objects)
  {
    if !KnownType(d) { return None; }
    var elems := h.elems;
    var j := 0;
    while j < |elems|
      invariant j <= |elems| == |d.elems|
      invariant forall k :: 0 <= k < j ==> ElementOf(ElemType(d, k), d.elems[k], objects) == Some(elems[k])
    {
      var e := ElementOf(ElemType(d, j), d.elems[j], objects);
      if e.None? { return None; }
      elems := elems[j := e.value];
      j := j + 1;
    }
    return Some(HeapObject(h.type_, elems, if d.type_ == OBJECT_TYPE_TUPLE then d.elemTypes else []));
  }

  /** An object on the heap has the type and the length of a data object. */
  predicate ShapedAs(h: HeapObject, d: DataObject) {
    h.type_ == d.type_ && |h.elems| == |d.elems|
  }

  /** New objects of the shapes of the first data objects, behind those of a heap. */
  ghost predicate Allocated(heap: seq<HeapObject>, data: map<nat, DataObject>, addrs: seq<nat>, k: nat,
                            heap': seq<HeapObject>, objects: map<nat, nat>)
  {
    && k <= |addrs| && |heap'| == |heap| + k && heap'[..|heap|] == heap && objects.Keys <= data.Keys
    && forall j {:trigger addrs[j]} :: 0 <= j < k ==>
         addrs[j] in objects && objects[addrs[j]] == |heap| + j && addrs[j] in data && ShapedAs(heap'[|heap| + j], data[addrs[j]])
  }

  lemma AllocatedNext(heap: seq<HeapObject>, data: map<nat, DataObject>, addrs: seq<nat>, k: nat,
                      heap': seq<HeapObject>, objects: map<nat, nat>, h: HeapObject)
    requires Addresses(addrs, data) && k < |addrs| && Allocated(heap, data, addrs, k, heap', objects)
    requires addrs[k] in data && ShapedAs(h, data[addrs[k]])
    ensures Allocated(heap, data, addrs, k + 1, heap' + [h], objects[addrs[k] := |heap'|])
  {
    hide ShapedAs;
    assert forall j :: 0 <= j < k ==> addrs[j] < addrs[k];
  }

  /** New objects for all data objects, as long as memory lasts. */
  method Allocate(heap: seq<HeapObject>, data: map<nat, DataObject>, addrs: seq<nat>, memory: nat)
    returns (ok: bool, heap': seq<HeapObject>, objects: map<nat, nat>)
    requires Addresses(addrs, data)
    ensures ok <==> |addrs| <= memory
    ensures ok ==> Allocated(heap, data, addrs, |addrs|, heap', objects) && objects.Keys == data.Keys
  {
    heap', objects := heap, map[];
    var k := 0;
    assert Allocated(heap, data, addrs, 0, heap', objects);
    while k < |addrs|
      invariant k <= |addrs| && k <= memory && Allocated(heap, data, addrs, k, heap', objects)
    {
      hide Allocated;
      if k >= memory {
        return false, heap', objects;
      }
      var d := data[addrs[k]];
      var h := HeapObject(d.type_, seq(|d.elems|, _ => Number(0)), []);
      AllocatedNext(heap, data, addrs, k, heap', objects, h);
      objects := objects[addrs[k] := |heap'|];
      heap' := heap' + [h];
      k := k + 1;
    }
    AllAllocated(heap, data, addrs, heap', objects);
    ok := true;
  }

  lemma AllAllocated(heap: seq<HeapObject>, data: map<nat, DataObject>, addrs: seq<nat>, heap': seq<HeapObject>,
                     objects: map<nat, nat>)
    requires Addresses(addrs, data) && Allocated(heap, data, addrs, |addrs|, heap', objects)
    ensures objects.Keys == data.Keys
  {
    forall a | a in data ensures a in objects {
      assert a in addrs;
    }
  }

  /** The contents of the first data objects are filled in. */
  ghost predicate FilledUpTo(heap: seq<HeapObject>, data: map<nat, DataObject>, addrs: seq<nat>, k: nat,
                             heap': seq<HeapObject>, objects: map<nat, nat>)
  {
    && k <= |addrs| && Allocated(heap, data, addrs, |addrs|, heap', objects)
    && forall j {:trigger addrs[j]} :: 0 <= j < k ==>
         && addrs[j] in data && |heap| + j < |heap'|
         && Filled(data[addrs[j]], heap'[|heap| + j], objects) && WellTyped(data[addrs[j]], data.Keys)
  }

  lemma FilledNext(heap: seq<HeapObject>, data: map<nat, DataObject>, addrs: seq<nat>, k: nat,
                   heap': seq<HeapObject>, objects: map<nat, nat>, h: HeapObject)
    requires FilledUpTo(heap, data, addrs, k, heap', objects) && k < |addrs| && addrs[k] in data
    requires Filled(data[addrs[k]], h, objects) && WellTyped(data[addrs[k]], data.Keys)
    ensures |heap| + k < |heap'| && FilledUpTo(heap, data, addrs, k + 1, heap'[|heap| + k := h], objects)
  {
    FilledShape(data[addrs[k]], h, objects);
    hide Filled, WellTyped, ShapedAs;
  }

  /** All data objects as objects on the heap. */
  method LoadData(heap: seq<HeapObject>, data: map<nat, DataObject>, addrs: seq<nat>, memory: nat)
    returns (ok: bool, heap': seq<HeapObject>, objects: map<nat, nat>)
    requires Addresses(addrs, data)
    ensures ok ==> Loaded(heap, data, addrs, heap', objects)
    ensures ok <==> |addrs| <= memory && forall a :: a in data ==> WellTyped(data[a], data.Keys)
  {
    ok, heap', objects := Allocate(heap, data, addrs, memory);
    if !ok { return; }
    hide WellTyped, Filled, Allocated;
    var k := 0;
    while k < |addrs|
      invariant FilledUpTo(heap, data, addrs, k, heap', objects)
    {
      AllocatedAt(heap, data, addrs, heap', objects, k);
      var filled := Fill(data[addrs[k]], heap'[|heap| + k], objects);
      if filled.None? {
        return false, heap', objects;
      }
      FilledNext(heap, data, addrs, k, heap', objects, filled.value);
      heap' := heap'[|heap| + k := filled.value];
      k := k + 1;
    }
    AllFilled(heap, data, addrs, heap', objects);
  }

  lemma AllocatedAt(heap: seq<HeapObject>, data: map<nat, DataObject>, addrs: seq<nat>, heap': seq<HeapObject>,
                    objects: map<nat, nat>, k: nat)
    requires Allocated(heap, data, addrs, |addrs|, heap', objects) && k < |addrs|
    ensures |heap| + k < |heap'| && addrs[k] in data && ShapedAs(heap'[|heap| + k], data[addrs[k]])
  {
  }

  lemma AllFilled(heap: seq<HeapObject>, data: map<nat, DataObject>, addrs: seq<nat>, heap': seq<HeapObject>,
                  objects: map<nat, nat>)
    requires Addresses(addrs, data) && objects.Keys == data.Keys && FilledUpTo(heap, data, addrs, |addrs|, heap', objects)
    ensures Loaded(heap, data, addrs, heap', objects)
    ensures forall a :: a in data ==> WellTyped(data[a], data.Keys)
  {
    hide Filled, WellTyped, ShapedAs;
    forall a | a in data ensures WellTyped(data[a], data.Keys) {
      assert a in addrs;
      var k :| 0 <= k < |addrs| && addrs[k] == a;
    }
  }

  lemma FilledShape(d: DataObject, h: HeapObject, objects: map<nat, nat>)
    requires Filled(d, h, objects)
    ensures h.type_ == d.type_ && |h.elems| == |d.elems|
  {
  }

  ghost predicate Loaded(heap: seq<HeapObject>, data: map<nat, DataObject>, addrs: seq<nat>, heap': seq<HeapObject>,
                         objects: map<nat, nat>)
  {
    && |heap'| == |heap| + |addrs| && heap'[..|heap|] == heap && objects.Keys == data.Keys
    && (forall k :: 0 <= k < |addrs| ==> addrs[k] in data && objects[addrs[k]] == |heap| + k)
    && forall k :: 0 <= k < |addrs| ==> Filled(data[addrs[k]], heap'[|heap| + k], objects)
  }

  lemma AddressIsListed(heap: seq<HeapObject>, data: map<nat, DataObject>, addrs: seq<nat>, heap': seq<HeapObject>,
                        objects: map<nat, nat>, a: nat) returns (k: nat)
    requires Addresses(addrs, data) && Loaded(heap, data, addrs, heap', objects) && a in data
    ensures k < |addrs| && addrs[k] == a && objects[a] == |heap| + k && Filled(data[a], heap'[objects[a]], objects)
  {
    assert a in addrs;
    k :| 0 <= k < |addrs| && addrs[k] == a;
  }

  /** Different data objects become different objects. */
  lemma LoadedInjective(heap: seq<HeapObject>, data: map<nat, DataObject>, addrs: seq<nat>, heap': seq<HeapObject>,
                        objects: map<nat, nat>, a: nat, b: nat)
    requires Addresses(addrs, data) && Loaded(heap, data, addrs, heap', objects) && a in data && b in data
    ensures objects[a] == objects[b] <==> a == b
  {
    var j := AddressIsListed(heap, data, addrs, heap', objects, a);
    var k := AddressIsListed(heap, data, addrs, heap', objects, b);
  }

  /** The heap is isomorphic to the data section: every data object has a new object of its type and
      length; an element refers to the object of a data object exactly if the data object's element
      has that address, and every other element is the same number. */
  lemma LoadedIsomorphic(heap: seq<HeapObject>, data: map<nat, DataObject>, addrs: seq<nat>, heap': seq<HeapObject>,
                         objects: map<nat, nat>, a: nat, j: nat)
    requires Addresses(addrs, data) && Loaded(heap, data, addrs, heap', objects) && a in data && j < |data[a].elems|
    ensures |heap| <= objects[a] < |heap'|
    ensures var d, h := data[a], heap'[objects[a]];
            && h.type_ == d.type_ && |h.elems| == |d.elems|
            && (if ElemType(d, j) == VALUE_TYPE_REF then
                  forall b :: b in data ==> (h.elems[j] == Reference(objects[b]) <==> d.elems[j] % TWO32 == b)
                else h.elems[j] == Number(d.elems[j]))
  {
    var k := AddressIsListed(heap, data, addrs, heap', objects, a);
    var d, h := data[a], heap'[objects[a]];
    assert ElementOf(ElemType(d, j), d.elems[j], objects) == Some(h.elems[j]);
    if ElemType(d, j) == VALUE_TYPE_REF {
      forall b | b in data ensures h.elems[j] == Reference(objects[b]) <==> d.elems[j] % TWO32 == b {
        LoadedInjective(heap, data, addrs, heap', objects, b, d.elems[j] % TWO32);
      }
    }
  }
}
