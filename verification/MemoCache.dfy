/** The memoization cache (vm/cache/ht_memo_cache.cpp): for every function three hash tables, one for
    each type of result. Which argument lists are equal keys, their hash, and which arguments and
    results are small enough and not unique, are parameters. */
module MemoCaches {
  import opened Options
  import opened HashTables

  datatype ValueType = TypeInt | TypeFloat | TypeRef | TypeOther

  /** Bits of a number, or the number of an object. */
  datatype Value = IntValue(i: int) | FloatValue(bits: int) | RefValue(r: int) | OtherValue {
    function Type(): ValueType {
      match this
      case IntValue(_) => TypeInt
      case FloatValue(_) => TypeFloat
      case RefValue(_) => TypeRef
      case OtherValue => TypeOther
    }
  }

  /** `keyOf` gives equal keys the same class. */
  datatype Keys<!A, !Q> = Keys(keyOf: A -> Q, hash: A -> nat, equal: (A, A) -> bool, argsOk: A -> bool, resultOk: Value -> bool)

  /** What the three tables of a function hold; `None` is a table without buckets. */
  datatype Results<Q> = Results(ints: Option<map<Q, int>>, floats: Option<map<Q, int>>, refs: Option<map<Q, int>>)

  // ------------------------------------------------------------------ tables

  function TableGet<Q, V>(t: Option<map<Q, V>>, q: Q): Option<V> {
    if t.Some? && q in t.value then Some(t.value[q]) else None
  }

  /** A table without buckets first gets some, unless there shall be none or memory is short. */
  function TableOpen<Q, V>(t: Option<map<Q, V>>, bucketCount: nat, canAllocate: bool): (Option<map<Q, V>>, bool) {
    if t.Some? || bucketCount == 0 then (t, true)
    else if canAllocate then (Some(map[]), true)
    else (t, false)
  }

  function TableAdd<Q, V>(t: Option<map<Q, V>>, q: Q, v: V, canAllocate: bool): (Option<map<Q, V>>, bool) {
    if t.None? then (t, true)
    else if q in t.value || canAllocate then (Some(t.value[q := v]), true)
    else (t, false)
  }

  /** Opening the table and adding to it, with memory for the table and for the entry or not. */
  function TableStore<Q, V>(t: Option<map<Q, V>>, q: Q, v: V, bucketCount: nat, forTable: bool, forEntry: bool)
    : (Option<map<Q, V>>, bool)
  {
    var ready := TableOpen(t, bucketCount, forTable);
    if ready.1 then TableAdd(ready.0, q, v, forEntry) else ready
  }

  // ------------------------------------------------------------------ the cache

  function ResultIn<Q>(r: Results<Q>, ty: ValueType, q: Q): Option<Value> {
    match ty
    case TypeInt => (match TableGet(r.ints, q) case Some(i) => Some(IntValue(i)) case None => None)
    case TypeFloat => (match TableGet(r.floats, q) case Some(f) => Some(FloatValue(f)) case None => None)
    case TypeRef => (match TableGet(r.refs, q) case Some(o) => Some(RefValue(o)) case None => None)
    case TypeOther => None
  }

  function Lookup<A, Q>(slots: seq<Results<Q>>, keys: Keys<A, Q>, i: nat, ty: ValueType, args: A): Option<Value> {
    if i >= |slots| || !keys.argsOk(args) then None else ResultIn(slots[i], ty, keys.keyOf(args))
  }

  function StoreIn<Q>(r: Results<Q>, v: Value, q: Q, bucketCount: nat, forTable: bool, forEntry: bool): (Results<Q>, bool) {
    match v
    case IntValue(i) => var t := TableStore(r.ints, q, i, bucketCount, forTable, forEntry); (r.(ints := t.0), t.1)
    case FloatValue(f) => var t := TableStore(r.floats, q, f, bucketCount, forTable, forEntry); (r.(floats := t.0), t.1)
    case RefValue(o) => var t := TableStore(r.refs, q, o, bucketCount, forTable, forEntry); (r.(refs := t.0), t.1)
    case OtherValue => (r, true)
  }

  /** What is not memoizable is left alone, and that counts as success. */
  function Store<A, Q>(slots: seq<Results<Q>>, keys: Keys<A, Q>, i: nat, ty: ValueType, args: A, v: Value,
                       bucketCount: nat, forTable: bool, forEntry: bool): (seq<Results<Q>>, bool)
  {
    if i >= |slots| || ty != v.Type() || !keys.argsOk(args) || !keys.resultOk(v) then (slots, true)
    else
      var r := StoreIn(slots[i], v, keys.keyOf(args), bucketCount, forTable, forEntry);
      (slots[i := r.0], r.1)
  }

  /** Storing a result changes what is found under its function, type and key, and nothing else. */
  lemma StoreThenLookup<A, Q>(slots: seq<Results<Q>>, keys: Keys<A, Q>, i: nat, ty: ValueType, args: A, v: Value,
                              bucketCount: nat, forTable: bool, forEntry: bool, i': nat, ty': ValueType, args': A)
    ensures var after := Store(slots, keys, i, ty, args, v, bucketCount, forTable, forEntry).0;
            && |after| == |slots|
            && (Lookup(after, keys, i', ty', args') == Lookup(slots, keys, i', ty', args')
                || (i' == i && ty' == ty == v.Type() && keys.keyOf(args') == keys.keyOf(args)
                    && Lookup(after, keys, i', ty', args') == Some(v)))
  {
  }

  /** A stored result is found, exactly if there is a slot and a bucket for it. */
  lemma StoredIsFound<A, Q>(slots: seq<Results<Q>>, keys: Keys<A, Q>, i: nat, args: A, v: Value, bucketCount: nat)
    requires v != OtherValue && keys.argsOk(args) && keys.resultOk(v)
    ensures var after := Store(slots, keys, i, v.Type(), args, v, bucketCount, true, true);
            after.1 && (Lookup(after.0, keys, i, v.Type(), args) == Some(v) <==>
                        i < |slots| && (bucketCount > 0 || HasTable(slots[i], v.Type())))
  {
  }

  predicate HasTable<Q>(r: Results<Q>, ty: ValueType) {
    match ty
    case TypeInt => r.ints.Some?
    case TypeFloat => r.floats.Some?
    case TypeRef => r.refs.Some?
    case TypeOther => false
  }

  // ------------------------------------------------------------------ the tables in memory

  /** The map that a table holds. */
  ghost function ViewOf<A(!new), Q(!new)>(t: HashTable<A, int, Q>): Option<map<Q, int>>
    reads t
  {
    if t.buckets == null then None else Some(t.Contents())
  }

  /** Where the table of a type is among the three of a function. */
  function TableOf(ty: ValueType): nat {
    match ty
    case TypeInt => 0
    case TypeFloat => 1
    case TypeRef => 2
    case TypeOther => 2
  }

  function NumberOf(v: Value): int {
    match v
    case IntValue(i) => i
    case FloatValue(f) => f
    case RefValue(r) => r
    case OtherValue => 0
  }

  function ValueOf(ty: ValueType, n: int): Value {
    match ty
    case TypeInt => IntValue(n)
    case TypeFloat => FloatValue(n)
    case TypeRef => RefValue(n)
    case TypeOther => OtherValue
  }

  /** `set_bucket_count_for_nil_ref` and `add` on one table. */
  method StoreInTable<A(!new), Q(!new)>(t: HashTable<A, int, Q>, key: A, n: int, bucketCount: nat, forTable: bool, forEntry: bool)
    returns (ok: bool)
    requires t.Valid()
    modifies t.Repr()
    ensures t.Valid() && fresh(t.Repr() - old(t.Repr()))
    ensures (ViewOf(t), ok) == TableStore(old(ViewOf(t)), t.classOf(key), n, bucketCount, forTable, forEntry)
  {
    hide t.Valid;
    ok := t.SetBucketCountForNilRef(bucketCount, forTable);
    if ok {
      ok := t.Add(key, n, forEntry, forEntry, forEntry);
    }
  }

  ghost predicate NewTable<A(!new), Q(!new)>(t: HashTable<A, int, Q>, keys: Keys<A, Q>)
    reads t, t.Repr()
  {
    && t.Valid() && t.buckets == null
    && t.hash == keys.hash && t.equal == keys.equal && t.classOf == keys.keyOf
  }

  ghost predicate AllApart<A(!new), Q(!new)>(tables: seq<HashTable<A, int, Q>>)
    reads tables
  {
    forall j, k {:trigger tables[j], tables[k]} :: 0 <= j < k < |tables| ==> tables[j].Repr() !! tables[k].Repr()
  }

  method MakeTable<A(!new), Q(!new)>(keys: Keys<A, Q>) returns (t: HashTable<A, int, Q>)
    requires Respects(keys.hash, keys.keyOf)
    requires forall k, k' {:trigger keys.equal(k, k')} :: keys.equal(k, k') <==> keys.keyOf(k) == keys.keyOf(k')
    ensures NewTable(t, keys) && fresh(t) && t.Repr() == {t}
  {
    t := new HashTable(keys.hash, keys.equal, keys.keyOf);
  }

  method MakeTables<A(!new), Q(!new)>(keys: Keys<A, Q>, count: nat) returns (made: seq<HashTable<A, int, Q>>)
    requires Respects(keys.hash, keys.keyOf)
    requires forall k, k' {:trigger keys.equal(k, k')} :: keys.equal(k, k') <==> keys.keyOf(k) == keys.keyOf(k')
    ensures |made| == count && AllApart(made)
    ensures forall j {:trigger made[j]} :: 0 <= j < |made| ==> NewTable(made[j], keys) && fresh(made[j].Repr())
  {
    hide Respects, NewTable, HashTable.Repr;
    made := [];
    while |made| < count
      invariant |made| <= count
      invariant forall j {:trigger made[j]} :: 0 <= j < |made| ==>
                  NewTable(made[j], keys) && fresh(made[j]) && made[j].Repr() == {made[j]}
      invariant forall j, k {:trigger made[j], made[k]} :: 0 <= j < k < |made| ==> made[j] != made[k]
    {
      var t := MakeTable(keys);
      made := made + [t];
    }
  }

  /** The cache: three tables for every function, no two of which share anything. */
  class MemoizationCache<A(!new), Q(!new)> {
    const keys: Keys<A, Q>
    const funCount: nat
    const bucketCount: nat
    const tables: seq<HashTable<A, int, Q>>

    ghost predicate TableOk(j: nat)
      requires j < |tables|
      reads tables[j], tables[j].Repr()
    {
      var t := tables[j];
      t.Valid() && t.hash == keys.hash && t.equal == keys.equal && t.classOf == keys.keyOf
    }

    ghost function Repr(): set<object>
      reads tables
    {
      set j, o | 0 <= j < |tables| && o in tables[j].Repr() :: o
    }

    ghost predicate Valid()
      reads tables, Repr()
    {
      && |tables| == 3 * funCount && AllApart(tables)
      && forall j :: 0 <= j < |tables| ==> TableOk(j)
    }

    ghost function SlotOf(i: nat): Results<Q>
      requires 3 * i + 2 < |tables|
      reads tables
    {
      Results(ViewOf(tables[3 * i]), ViewOf(tables[3 * i + 1]), ViewOf(tables[3 * i + 2]))
    }

    ghost function Slots(): (slots: seq<Results<Q>>)
      requires |tables| == 3 * funCount
      reads tables
      ensures |slots| == funCount
    {
      seq(funCount, i requires 0 <= i < funCount reads tables => SlotOf(i))
    }

    constructor (keys: Keys<A, Q>, funCount: nat, bucketCount: nat)
      requires Respects(keys.hash, keys.keyOf)
      requires forall k, k' {:trigger keys.equal(k, k')} :: keys.equal(k, k') <==> keys.keyOf(k) == keys.keyOf(k')
      ensures Valid() && fresh(Repr()) && this.keys == keys && this.bucketCount == bucketCount && this.funCount == funCount
      ensures forall i, ty, args :: Lookup(Slots(), keys, i, ty, args) == None
    {
      var made := MakeTables(keys, 3 * funCount);
      this.keys, this.funCount, this.bucketCount := keys, funCount, bucketCount;
      tables := made;
      new;
      hide Respects, HashTable.Valid, HashTable.Repr, Valid, AllApart, Lookup, Slots, SlotOf;
      forall j | 0 <= j < |tables| ensures TableOk(j) {
        assert NewTable(tables[j], keys);
      }
      NothingStored();
      AllOk();
    }

    lemma NothingStored()
      requires |tables| == 3 * funCount && forall j {:trigger tables[j]} :: 0 <= j < |tables| ==> tables[j].buckets == null
      ensures forall i, ty, args :: Lookup(Slots(), keys, i, ty, args) == None
    {
      hide HashTable.Valid;
    }

    /** The table of a function and a type. */
    method TableResult(j: nat, args: A) returns (n: Option<int>)
      requires Valid() && j < |tables|
      ensures n == TableGet(ViewOf(tables[j]), keys.keyOf(args))
    {
      assert TableOk(j);
      hide HashTable.Valid, AllApart;
      if tables[j].buckets == null { tables[j].EmptyWithoutBuckets(); }
      n := tables[j].Get(args);
    }

    method FunResult(i: nat, ty: ValueType, args: A) returns (result: Option<Value>)
      requires Valid()
      ensures result == Lookup(Slots(), keys, i, ty, args)
    {
      hide Valid, Repr;
      Shape();
      if i >= funCount { return None; }
      if !keys.argsOk(args) { return None; }
      if ty.TypeOther? { return None; }
      var n := TableResult(3 * i + TableOf(ty), args);
      if n.None? { return None; }
      return Some(ValueOf(ty, n.value));
    }

    lemma Shape()
      requires Valid()
      ensures |tables| == 3 * funCount
    {
    }

    method AddFunResult(i: nat, ty: ValueType, args: A, result: Value, forTable: bool, forEntry: bool) returns (ok: bool)
      requires Valid()
      modifies Repr()
      ensures Valid() && fresh(Repr() - old(Repr()))
      ensures (Slots(), ok) == Store(old(Slots()), keys, i, ty, args, result, bucketCount, forTable, forEntry)
    {
      hide Valid, Repr;
      Shape();
      if i >= funCount { return true; }
      if ty != result.Type() { return true; }
      if !keys.argsOk(args) { return true; }
      if !keys.resultOk(result) { return true; }
      if ty.TypeOther? {
        assert Slots() == Slots()[i := Slots()[i]];
        return true;
      }
      ok := StoreAt(3 * i + TableOf(ty), args, NumberOf(result), forTable, forEntry);
      assert Slots() == old(Slots())[i := SlotOf(i)];
    }

    method StoreAt(j: nat, args: A, n: int, forTable: bool, forEntry: bool) returns (ok: bool)
      requires Valid() && j < |tables|
      modifies Repr()
      ensures Valid() && fresh(Repr() - old(Repr()))
      ensures (ViewOf(tables[j]), ok) == TableStore(old(ViewOf(tables[j])), keys.keyOf(args), n, bucketCount, forTable, forEntry)
      ensures forall k :: 0 <= k < |tables| && k != j ==> ViewOf(tables[k]) == old(ViewOf(tables[k]))
    {
      hide Valid, HashTable.Valid, HashTable.Repr, TableStore, ViewOf, Repr, TableOk, AllApart;
      ghost var before, all := Reprs(), Repr();
      AllAreApart();
      InMemory();
      ok := StoreApart(j, before, args, n, forTable, forEntry);
      StillApart(j, before, all);
      AllOk();
      forall o | o in Repr() && o !in old(Repr()) ensures fresh(o) {
        assert o in tables[j].Repr() - before[j];
      }
    }

    lemma AllOk()
      requires |tables| == 3 * funCount && AllApart(tables)
      requires forall k :: 0 <= k < |tables| ==> TableOk(k)
      ensures Valid()
    {
    }

    /** Storing in one table changes no other. */
    method StoreApart(j: nat, ghost before: seq<set<object>>, args: A, n: int, forTable: bool, forEntry: bool) returns (ok: bool)
      requires j < |tables| && before == Reprs()
      requires forall k :: 0 <= k < |tables| ==> TableOk(k)
      requires forall k :: 0 <= k < |tables| ==> tables[k] in before[k]
      requires forall k :: 0 <= k < |tables| && k != j ==> before[k] !! before[j]
      modifies tables[j].Repr()
      ensures forall k :: 0 <= k < |tables| ==> TableOk(k)
      ensures fresh(tables[j].Repr() - before[j])
      ensures (ViewOf(tables[j]), ok) == TableStore(old(ViewOf(tables[j])), keys.keyOf(args), n, bucketCount, forTable, forEntry)
      ensures forall k :: 0 <= k < |tables| && k != j ==>
                tables[k].Repr() == before[k] && ViewOf(tables[k]) == old(ViewOf(tables[k]))
    {
      hide HashTable.Valid, HashTable.Repr, TableStore, ViewOf;
      TableIsOk(j);
      ok := StoreInTable(tables[j], args, n, bucketCount, forTable, forEntry);
      StoredTableIsOk(j);
      forall k | 0 <= k < |tables| && k != j
        ensures TableOk(k) && tables[k].Repr() == before[k] && ViewOf(tables[k]) == old(ViewOf(tables[k]))
      {
        assert before[k] !! before[j] && tables[k] in before[k];
      }
    }

    lemma InMemory()
      ensures forall o :: o in Repr() ==> allocated(o)
    {
      forall k, o | 0 <= k < |tables| && o in tables[k].Repr() ensures allocated(o) {
      }
    }

    lemma AllAreApart()
      requires Valid()
      ensures |tables| == 3 * funCount
      ensures forall k :: 0 <= k < |tables| ==> TableOk(k)
      ensures forall k :: 0 <= k < |tables| ==> tables[k] in Reprs()[k]
      ensures forall k, l {:trigger Reprs()[k], Reprs()[l]} :: 0 <= k < l < |tables| ==> Reprs()[k] !! Reprs()[l]
      ensures forall k, o :: 0 <= k < |tables| && o in Reprs()[k] ==> o in Repr()
    {
    }

    ghost function Reprs(): (reprs: seq<set<object>>)
      reads tables
      ensures |reprs| == |tables|
    {
      seq(|tables|, k requires 0 <= k < |tables| reads tables => tables[k].Repr())
    }

    lemma StillApart(j: nat, before: seq<set<object>>, all: set<object>)
      requires j < |tables| == |before|
      requires forall k :: 0 <= k < |tables| && k != j ==> tables[k].Repr() == before[k]
      requires forall k, l {:trigger before[k], before[l]} :: 0 <= k < l < |before| ==> before[k] !! before[l]
      requires forall k, o :: 0 <= k < |before| && o in before[k] ==> o in all
      requires tables[j].Repr() - before[j] !! all
      ensures AllApart(tables) && Repr() - all <= tables[j].Repr() - before[j]
    {
      hide HashTable.Repr;
      forall k, l | 0 <= k < l < |tables| ensures tables[k].Repr() !! tables[l].Repr() {
        assert before[k] !! before[l];
        assert forall o :: o in before[k] || o in before[l] ==> o in all;
      }
    }

    lemma TableIsOk(j: nat)
      requires j < |tables| && TableOk(j)
      ensures tables[j].Valid() && tables[j].Repr() <= Repr() && tables[j].classOf == keys.keyOf
      ensures tables[j].hash == keys.hash && tables[j].equal == keys.equal
    {
    }

    lemma StoredTableIsOk(j: nat)
      requires j < |tables| && tables[j].Valid()
      requires tables[j].hash == keys.hash && tables[j].equal == keys.equal && tables[j].classOf == keys.keyOf
      ensures TableOk(j)
    {
    }
  }
}
