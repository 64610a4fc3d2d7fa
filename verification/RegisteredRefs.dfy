/** Registered references (`RegisteredReference` in vm/vm.cpp): the references of native code that
    the collector must see, on a circular doubly linked list of their thread. */
module RegisteredRefs {
  class RegisteredReference {
    var object_: nat
    var prev: RegisteredReference?
    var next: RegisteredReference?

    constructor (object_: nat)
      ensures this.object_ == object_ && prev == null && next == null
    {
      this.object_ := object_;
      prev, next := null, null;
    }
  }

  function After(j: nat, n: nat): nat
    requires j < n
    ensures After(j, n) < n
  {
    if j + 1 < n then j + 1 else 0
  }

  function Before(j: nat, n: nat): nat
    requires j < n
    ensures Before(j, n) < n
  {
    if j > 0 then j - 1 else n - 1
  }

  ghost predicate NoRepeat(list: seq<RegisteredReference>) {
    forall j, k :: 0 <= j < k < |list| ==> list[j] != list[k]
  }

  ghost predicate LinkedAt(list: seq<RegisteredReference>, j: nat)
    requires j < |list|
    reads list[j]
  {
    list[j].next == list[After(j, |list|)] && list[j].prev == list[Before(j, |list|)]
  }

  /** An element whose links skip a position. */
  ghost predicate BypassedAt(list: seq<RegisteredReference>, pos: nat, j: nat)
    requires pos < |list| && j < |list| && j != pos
    reads list[j]
  {
    var n := |list|;
    && list[j].next == list[if After(j, n) == pos then After(pos, n) else After(j, n)]
    && list[j].prev == list[if Before(j, n) == pos then Before(pos, n) else Before(j, n)]
  }

  ghost predicate AllBypassed(list: seq<RegisteredReference>, pos: nat)
    requires pos < |list|
    reads list
  {
    forall j {:trigger BypassedAt(list, pos, j)} :: 0 <= j < |list| && j != pos ==> BypassedAt(list, pos, j)
  }

  /** Where an element was before a position was taken out. */
  function Kept(pos: nat, j: nat): nat {
    if j < pos then j else j + 1
  }

  lemma KeptNeighbours(list: seq<RegisteredReference>, pos: nat, j: nat)
    requires pos < |list| && j + 1 < |list|
    ensures var rest, n, o := list[..pos] + list[pos + 1..], |list|, Kept(pos, j);
            && rest[j] == list[o] && o < n && o != pos
            && rest[After(j, n - 1)] == list[if After(o, n) == pos then After(pos, n) else After(o, n)]
            && rest[Before(j, n - 1)] == list[if Before(o, n) == pos then Before(pos, n) else Before(o, n)]
  {
  }

  lemma WithoutOne(list: seq<RegisteredReference>, pos: nat)
    requires NoRepeat(list) && pos < |list|
    ensures NoRepeat(list[..pos] + list[pos + 1..])
  {
  }

  lemma Relinked(list: seq<RegisteredReference>, pos: nat)
    requires pos < |list| && AllBypassed(list, pos)
    ensures var rest := list[..pos] + list[pos + 1..]; forall j {:trigger LinkedAt(rest, j)} :: 0 <= j < |rest| ==> LinkedAt(rest, j)
  {
    hide LinkedAt, AllBypassed;
    var rest := list[..pos] + list[pos + 1..];
    forall j | 0 <= j < |rest| ensures LinkedAt(rest, j) {
      RelinkedAt(list, pos, j);
    }
  }

  lemma RelinkedAt(list: seq<RegisteredReference>, pos: nat, j: nat)
    requires pos < |list| && AllBypassed(list, pos) && j + 1 < |list|
    ensures LinkedAt(list[..pos] + list[pos + 1..], j)
  {
    var o := Kept(pos, j);
    assert BypassedAt(list, pos, o);
    KeptNeighbours(list, pos, j);
  }

  /** The registered references of a thread. */
  class Registry {
    var first: RegisteredReference?
    var last: RegisteredReference?
    ghost var list: seq<RegisteredReference>

    ghost predicate Valid()
      reads this, list
    {
      && NoRepeat(list)
      && first == (if list == [] then null else list[0])
      && last == (if list == [] then null else list[|list| - 1])
      && (forall j {:trigger LinkedAt(list, j)} :: 0 <= j < |list| ==> LinkedAt(list, j))
    }

    constructor ()
      ensures Valid() && list == []
    {
      first, last, list := null, null, [];
    }

    /** A reference on the list has neighbours, if only itself. */
    lemma HasNeighbours(r: RegisteredReference)
      requires Valid() && r in list
      ensures r.prev != null && r.next != null
    {
      var j :| 0 <= j < |list| && list[j] == r;
      assert LinkedAt(list, j);
    }

    /** `register_ref`: a reference that is on no list is put at the end. */
    method RegisterRef(r: RegisteredReference)
      requires Valid() && (r in list || (r.prev == null && r.next == null))
      modifies this, r`prev, r`next, list
      ensures Valid() && list == if r in old(list) then old(list) else old(list) + [r]
      ensures forall x :: x in list ==> x.object_ == old(x.object_)
    {
      if r in list { HasNeighbours(r); }
      if r.prev == null && r.next == null {
        Link(r);
      }
    }

    method Link(r: RegisteredReference)
      requires Valid() && r !in list
      modifies this, r`prev, r`next, list
      ensures Valid() && list == old(list) + [r]
      ensures forall x :: x in list ==> x.object_ == old(x.object_)
    {
      ghost var n := |list|;
      if list != [] { assert LinkedAt(list, 0) && LinkedAt(list, n - 1); }
      r.prev := if last != null then last else r;
      r.next := if first != null then first else r;
      if r.prev != r { r.prev.next := r; }
      if r.next != r { r.next.prev := r; }
      if first == null { first := r; }
      last := r;
      list := list + [r];
      forall j | 0 <= j < |list| ensures LinkedAt(list, j) {
        if j < n { assert old(LinkedAt(list, j)) && list[j] in old(list); }
      }
    }

    /** The destructor: a reference that is on the list is taken out. */
    method Destroy(r: RegisteredReference, ghost pos: nat)
      requires Valid() && (if r in list then pos < |list| && list[pos] == r else r.prev == null && r.next == null)
      modifies this, list
      ensures Valid() && list == if r in old(list) then old(list)[..pos] + old(list)[pos + 1..] else old(list)
      ensures forall x :: x in old(list) ==> x.object_ == old(x.object_)
    {
      if r in list { HasNeighbours(r); }
      if r.prev != null || r.next != null {
        Unlink(r, pos);
      }
    }

    /** The neighbours of a reference point to each other. */
    method Bypass(r: RegisteredReference, ghost pos: nat)
      requires NoRepeat(list) && (forall j {:trigger LinkedAt(list, j)} :: 0 <= j < |list| ==> LinkedAt(list, j)) && pos < |list| && list[pos] == r
      modifies list
      ensures AllBypassed(list, pos)
      ensures forall x :: x in list ==> x.object_ == old(x.object_)
    {
      assert LinkedAt(list, pos);
      if r.prev != null { r.prev.next := r.next; }
      if r.next != null { r.next.prev := r.prev; }
      forall j | 0 <= j < |list| && j != pos ensures BypassedAt(list, pos, j) {
        assert old(LinkedAt(list, j));
      }
    }

    method MoveEnds(r: RegisteredReference, ghost pos: nat)
      requires Valid() && pos < |list| && list[pos] == r
      modifies this`first, this`last
      ensures var rest := list[..pos] + list[pos + 1..];
              && first == (if rest == [] then null else rest[0])
              && last == (if rest == [] then null else rest[|rest| - 1])
    {
      assert LinkedAt(list, pos);
      if |list| > 1 { assert list[0] != list[|list| - 1]; }
      if first == r { first := if r.next != r then r.next else null; }
      if last == r { last := if r.prev != r then r.prev else null; }
    }

    method Unlink(r: RegisteredReference, ghost pos: nat)
      requires Valid() && pos < |list| && list[pos] == r
      modifies this, list
      ensures Valid() && list == old(list)[..pos] + old(list)[pos + 1..]
      ensures forall x :: x in old(list) ==> x.object_ == old(x.object_)
    {
      hide NoRepeat, LinkedAt, AllBypassed;
      MoveEnds(r, pos);
      Bypass(r, pos);
      Relinked(list, pos);
      WithoutOne(list, pos);
      list := list[..pos] + list[pos + 1..];
    }

    /** The walk of the collector over the roots: every object of a registered reference that is not
        nil, once for each reference, in the order of registration. */
    method Walk() returns (roots: seq<nat>)
      requires Valid()
      ensures roots == RootsOf(list)
    {
      roots := [];
      if first != null {
        var r := first;
        ghost var j := 0;
        while true
          invariant 0 <= j < |list| && r == list[j] && roots == RootsOf(list[..j])
          decreases |list| - j
        {
          assert list[..j + 1][..j] == list[..j];
          if r.object_ != 0 { roots := roots + [r.object_]; }
          assert LinkedAt(list, j);
          r := r.next;
          if r == first { break; }
          j := j + 1;
        }
        assert list[..|list|] == list;
      }
    }
  }

  function RootsOf(list: seq<RegisteredReference>): seq<nat>
    reads list
  {
    if list == [] then []
    else
      var r := list[|list| - 1];
      RootsOf(list[..|list| - 1]) + if r.object_ != 0 then [r.object_] else []
  }
}
