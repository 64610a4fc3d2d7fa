/** The mark-sweep collector (vm/gc/mark_sweep_gc.cpp and its header file). Every object has a
    header with two links. One chains all objects of the heap; the other doubles as the mark bit
    and as the link of the mark stack, whose bottom is the sentinel `nil`. */
module MarkSweep {
  import opened Options
  import opened ObjectGraph

  const VALUE_TYPE_REF: int := 2
  const VALUE_TYPE_CANCELED_REF: int := 4
  const VALUE_TYPE_LAZY_VALUE_REF: int := 5
  const VALUE_TYPE_LOCKED_LAZY_VALUE_REF: int := 6
  const VALUE_TYPE_LAZILY_CANCELED: int := 64

  /** One element of an object: its value type and, for the reference types, the object it
      refers to, or null for the nil reference. */
  datatype Cell = Cell(valueType: int, ref: Header?)

  predicate IsRefValueTypeForGc(t: int) {
    || t == VALUE_TYPE_REF
    || t == VALUE_TYPE_CANCELED_REF
    || t == VALUE_TYPE_LAZY_VALUE_REF
    || t == VALUE_TYPE_LAZY_VALUE_REF + VALUE_TYPE_LAZILY_CANCELED
    || t == VALUE_TYPE_LOCKED_LAZY_VALUE_REF
  }

  predicate IsEdge(cell: Cell) {
    IsRefValueTypeForGc(cell.valueType) && cell.ref != null
  }

  /** What an object holds. Arrays of numbers and objects of native code hold no references. A hash
      table holds the first entry of every bucket; an entry refers to its key, its value and the next
      entry of its bucket. */
  datatype Body =
    | Numbers
    | ReferenceArray(rs: seq<Header?>)
    | Tuple(elems: seq<Cell>)
    | LazyValue(value: Cell, args: seq<Cell>)
    | HashTable(buckets: seq<Header?>)
    | HashTableEntry(keyRef: Header?, valueRef: Header?, next: Header?)

  function AsCells(rs: seq<Header?>): (cells: seq<Cell>)
    ensures |cells| == |rs|
  {
    seq(|rs|, i requires 0 <= i < |rs| => Cell(VALUE_TYPE_REF, rs[i]))
  }

  /** The elements that the traversal of an object other than a hash table looks at, in its order. */
  function CellsOf(body: Body): seq<Cell> {
    match body
    case Numbers => []
    case ReferenceArray(rs) => AsCells(rs)
    case Tuple(elems) => elems
    case LazyValue(value, args) => [value] + args
    case HashTable(_) => []
    case HashTableEntry(keyRef, valueRef, _) => AsCells([keyRef, valueRef])
  }

  /** The children among some elements. */
  function Children(cells: seq<Cell>): seq<Header> {
    if cells == [] then []
    else if IsEdge(cells[0]) then [cells[0].ref] + Children(cells[1..])
    else Children(cells[1..])
  }

  ghost function Flat(chains: seq<seq<Header>>): seq<Header> {
    if chains == [] then [] else Flat(chains[..|chains| - 1]) + chains[|chains| - 1]
  }

  /** A header together with the object behind it. */
  class Header {
    var listNext: Header?
    var stackPrev: Header?
    var body: Body
    // The entries of every bucket of a hash table.
    ghost var chains: seq<seq<Header>>

    constructor ()
      ensures listNext == null && stackPrev == null && body == Numbers && chains == []
    {
      listNext, stackPrev, body := null, null, Numbers;
      chains := [];
    }

    predicate IsMarked()
      reads this`stackPrev
    {
      stackPrev != null
    }

    /** The children of the object: all entries of a hash table, else the references it holds. */
    ghost function ChildrenOf(): seq<Header>
      reads this`body, this`chains
    {
      if body.HashTable? then Flat(chains) else Children(CellsOf(body))
    }
  }

  /** A bucket: its entries in order, each linked to the next. */
  ghost predicate ChainIn(u: set<Header>, first: Header?, chain: seq<Header>)
    reads u`body
  {
    && first == (if chain == [] then null else chain[0])
    && forall j {:trigger chain[j]} :: 0 <= j < |chain| ==>
         chain[j] in u && chain[j].body.HashTableEntry? && chain[j].body.next == if j + 1 < |chain| then chain[j + 1] else null
  }

  ghost predicate TablesOk(u: set<Header>)
    reads u`body, u`chains
  {
    forall h :: h in u && h.body.HashTable? ==> TableIn(u, h)
  }

  ghost predicate TableIn(u: set<Header>, h: Header)
    requires h in u && h.body.HashTable?
    reads u`body, u`chains
  {
    && |h.chains| == |h.body.buckets|
    && forall i :: 0 <= i < |h.chains| ==> ChainIn(u, h.body.buckets[i], h.chains[i])
  }

  ghost function Marks(u: set<Header>): set<Header>
    reads u`stackPrev
  {
    set h | h in u && h.stackPrev != null
  }

  ghost function GraphOf(u: set<Header>): map<Header, seq<Header>>
    reads u`body, u`chains
  {
    map h | h in u :: h.ChildrenOf()
  }

  /** References lead to objects of the heap, and the buckets of every hash table are well formed. */
  ghost predicate HeapOk(u: set<Header>)
    reads u`body, u`chains
  {
    ClosedGraph(GraphOf(u)) && TablesOk(u)
  }

  /** Outside `cut` and `pending`, a marked object has only marked children. */
  ghost predicate TraversedIn(g: map<Header, seq<Header>>, marks: set<Header>, cut: set<Header>, pending: set<Header>) {
    forall p, c :: p in marks && p !in cut && p !in pending && p in g && c in g[p] ==> c in marks
  }

  ghost predicate Traversed(u: set<Header>, cut: set<Header>, pending: set<Header>)
    reads u
  {
    TraversedIn(GraphOf(u), Marks(u), cut, pending)
  }

  /** One round of the mark loop: the object popped from the stack is the only one that may have
      unmarked children, and the round marks them. */
  lemma RoundKeepsTraversed(g: map<Header, seq<Header>>, m1: set<Header>, m2: set<Header>, cut: set<Header>,
                            before: seq<Header>, after: seq<Header>)
    requires |before| > 0 && before[|before| - 1] in g
    requires TraversedIn(g, m1, cut, Elements(before))
    requires |before| - 1 <= |after| && after[..|before| - 1] == before[..|before| - 1]
    requires Elements(after[|before| - 1..]) == Elements(g[before[|before| - 1]]) - m1
    requires m2 == m1 + Elements(g[before[|before| - 1]])
    ensures TraversedIn(g, m2, cut, Elements(after))
  {
    var n := |before| - 1;
    assert after == before[..n] + after[n..];
    assert before == before[..n] + [before[n]];
    forall p, c | p in m2 && p !in cut && p !in Elements(after) && p in g && c in g[p]
      ensures c in m2
    {
      assert p !in Elements(after[n..]);
      if p != before[n] {
        assert p !in Elements(before);
      }
    }
  }

  /** Nothing in `reach` but outside `cut` has a child outside `reach`. */
  ghost predicate Bounds(g: map<Header, seq<Header>>, cut: set<Header>, reach: set<Header>) {
    forall p, c :: p in reach && p !in cut && p in g && c in g[p] ==> c in reach
  }

  lemma ReachBounds(g: map<Header, seq<Header>>, cut: set<Header>, roots: set<Header>)
    requires ClosedGraph(g) && roots <= g.Keys
    ensures Bounds(g, cut, ReachSet(CutGraph(g, cut), roots))
    ensures roots <= ReachSet(CutGraph(g, cut), roots)
  {
    CutGraphClosed(g, cut);
    ReachSetClosed(CutGraph(g, cut), roots);
  }

  /** Marks that hold the roots, that have been traversed and that stay within what the roots
      reach are exactly what the roots reach. */
  lemma MarkedExactly(g: map<Header, seq<Header>>, cut: set<Header>, roots: set<Header>, m0: set<Header>, m: set<Header>)
    requires cut <= m0 && m0 + roots <= m <= m0 + ReachSet(CutGraph(g, cut), roots)
    requires TraversedIn(g, m, cut, {})
    ensures m == m0 + ReachSet(CutGraph(g, cut), roots)
  {
    ReachSetLeast(CutGraph(g, cut), roots, m);
  }

  /** What a round pushes is reached and has not been marked. */
  lemma RoundBounds(g: map<Header, seq<Header>>, marks: set<Header>, cut: set<Header>, reach: set<Header>,
                    before: seq<Header>, after: seq<Header>, children: seq<Header>)
    requires before != [] && before[|before| - 1] in g && g[before[|before| - 1]] == children
    requires Bounds(g, cut, reach) && Elements(before) <= reach - cut && cut <= marks
    requires |before| - 1 <= |after| && after[..|before| - 1] == before[..|before| - 1]
    requires Elements(after[|before| - 1..]) == Elements(children) - marks
    ensures Elements(children) <= reach && Elements(after) <= reach - cut
  {
    var n := |before| - 1;
    assert before[n] in Elements(before);
    SplitElements(after, n);
    SplitElements(before, n);
  }

  ghost predicate IsChild(cells: seq<Cell>, c: Header) {
    exists j :: 0 <= j < |cells| && IsEdge(cells[j]) && cells[j].ref == c
  }

  lemma {:induction false} ChildrenAre(cells: seq<Cell>, c: Header)
    ensures c in Children(cells) <==> IsChild(cells, c)
  {
    if cells != [] {
      ChildrenAre(cells[1..], c);
      if IsChild(cells[1..], c) {
        var j :| 0 <= j < |cells[1..]| && IsEdge(cells[1..][j]) && cells[1..][j].ref == c;
        assert cells[j + 1] == cells[1..][j];
      }
      if IsChild(cells, c) {
        var j :| 0 <= j < |cells| && IsEdge(cells[j]) && cells[j].ref == c;
        if j > 0 {
          assert cells[1..][j - 1] == cells[j];
        }
      }
    }
  }

  lemma {:induction false} ChildrenNext(cells: seq<Cell>, i: nat)
    requires i < |cells|
    ensures Children(cells[..i + 1]) == Children(cells[..i]) + if IsEdge(cells[i]) then [cells[i].ref] else []
    ensures IsEdge(cells[i]) ==> cells[i].ref in Elements(Children(cells))
  {
    if i == 0 {
      assert cells[..1][1..] == [];
    } else {
      assert cells[..i + 1][1..] == cells[1..][..i] && cells[..i][1..] == cells[1..][..i - 1];
      ChildrenNext(cells[1..], i - 1);
    }
  }

  /** A child of an object: an entry of a hash table, or what a reference that it holds refers to. */
  ghost predicate RefersTo(h: Header, c: Header)
    reads h`body, h`chains
  {
    match h.body
    case Numbers => false
    case ReferenceArray(rs) => c in rs
    case Tuple(elems) => IsChild(elems, c)
    case LazyValue(value, args) => (IsEdge(value) && value.ref == c) || IsChild(args, c)
    case HashTable(_) => exists i :: 0 <= i < |h.chains| && c in h.chains[i]
    case HashTableEntry(keyRef, valueRef, _) => c == keyRef || c == valueRef
  }

  lemma {:induction false} FlatHolds(chains: seq<seq<Header>>, c: Header)
    ensures c in Flat(chains) <==> exists i :: 0 <= i < |chains| && c in chains[i]
    decreases |chains|
  {
    if chains != [] {
      var n := |chains| - 1;
      FlatHolds(chains[..n], c);
      if i :| 0 <= i < |chains| && c in chains[i] {
        if i < n { assert c in chains[..n][i]; }
      }
      if i :| 0 <= i < n && c in chains[..n][i] { assert c in chains[i]; }
    }
  }

  lemma AsCellsRefer(rs: seq<Header?>, c: Header)
    ensures IsChild(AsCells(rs), c) <==> c in rs
  {
    if i :| 0 <= i < |rs| && rs[i] == c {
      assert AsCells(rs)[i].ref == c && IsEdge(AsCells(rs)[i]);
    }
  }

  lemma LazyCellsRefer(value: Cell, args: seq<Cell>, c: Header)
    ensures IsChild([value] + args, c) <==> (IsEdge(value) && value.ref == c) || IsChild(args, c)
  {
    if i :| 0 <= i < |args| && IsEdge(args[i]) && args[i].ref == c {
      assert ([value] + args)[i + 1] == args[i];
    }
    if IsEdge(value) && value.ref == c {
      assert ([value] + args)[0] == value;
    }
  }

  /** The traversal visits exactly the objects that the object refers to, whatever its type. */
  lemma ChildrenAreThoseReferredTo(h: Header, c: Header)
    ensures c in h.ChildrenOf() <==> RefersTo(h, c)
  {
    match h.body {
      case Numbers =>
      case ReferenceArray(rs) =>
        ChildrenAre(AsCells(rs), c);
        AsCellsRefer(rs, c);
      case Tuple(elems) => ChildrenAre(elems, c);
      case LazyValue(value, args) =>
        ChildrenAre([value] + args, c);
        LazyCellsRefer(value, args, c);
      case HashTable(_) => FlatHolds(h.chains, c);
      case HashTableEntry(keyRef, valueRef, _) =>
        ChildrenAre(AsCells([keyRef, valueRef]), c);
        AsCellsRefer([keyRef, valueRef], c);
    }
  }

  class MarkSweepCollector {
    const nil: Header
    var listFirst: Header
    var immortalFirst: Header
    var stackTop: Header
    // The two lists as sequences, and the history of what the sweep finalized and freed.
    ghost var mortals: seq<Header>
    ghost var immortals: seq<Header>
    ghost var finalized: seq<Header>
    ghost var freed: seq<Header>

    ghost predicate Linked(first: Header, s: seq<Header>)
      reads this, s
    {
      && first == (if s == [] then nil else s[0])
      && forall i {:trigger s[i].listNext} :: 0 <= i < |s| ==> s[i].listNext == if i + 1 < |s| then s[i + 1] else nil
    }

    /** The state between two operations. `reserved` are the headers that `Reserve` has handed
        out and that `Publish` has not linked yet. */
    ghost predicate Valid(reserved: set<Header>)
      reads this, mortals, immortals, reserved
    {
      && Linked(listFirst, mortals) && Linked(immortalFirst, immortals)
      && Distinct(mortals) && Distinct(immortals) && Distinct(freed)
      && Elements(mortals) !! Elements(immortals)
      && reserved !! Elements(mortals) && reserved !! Elements(immortals)
      && Elements(freed) !! Universe(reserved)
      && nil !in Universe(reserved)
      && stackTop == nil
      && finalized == freed
    }

    ghost function Universe(reserved: set<Header>): set<Header>
      reads this
    {
      Elements(mortals) + Elements(immortals) + reserved
    }

    constructor ()
      ensures Valid({}) && mortals == immortals == freed == []
      ensures fresh(nil)
    {
      var sentinel := new Header();
      nil := sentinel;
      listFirst, immortalFirst, stackTop := sentinel, sentinel, sentinel;
      mortals, immortals, finalized, freed := [], [], [], [];
    }

    // ---------------------------------------------------------------- allocation

    /** The first half of an allocation: the header exists and the caller's temporary register
        points to it, but it is on no list. */
    method Reserve(ghost reserved: set<Header>) returns (h: Header)
      requires Valid(reserved)
      requires forall x :: x in freed ==> allocated(x)
      ensures fresh(h) && h.stackPrev == null && h.body == Numbers && h.chains == []
      ensures Valid(reserved + {h})
    {
      h := new Header();
    }

    /** The second half: the header goes to the front of the list. It keeps whatever mark it has
        collected in between. */
    method Publish(h: Header, ghost reserved: set<Header>)
      requires Valid(reserved) && h in reserved
      modifies this`listFirst, this`mortals, h`listNext
      ensures Valid(reserved - {h})
      ensures mortals == [h] + old(mortals)
    {
      PrependElements(h, mortals);
      assert forall i :: 0 <= i < |immortals| ==> immortals[i] in Elements(immortals);
      h.listNext := listFirst;
      listFirst := h;
      mortals := [h] + mortals;
      assert Universe(reserved - {h}) == old(Universe(reserved));
    }

    method PublishImmortal(h: Header, ghost reserved: set<Header>)
      requires Valid(reserved) && h in reserved
      modifies this`immortalFirst, this`immortals, h`listNext
      ensures Valid(reserved - {h})
      ensures immortals == [h] + old(immortals)
    {
      PrependElements(h, immortals);
      assert forall i :: 0 <= i < |mortals| ==> mortals[i] in Elements(mortals);
      h.listNext := immortalFirst;
      immortalFirst := h;
      immortals := [h] + immortals;
      assert Universe(reserved - {h}) == old(Universe(reserved));
    }

    // ---------------------------------------------------------------- marking

    /** The mark stack, bottom first: each header links to the one below it, the bottom one to
        the sentinel, and no header is on it twice. */
    ghost predicate StackIs(u: set<Header>, stack: seq<Header>)
      reads this`stackTop, u`stackPrev
    {
      && Elements(stack) <= u
      && Distinct(stack)
      && stackTop == (if stack == [] then nil else stack[|stack| - 1])
      && forall i {:trigger stack[i].stackPrev} :: 0 <= i < |stack| ==> stack[i].stackPrev == if i == 0 then nil else stack[i - 1]
    }

    method MarkAndPush(h: Header, ghost u: set<Header>, ghost stack: seq<Header>)
      requires nil !in u && StackIs(u, stack)
      requires h in u && h.stackPrev == null
      modifies this`stackTop, h`stackPrev
      ensures StackIs(u, stack + [h])
      ensures Marks(u) == old(Marks(u)) + {h}
    {
      assert h !in Elements(stack);
      h.stackPrev := stackTop;
      stackTop := h;
      assert Elements(stack + [h]) == Elements(stack) + {h};
    }

    method Pop(ghost u: set<Header>, ghost stack: seq<Header>) returns (h: Header)
      requires nil !in u && StackIs(u, stack) && stackTop != nil
      modifies this`stackTop
      ensures |stack| > 0 && h == stack[|stack| - 1]
      ensures StackIs(u, stack[..|stack| - 1])
    {
      h := stackTop;
      stackTop := stackTop.stackPrev;
      assert forall i :: 0 <= i < |stack| ==> stack[i] in Elements(stack);
      assert Elements(stack[..|stack| - 1]) <= Elements(stack);
    }

    /** The callback the traversal invokes on one child. */
    method Visit(child: Header, ghost u: set<Header>, ghost stack: seq<Header>) returns (ghost stack': seq<Header>)
      requires nil !in u && StackIs(u, stack) && child in u
      modifies this`stackTop, u`stackPrev
      ensures StackIs(u, stack')
      ensures stack' == if child in old(Marks(u)) then stack else stack + [child]
      ensures Marks(u) == old(Marks(u)) + {child}
    {
      stack' := stack;
      if !child.IsMarked() {
        MarkAndPush(child, u, stack);
        stack' := stack + [child];
      }
    }

    /** The children visited so far have been marked, and pushed unless they were marked before. */
    ghost predicate Visited(u: set<Header>, marks: set<Header>, stack: seq<Header>, stack': seq<Header>, done: seq<Header>)
      reads this`stackTop, u`stackPrev
    {
      && StackIs(u, stack')
      && |stack| <= |stack'| && stack'[..|stack|] == stack
      && Elements(stack'[|stack|..]) == Elements(done) - marks
      && Marks(u) == marks + Elements(done)
      && (Elements(done) <= marks ==> stack' == stack)
    }

    method VisitNext(child: Header, ghost u: set<Header>, ghost marks: set<Header>, ghost stack: seq<Header>,
                     ghost stack0: seq<Header>, ghost done: seq<Header>)
      returns (ghost stack': seq<Header>)
      requires nil !in u && child in u && Visited(u, marks, stack, stack0, done)
      modifies this`stackTop, u`stackPrev
      ensures Visited(u, marks, stack, stack', done + [child])
    {
      hide StackIs;
      ghost var marked := Marks(u);
      stack' := Visit(child, u, stack0);
      VisitedMore(stack0[|stack|..], child, done, marks);
      SliceAppend(stack0, |stack|, child);
      assert stack' == if child in marked then stack0 else stack0 + [child];
      hide Elements;
    }

    /** Marks and pushes the unmarked children of one object. */
    method PushChildren(top: Header, ghost u: set<Header>, ghost stack: seq<Header>) returns (ghost stack': seq<Header>)
      requires nil !in u && StackIs(u, stack) && top in u && HeapOk(u)
      modifies this`stackTop, u`stackPrev
      ensures StackIs(u, stack')
      ensures |stack| <= |stack'| && stack'[..|stack|] == stack
      ensures Elements(stack'[|stack|..]) == Elements(top.ChildrenOf()) - old(Marks(u))
      ensures Marks(u) == old(Marks(u)) + Elements(top.ChildrenOf())
      ensures Marks(u) == old(Marks(u)) ==> stack' == stack
    {
      hide StackIs;
      ChildrenInHeap(u, top);
      assert stack[|stack|..] == [];
      if top.body.HashTable? {
        stack' := PushEntries(top, top.body.buckets, u, Marks(u), stack);
      } else {
        stack' := PushCells(CellsOf(top.body), u, Marks(u), stack);
      }
    }

    method PushCells(cells: seq<Cell>, ghost u: set<Header>, ghost marks: set<Header>, ghost stack: seq<Header>)
      returns (ghost stack': seq<Header>)
      requires nil !in u && Visited(u, marks, stack, stack, []) && Elements(Children(cells)) <= u
      modifies this`stackTop, u`stackPrev
      ensures Visited(u, marks, stack, stack', Children(cells))
    {
      hide Visited, StackIs;
      stack' := stack;
      for i := 0 to |cells|
        invariant Visited(u, marks, stack, stack', Children(cells[..i]))
      {
        ChildrenNext(cells, i);
        if !IsEdge(cells[i]) {
          assert Children(cells[..i]) + [] == Children(cells[..i]);
        } else {
          stack' := VisitNext(cells[i].ref, u, marks, stack, stack', Children(cells[..i]));
        }
      }
      assert cells[..|cells|] == cells;
    }

    /** The entries of a hash table, bucket by bucket. */
    method PushEntries(top: Header, buckets: seq<Header?>, ghost u: set<Header>, ghost marks: set<Header>, ghost stack: seq<Header>)
      returns (ghost stack': seq<Header>)
      requires nil !in u && top in u && TablesOk(u) && top.body == HashTable(buckets) && Visited(u, marks, stack, stack, [])
      modifies this`stackTop, u`stackPrev
      ensures Visited(u, marks, stack, stack', Flat(top.chains))
    {
      hide Visited, StackIs, ChainIn;
      stack' := stack;
      assert TableIn(u, top);
      for i := 0 to |buckets|
        invariant TablesOk(u) && top.body == HashTable(buckets) && top.chains == old(top.chains)
        invariant i <= |top.chains| == |buckets| && Visited(u, marks, stack, stack', Flat(top.chains[..i]))
      {
        ghost var chain := top.chains[i];
        assert TableIn(u, top);
        stack' := PushChain(buckets[i], chain, u, marks, stack, stack', Flat(top.chains[..i]));
        assert top.chains[..i + 1] == top.chains[..i] + [chain];
      }
      assert top.chains[..|buckets|] == top.chains;
    }

    method PushChain(first: Header?, ghost chain: seq<Header>, ghost u: set<Header>, ghost marks: set<Header>,
                     ghost stack: seq<Header>, ghost stack0: seq<Header>, ghost done: seq<Header>)
      returns (ghost stack': seq<Header>)
      requires nil !in u && ChainIn(u, first, chain) && Visited(u, marks, stack, stack0, done)
      modifies this`stackTop, u`stackPrev
      ensures Visited(u, marks, stack, stack', done + chain)
    {
      hide Visited, StackIs;
      stack' := stack0;
      var entry := first;
      ghost var k := 0;
      assert done + chain[..0] == done;
      while entry != null
        invariant k <= |chain| && entry == (if k < |chain| then chain[k] else null) && ChainIn(u, first, chain)
        invariant Visited(u, marks, stack, stack', done + chain[..k])
        decreases |chain| - k
      {
        assert done + chain[..k] + [chain[k]] == done + chain[..k + 1];
        stack' := VisitNext(entry, u, marks, stack, stack', done + chain[..k]);
        entry := entry.body.next;
        k := k + 1;
      }
      assert chain[..|chain|] == chain;
    }

    /** One round of the mark loop. */
    method MarkRound(ghost u: set<Header>, ghost cut: set<Header>, ghost before: seq<Header>, ghost reach: set<Header>)
      returns (ghost stack: seq<Header>)
      requires nil !in u && StackIs(u, before) && stackTop != nil
      requires HeapOk(u) && Bounds(GraphOf(u), cut, reach)
      requires Elements(before) <= reach - cut && cut <= Marks(u)
      requires Traversed(u, cut, Elements(before))
      modifies this`stackTop, u`stackPrev
      ensures StackIs(u, stack) && Elements(stack) <= reach - cut
      ensures old(Marks(u)) <= Marks(u) <= old(Marks(u)) + reach
      ensures Traversed(u, cut, Elements(stack))
      ensures Marks(u) == old(Marks(u)) ==> |stack| < |before|
    {
      hide StackIs, HeapOk, TraversedIn, Bounds;
      ghost var g, marks := GraphOf(u), Marks(u);
      TopInHeap(u, before);
      var top := Pop(u, before);
      ghost var rest := before[..|before| - 1];
      stack := PushChildren(top, u, rest);
      RoundBounds(g, marks, cut, reach, before, stack, top.ChildrenOf());
      RoundKeepsTraversed(g, marks, Marks(u), cut, before, stack);
    }

    lemma TopInHeap(u: set<Header>, stack: seq<Header>)
      requires StackIs(u, stack) && stackTop != nil
      ensures stack != [] && stackTop == stack[|stack| - 1]
      ensures stackTop in u && stackTop in GraphOf(u) && GraphOf(u)[stackTop] == stackTop.ChildrenOf()
    {
      assert stack[|stack| - 1] in Elements(stack);
    }

    /** The mark loop, from whatever is on the stack until it is empty. */
    method MarkLoop(ghost u: set<Header>, ghost cut: set<Header>, ghost stack0: seq<Header>, ghost reach: set<Header>)
      requires nil !in u && StackIs(u, stack0)
      requires HeapOk(u) && Bounds(GraphOf(u), cut, reach)
      requires Elements(stack0) <= reach - cut && cut <= Marks(u)
      requires Traversed(u, cut, Elements(stack0))
      modifies this`stackTop, u`stackPrev
      ensures StackIs(u, [])
      ensures old(Marks(u)) <= Marks(u) <= old(Marks(u)) + reach
      ensures Traversed(u, cut, {})
    {
      hide HeapOk, TraversedIn, Bounds;
      ghost var stack := stack0;
      while stackTop != nil
        invariant StackIs(u, stack)
        invariant Elements(stack) <= reach - cut
        invariant old(Marks(u)) <= Marks(u) <= old(Marks(u)) + reach
        invariant Traversed(u, cut, Elements(stack))
        decreases u - Marks(u), |stack|
      {
        stack := MarkRound(u, cut, stack, reach);
      }
      assert stack == [] by {
        if stack != [] {
          assert false;
        }
      }
      assert Elements(stack) == {};
    }

    /** Marks one root. `cut` are the marked objects this pass has not looked inside and never
        will. Everything the root leads to without passing through them ends up marked, and
        nothing else does. */
    method MarkFromObject(o: Header, ghost u: set<Header>, ghost cut: set<Header>, ghost reach: set<Header>)
      requires nil !in u && o in u && StackIs(u, [])
      requires HeapOk(u) && Bounds(GraphOf(u), cut, reach) && o in reach
      requires cut <= Marks(u) && Traversed(u, cut, {})
      modifies this`stackTop, u`stackPrev
      ensures StackIs(u, [])
      ensures old(Marks(u)) + {o} <= Marks(u) <= old(Marks(u)) + reach
      ensures Traversed(u, cut, {})
    {
      if !o.IsMarked() {
        assert o !in Marks(u);
        MarkAndPush(o, u, []);
        assert [] + [o] == [o] && Elements([o]) == {o};
        MarkLoop(u, cut, [o], reach);
      }
    }

    /** Marks the roots of one context in turn: everything they lead to without passing through
        `cut` ends up marked, and nothing else does. */
    method MarkRoots(roots: seq<Header>, ghost u: set<Header>, ghost cut: set<Header>)
      requires nil !in u && Elements(roots) <= u && StackIs(u, [])
      requires HeapOk(u)
      requires cut <= Marks(u) && Traversed(u, cut, {})
      modifies this`stackTop, u`stackPrev
      ensures StackIs(u, [])
      ensures Marks(u) == old(Marks(u)) + ReachSet(CutGraph(GraphOf(u), cut), Elements(roots))
      ensures Traversed(u, cut, {})
    {
      hide TraversedIn, Bounds, ReachSet, CutGraph, Distinct, HeapOk, GraphOf, StackIs;
      ghost var reach := ReachSet(CutGraph(GraphOf(u), cut), Elements(roots));
      HeapReachBounds(u, cut, Elements(roots));
      for i := 0 to |roots|
        invariant StackIs(u, []) && Traversed(u, cut, {})
        invariant old(Marks(u)) <= Marks(u) <= old(Marks(u)) + reach
        invariant forall j :: 0 <= j < i ==> roots[j] in Marks(u)
      {
        assert roots[i] in Elements(roots);
        MarkFromObject(roots[i], u, cut, reach);
      }
      MarkedExactly(GraphOf(u), cut, Elements(roots), old(Marks(u)), Marks(u));
    }

    lemma HeapReachBounds(u: set<Header>, cut: set<Header>, roots: set<Header>)
      requires HeapOk(u) && roots <= u
      ensures Bounds(GraphOf(u), cut, ReachSet(CutGraph(GraphOf(u), cut), roots))
      ensures roots <= ReachSet(CutGraph(GraphOf(u), cut), roots)
    {
      hide ClosedGraph, Bounds, ReachSet, CutGraph;
      ReachBounds(GraphOf(u), cut, roots);
    }

    /** Marks what one thread context contributes. Its temporary object gets its mark without
        being pushed, so that nothing looks inside it unless the roots led there before. */
    method MarkContext(context: Context<Header>, ghost u: set<Header>, ghost cut: set<Header>, ghost seen: set<Header>)
      returns (ghost cut': set<Header>)
      requires nil !in u && StackIs(u, []) && HeapOk(u)
      requires Elements(context.roots) <= u && (context.gcTmp.Some? ==> context.gcTmp.value in u) && seen <= u
      requires cut <= Marks(u) && Traversed(u, cut, {})
      requires Marks(u) == MarkedBy(GraphOf(u), cut, seen)
      modifies this`stackTop, u`stackPrev
      ensures StackIs(u, [])
      ensures cut' == NextCut(GraphOf(u), cut, seen + Elements(context.roots), context.gcTmp)
      ensures cut' <= Marks(u) && Traversed(u, cut', {})
      ensures Marks(u) == MarkedBy(GraphOf(u), cut', seen + Elements(context.roots))
    {
      ghost var g, seen' := GraphOf(u), seen + Elements(context.roots);
      hide ClosedGraph, TraversedIn, ReachSet, CutGraph, Distinct;
      MarkRoots(context.roots, u, cut);
      MarkedByMore(g, cut, seen, Elements(context.roots));
      cut' := NextCut(g, cut, seen', context.gcTmp);
      ghost var marks := Marks(u);
      if context.gcTmp.Some? {
        var t := context.gcTmp.value;
        if t !in marks {
          CutGrows(g, cut, seen', t);
        }
        MarkTmp(t, u);
        TmpKeepsTraversed(g, cut, seen', t, marks);
      }
    }

    method MarkTmp(t: Header, ghost u: set<Header>)
      requires nil !in u && StackIs(u, []) && t in u
      modifies u`stackPrev
      ensures StackIs(u, []) && Marks(u) == old(Marks(u)) + {t}
    {
      t.stackPrev := nil;
    }

    /** The marking pass: every thread context in order, then the machine contexts. */
    method Mark(contexts: seq<Context<Header>>, machineRoots: seq<Header>, ghost u: set<Header>)
      requires nil !in u && StackIs(u, [])
      requires HeapOk(u)
      requires ContextsIn(contexts, u) && Elements(machineRoots) <= u
      modifies this`stackTop, u`stackPrev
      ensures StackIs(u, [])
      ensures Marks(u) == PassMarks(GraphOf(u), old(Marks(u)), contexts, Elements(machineRoots))
    {
      hide ClosedGraph, TraversedIn, MarkedBy, ReachSet, CutGraph, Skipped, Distinct;
      ghost var g := GraphOf(u);
      ghost var cut, seen: set<Header> := Marks(u), {};
      NothingSeenYet(g, cut);
      for i := 0 to |contexts|
        invariant StackIs(u, []) && GraphOf(u) == g
        invariant seen == RootsOf(contexts[..i]) && cut <= Marks(u)
        invariant Marks(u) == MarkedBy(g, cut, seen)
        invariant Traversed(u, cut, {})
        invariant Skipped(g, cut, seen, contexts[i..]) == Skipped(g, old(Marks(u)), {}, contexts)
      {
        ContextParts(contexts, i);
        SkippedUnfold(g, cut, seen, contexts, i);
        cut := MarkContext(contexts[i], u, cut, seen);
        seen := seen + Elements(contexts[i].roots);
      }
      assert contexts[..|contexts|] == contexts && contexts[|contexts|..] == [];
      NothingLeft(g, cut, seen);
      MarkRoots(machineRoots, u, cut);
      MarkedByMore(g, cut, seen, Elements(machineRoots));
    }

    // ---------------------------------------------------------------- sweeping

    /** The sweep walks the list with a pointer to the link it may have to rewrite: the list head
        while `slot` is null, else the link inside `slot`. */
    function At(slot: Header?): Header?
      reads this, slot
    {
      if slot == null then listFirst else slot.listNext
    }

    /** The shape of the list in the middle of a sweep: the first `k` headers of `all` have been
        dealt with, the survivors among them are `kept`, and `slot` holds the link to the rest. */
    ghost predicate Sweeping(all: seq<Header>, marks: set<Header>, kept: seq<Header>, k: nat, slot: Header?)
      reads this, all, kept, slot
    {
      && k <= |all|
      && kept == Kept(all[..k], marks)
      && (forall h :: h in kept ==> h in all[..k])
      && Distinct(kept)
      && slot == (if kept == [] then null else kept[|kept| - 1])
      && At(slot) == (if k < |all| then all[k] else nil)
      && (kept != [] ==> listFirst == kept[0])
      && (forall i {:trigger kept[i].listNext} :: 0 <= i < |kept| - 1 ==> kept[i].listNext == kept[i + 1])
      && (forall h {:trigger h.stackPrev} :: h in kept ==> h.stackPrev == null)
      && (forall j {:trigger all[j].listNext} :: k <= j < |all| ==> all[j].listNext == if j + 1 < |all| then all[j + 1] else nil)
      && (forall j {:trigger all[j].stackPrev} :: k <= j < |all| ==> (all[j].stackPrev != null <==> all[j] in marks))
    }

    /** One round of the sweep. */
    method SweepOne(slot: Header?, ghost all: seq<Header>, ghost marks: set<Header>, ghost kept: seq<Header>, ghost k: nat)
      returns (slot': Header?)
      requires Distinct(all) && nil !in Elements(all)
      requires Sweeping(all, marks, kept, k, slot) && At(slot) != nil
      modifies this`listFirst, this`finalized, this`freed, all`listNext, all`stackPrev
      ensures Sweeping(all, marks, Kept(all[..k + 1], marks), k + 1, slot')
      ensures freed == old(freed) + if all[k] in marks then [] else [all[k]]
      ensures finalized == old(finalized) + if all[k] in marks then [] else [all[k]]
    {
      slot' := slot;
      var header := At(slot);
      assert header == all[k] && all[..k + 1] == all[..k] + [all[k]] && all[..k + 1][..k] == all[..k];
      assert header !in all[..k];
      assert slot != null ==> slot in all[..k];
      if !header.IsMarked() {
        finalized := finalized + [header];
        var next := header.listNext;
        freed := freed + [header];
        if slot == null {
          listFirst := next;
        } else {
          slot.listNext := next;
        }
      } else {
        header.stackPrev := null;
        slot' := header;
      }
    }

    method Sweep()
      requires Linked(listFirst, mortals) && Distinct(mortals) && nil !in Elements(mortals)
      modifies this`listFirst, this`mortals, this`finalized, this`freed, mortals`listNext, mortals`stackPrev
      ensures Linked(listFirst, mortals)
      ensures mortals == Kept(old(mortals), old(Marks(Elements(mortals))))
      ensures freed == old(freed) + Dropped(old(mortals), old(Marks(Elements(mortals))))
      ensures finalized == old(finalized) + Dropped(old(mortals), old(Marks(Elements(mortals))))
      ensures forall h :: h in mortals ==> h.stackPrev == null
    {
      ghost var all, marks, k := mortals, Marks(Elements(mortals)), 0;
      var slot: Header? := null;
      SweepStart(marks);
      while At(slot) != nil
        invariant k <= |all| && Sweeping(all, marks, Kept(all[..k], marks), k, slot)
        invariant freed == old(freed) + Dropped(all[..k], marks)
        invariant finalized == old(finalized) + Dropped(all[..k], marks)
        decreases |all| - k
      {
        DroppedStep(all, k, marks);
        slot := SweepOne(slot, all, marks, Kept(all[..k], marks), k);
        k := k + 1;
      }
      SweepDone(all, marks, k, slot);
      mortals := Kept(all, marks);
    }

    lemma SweepStart(marks: set<Header>)
      requires Linked(listFirst, mortals) && marks == Marks(Elements(mortals))
      ensures Sweeping(mortals, marks, Kept(mortals[..0], marks), 0, null)
      ensures Dropped(mortals[..0], marks) == []
    {
      assert forall i :: 0 <= i < |mortals| ==> mortals[i] in Elements(mortals);
    }

    lemma SweepDone(all: seq<Header>, marks: set<Header>, k: nat, slot: Header?)
      requires nil !in Elements(all)
      requires k <= |all| && Sweeping(all, marks, Kept(all[..k], marks), k, slot) && At(slot) == nil
      ensures all[..k] == all && Linked(listFirst, Kept(all, marks))
      ensures forall h :: h in Kept(all, marks) ==> h.stackPrev == null
    {
      if k < |all| {
        assert false;
      }
      assert all[..k] == all;
    }

    // ---------------------------------------------------------------- a collection

    /** One collection. The live list keeps exactly the marked objects in their old order; every
        other object is finalized and freed, once; all marks on the list are cleared; nothing
        else about the objects changes. */
    method Collect(contexts: seq<Context<Header>>, machineRoots: seq<Header>, ghost reserved: set<Header>)
      requires Valid(reserved)
      requires HeapOk(Universe(reserved))
      requires ContextsIn(contexts, Universe(reserved)) && Elements(machineRoots) <= Universe(reserved)
      modifies this`listFirst, this`stackTop, this`mortals, this`finalized, this`freed
      modifies Universe(reserved)`stackPrev, mortals`listNext
      ensures Valid(reserved)
      ensures mortals == Kept(old(mortals), old(MarksOfPass(contexts, machineRoots, reserved)))
      ensures freed == old(freed) + Dropped(old(mortals), old(MarksOfPass(contexts, machineRoots, reserved)))
      ensures Marks(Universe(reserved)) == old(MarksOfPass(contexts, machineRoots, reserved)) - Elements(old(mortals))
    {
      ghost var u := Universe(reserved);
      assert StackIs(u, []);
      Mark(contexts, machineRoots, u);
      ghost var marks := Marks(u);
      assert marks == old(MarksOfPass(contexts, machineRoots, reserved));
      SweepValid(marks, u, reserved);
    }

    /** What the marking pass of a collection started now would mark. */
    ghost function MarksOfPass(contexts: seq<Context<Header>>, machineRoots: seq<Header>, reserved: set<Header>): set<Header>
      reads this, Universe(reserved)
    {
      PassMarks(GraphOf(Universe(reserved)), Marks(Universe(reserved)), contexts, Elements(machineRoots))
    }

    /** The sweep keeps the heap valid and clears the marks of the list, and of nothing else. */
    method SweepValid(ghost marks: set<Header>, ghost u: set<Header>, ghost reserved: set<Header>)
      requires Valid(reserved) && u == Universe(reserved) && marks == Marks(u)
      modifies this`listFirst, this`mortals, this`finalized, this`freed, mortals`listNext, mortals`stackPrev
      ensures Valid(reserved)
      ensures mortals == Kept(old(mortals), marks)
      ensures freed == old(freed) + Dropped(old(mortals), marks)
      ensures Marks(Universe(reserved)) == marks - Elements(old(mortals))
    {
      ghost var all, freed0 := mortals, freed;
      KeptOnlyAsks(all, marks, Marks(Elements(mortals)));
      KeptDroppedSplit(all, marks);
      assert forall i :: 0 <= i < |immortals| ==> immortals[i] in Elements(immortals);
      assert forall i :: 0 <= i < |all| ==> all[i] in Elements(all);
      Sweep();
      AppendDistinct(freed0, Dropped(all, marks));
      assert Elements(freed) == Elements(freed0) + Elements(Dropped(all, marks));
      forall h | h in Universe(reserved)
        ensures h in Marks(Universe(reserved)) <==> h in marks - Elements(all)
      {
        if h in Elements(all) {
          assert h in mortals;
        }
      }
    }
  }

  lemma TmpKeepsTraversed(g: map<Header, seq<Header>>, cut: set<Header>, seen: set<Header>, t: Header, marks: set<Header>)
    requires marks == MarkedBy(g, cut, seen) && TraversedIn(g, marks, cut, {})
    ensures TraversedIn(g, marks + {t}, NextCut(g, cut, seen, Some(t)), {})
  {
  }

  lemma DroppedStep(all: seq<Header>, k: nat, marks: set<Header>)
    requires k < |all|
    ensures Dropped(all[..k + 1], marks) == Dropped(all[..k], marks) + if all[k] in marks then [] else [all[k]]
  {
    assert all[..k + 1][..k] == all[..k];
  }

  lemma NothingSeenYet(g: map<Header, seq<Header>>, cut: set<Header>)
    ensures MarkedBy(g, cut, {}) == cut
    ensures TraversedIn(g, cut, cut, {})
  {
    ReachSetLeast(CutGraph(g, cut), {}, {});
  }

  /** Visiting one more child: it joins what is pushed unless it was marked before or has been
      visited. */
  lemma VisitedMore(pushed: seq<Header>, child: Header, done: seq<Header>, marks: set<Header>)
    requires Elements(pushed) == Elements(done) - marks
    ensures Elements(done + [child]) == Elements(done) + {child}
    ensures child in marks + Elements(done) ==> Elements(pushed) == Elements(done + [child]) - marks
    ensures child !in marks + Elements(done) ==> Elements(pushed + [child]) == Elements(done + [child]) - marks
  {
    AppendElements(pushed, child);
    AppendElements(done, child);
    hide Elements;
  }

  lemma SliceAppend(stack: seq<Header>, n: nat, child: Header)
    requires n <= |stack|
    ensures (stack + [child])[..n] == stack[..n] && (stack + [child])[n..] == stack[n..] + [child]
  {
  }

  lemma ChildrenInHeap(u: set<Header>, h: Header)
    requires HeapOk(u) && h in u
    ensures Elements(h.ChildrenOf()) <= u
  {
    assert h in GraphOf(u) && GraphOf(u)[h] == h.ChildrenOf();
    forall c | c in h.ChildrenOf() ensures c in u {
      assert c in GraphOf(u);
    }
  }

  lemma NothingLeft(g: map<Header, seq<Header>>, cut: set<Header>, seen: set<Header>)
    ensures Skipped(g, cut, seen, []) == cut
  {
  }

  /** What is marked after visiting more roots around the same objects. */
  lemma MarkedByMore(g: map<Header, seq<Header>>, cut: set<Header>, seen: set<Header>, more: set<Header>)
    requires ClosedGraph(g) && seen <= g.Keys && more <= g.Keys
    ensures MarkedBy(g, cut, seen) + ReachSet(CutGraph(g, cut), more) == MarkedBy(g, cut, seen + more)
  {
    CutGraphClosed(g, cut);
    ReachSetUnion(CutGraph(g, cut), seen, more);
  }

  lemma SkippedUnfold(g: map<Header, seq<Header>>, cut: set<Header>, seen: set<Header>, contexts: seq<Context<Header>>, i: nat)
    requires i < |contexts|
    ensures Skipped(g, cut, seen, contexts[i..])
         == Skipped(g, NextCut(g, cut, seen + Elements(contexts[i].roots), contexts[i].gcTmp),
                    seen + Elements(contexts[i].roots), contexts[i + 1..])
  {
    assert contexts[i..][1..] == contexts[i + 1..];
  }

  lemma ContextParts(contexts: seq<Context<Header>>, i: nat)
    requires i < |contexts|
    ensures RootsOf(contexts[..i + 1]) == RootsOf(contexts[..i]) + Elements(contexts[i].roots)
    ensures Elements(contexts[i].roots) <= RootsOf(contexts)
    ensures RootsOf(contexts[..i]) <= RootsOf(contexts)
    ensures contexts[i].gcTmp.Some? ==> contexts[i].gcTmp.value in TmpsOf(contexts)
  {
    assert contexts[..i + 1] == contexts[..i] + [contexts[i]];
    assert forall c :: c in contexts[..i + 1] <==> c in contexts[..i] || c == contexts[i];
    assert contexts[i] in contexts;
  }
}
