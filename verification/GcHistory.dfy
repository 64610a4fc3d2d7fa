/** Whole histories of a collected heap: allocation in its two halves, a mutator that may store
    any reference it can reach, and collections, in any order and any number. A collection here
    does what `MarkSweep.MarkSweepCollector.Collect` promises. */
module GcHistory {
  import opened Options
  import opened ObjectGraph

  datatype Heap<T> = Heap(
    mortals: seq<T>,                   // the list of the collector
    immortals: set<T>,
    reserved: set<T>,                  // allocated, but not yet on the list
    edges: map<T, seq<T>>,
    marks: set<T>,                     // headers whose mark is set between collections
    contexts: seq<Context<T>>,
    machineRoots: set<T>,
    freed: set<T>)

  ghost function Universe<T>(h: Heap<T>): set<T> {
    Elements(h.mortals) + h.immortals + h.reserved
  }

  ghost function Roots<T>(h: Heap<T>): set<T> {
    RootsOf(h.contexts) + h.machineRoots
  }

  /** What the program can still get at: everything reachable from a root or from a thread's
      temporary object. */
  ghost function Live<T>(h: Heap<T>): set<T> {
    ReachSet(h.edges, Roots(h) + TmpsOf(h.contexts))
  }

  ghost predicate WellFormed<T>(h: Heap<T>) {
    && Distinct(h.mortals)
    && Elements(h.mortals) !! h.immortals !! h.reserved
    && h.freed !! Universe(h)
    && h.edges.Keys == Universe(h)
    && ClosedGraph(h.edges)
    && ContextsIn(h.contexts, Universe(h)) && h.machineRoots <= Universe(h)
    && (forall o :: o in h.reserved ==> h.edges[o] == [])
    && (forall p, c :: p in h.immortals && c in h.edges[p] ==> c in h.immortals)
  }

  /** No header of a mortal object is marked between collections. */
  ghost predicate Clean<T>(h: Heap<T>) {
    h.marks <= h.immortals
  }

  datatype Event<T> =
    | Reserve(o: T, thread: Option<nat>)
    | Publish(p: T)
    | PublishImmortal(q: T)
    | Mutate(edges: map<T, seq<T>>, contexts: seq<Context<T>>, machineRoots: set<T>)
    | Collect

  /** A thread stores only references it can reach, immortal objects refer only to immortal ones,
      and an object that is still being allocated has no elements yet. */
  ghost predicate LegalMutation<T>(h: Heap<T>, edges: map<T, seq<T>>, contexts: seq<Context<T>>, machineRoots: set<T>) {
    && edges.Keys == h.edges.Keys
    && (forall p :: p in edges && p !in Live(h) ==> edges[p] == h.edges[p])
    && (forall p, c :: p in edges && p in Live(h) && c in edges[p] ==> c in Live(h))
    && RootsOf(contexts) + TmpsOf(contexts) + machineRoots <= Live(h)
    && (forall p, c :: p in h.immortals && p in edges && c in edges[p] ==> c in h.immortals)
    && (forall o :: o in h.reserved && o in edges ==> edges[o] == [])
  }

  ghost predicate Enabled<T>(h: Heap<T>, e: Event<T>) {
    match e
    case Reserve(o, thread) =>
      o !in Universe(h) && o !in h.freed && o !in h.marks && (thread.Some? ==> thread.value < |h.contexts|)
    case Publish(p) => p in h.reserved
    case PublishImmortal(q) => q in h.reserved
    case Mutate(edges, contexts, machineRoots) => LegalMutation(h, edges, contexts, machineRoots)
    case Collect => true
  }

  ghost function Marked<T>(h: Heap<T>): set<T> {
    PassMarks(h.edges, h.marks, h.contexts, h.machineRoots)
  }

  ghost function Apply<T>(h: Heap<T>, e: Event<T>): Heap<T>
    requires Enabled(h, e)
  {
    match e
    case Reserve(o, thread) =>
      h.(reserved := h.reserved + {o}, edges := h.edges[o := []],
         contexts := if thread.Some? then WithTmp(h.contexts, thread.value, o) else h.contexts)
    case Publish(p) => h.(mortals := [p] + h.mortals, reserved := h.reserved - {p})
    case PublishImmortal(q) => h.(immortals := h.immortals + {q}, reserved := h.reserved - {q})
    case Mutate(edges, contexts, machineRoots) => h.(edges := edges, contexts := contexts, machineRoots := machineRoots)
    case Collect => Collected(h)
  }

  /** The temporary register of a thread holds the object it is allocating; some allocations are for
      no thread. */
  ghost function WithTmp<T>(contexts: seq<Context<T>>, thread: nat, o: T): seq<Context<T>>
    requires thread < |contexts|
  {
    contexts[thread := contexts[thread].(gcTmp := Some(o))]
  }

  ghost function Collected<T>(h: Heap<T>): Heap<T> {
    var survivors := Kept(h.mortals, Marked(h));
    h.(mortals := survivors,
       edges := map o | o in h.edges && o in Elements(survivors) + h.immortals + h.reserved :: h.edges[o],
       marks := Marked(h) - Elements(h.mortals),
       freed := h.freed + Elements(Dropped(h.mortals, Marked(h))))
  }

  /** Every object this pass marks without looking inside it has only marked children. */
  ghost predicate TmpsAreSafe<T>(h: Heap<T>) {
    forall p :: p in Unvisited(h) && p in h.edges && p !in h.immortals ==> Elements(h.edges[p]) <= Marked(h) + h.immortals
  }

  /** What the pass never looks inside. */
  ghost function Unvisited<T>(h: Heap<T>): set<T> {
    Skipped(h.edges, h.marks, {}, h.contexts)
  }

  /** The temporary objects that their own threads' roots and those of the threads before do not
      lead to, other than through an immortal or another temporary object. */
  ghost function LateTmps<T>(h: Heap<T>): set<T> {
    Late(CutGraph(h.edges, h.immortals + TmpsOf(h.contexts)), h.contexts)
  }

  /** A condition on the heap before a collection. The children of a late temporary object are
      temporary objects themselves, or immortal, or reachable without the late ones. It holds if
      every temporary object has no elements yet, or is reached from the roots of its thread. */
  ghost predicate TmpsAreKept<T>(h: Heap<T>) {
    forall p :: p in LateTmps(h) && p in h.edges && p !in h.immortals ==> Elements(h.edges[p]) <= KeptWithoutLate(h)
  }

  ghost function KeptWithoutLate<T>(h: Heap<T>): set<T> {
    h.immortals + TmpsOf(h.contexts) + ReachSet(CutGraph(h.edges, h.immortals + LateTmps(h)), Roots(h))
  }

  /** A collection while nothing the program can reach is being allocated, and which keeps what only
      temporary objects hold. */
  ghost predicate CollectsSafely<T>(h: Heap<T>) {
    Live(h) !! h.reserved && TmpsAreKept(h)
  }

  ghost predicate Run<T>(h: Heap<T>, events: seq<Event<T>>)
    decreases |events|
  {
    events == [] || (Enabled(h, events[0]) && Run(Apply(h, events[0]), events[1..]))
  }

  ghost predicate SafeRun<T>(h: Heap<T>, events: seq<Event<T>>)
    decreases |events|
  {
    events == []
    || (Enabled(h, events[0]) && (events[0].Collect? ==> CollectsSafely(h)) && SafeRun(Apply(h, events[0]), events[1..]))
  }

  ghost function End<T>(h: Heap<T>, events: seq<Event<T>>): Heap<T>
    requires Run(h, events)
    decreases |events|
  {
    if events == [] then h else End(Apply(h, events[0]), events[1..])
  }

  // ------------------------------------------------------------------ what one collection does

  /** On a clean heap nothing but live and immortal objects is marked. */
  lemma MarkedIsLive<T>(h: Heap<T>)
    requires WellFormed(h) && Clean(h)
    ensures Marked(h) <= Live(h) + h.immortals
  {
    var g, all := h.edges, Roots(h) + TmpsOf(h.contexts);
    SkippedBounds(g, h.marks, {}, h.contexts);
    ReachSetClosed(g, all);
    PassMarksOnlyReachable(g, Skipped(g, h.marks, {}, h.contexts), Roots(h));
    ReachSetMonotone(g, Roots(h), all);
  }

  lemma EverythingLiveIsMarked<T>(h: Heap<T>)
    requires WellFormed(h) && Clean(h) && TmpsAreSafe(h)
    ensures Live(h) <= Marked(h) + h.immortals
  {
    var g, cut, m := h.edges, Skipped(h.edges, h.marks, {}, h.contexts), Marked(h);
    var all := Roots(h) + TmpsOf(h.contexts);
    // Everything live is marked: marked or immortal objects are closed under the edges.
    TmpsMarked(g, h.marks, {}, h.contexts, Roots(h));
    CutGraphClosed(g, cut);
    ReachSetClosed(CutGraph(g, cut), Roots(h));
    assert all <= m + h.immortals;
    forall p, c | p in m + h.immortals && p in g && c in g[p]
      ensures c in m + h.immortals
    {
      if p !in h.immortals && p !in cut {
        assert p in ReachSet(CutGraph(g, cut), Roots(h));
        assert c in CutGraph(g, cut)[p];
      }
    }
    ReachSetLeast(g, all, m + h.immortals);
  }

  lemma UnvisitedAreLate<T>(h: Heap<T>)
    requires WellFormed(h) && Clean(h)
    ensures Unvisited(h) <= h.immortals + LateTmps(h)
  {
    hide Skipped, LateTmps, ClosedGraph;
    var around := h.immortals + TmpsOf(h.contexts);
    assert RootsOf(h.contexts[..0]) == {} && h.contexts[0..] == h.contexts;
    SkippedAreLate(h.edges, h.marks, h.contexts, 0, around);
    assert Late(CutGraph(h.edges, around), h.contexts) == LateTmps(h) by { LateTmpsAre(h); }
  }

  lemma LateTmpsAre<T>(h: Heap<T>)
    ensures LateTmps(h) == Late(CutGraph(h.edges, h.immortals + TmpsOf(h.contexts)), h.contexts)
  {
  }

  lemma MarkedAre<T>(h: Heap<T>)
    requires WellFormed(h)
    ensures Marked(h) == Unvisited(h) + ReachSet(CutGraph(h.edges, Unvisited(h)), Roots(h))
    ensures TmpsOf(h.contexts) <= Marked(h)
  {
    TmpsMarked(h.edges, h.marks, {}, h.contexts, Roots(h));
  }

  lemma HeapIsClosed<T>(h: Heap<T>)
    requires WellFormed(h)
    ensures ClosedGraph(h.edges) && Roots(h) <= h.edges.Keys && ClosedUnder(h.edges, h.immortals)
  {
  }

  lemma KeptIsMarked<T>(h: Heap<T>)
    requires WellFormed(h) && Clean(h)
    ensures KeptWithoutLate(h) <= Marked(h) + h.immortals
  {
    UnvisitedAreLate(h);
    MarkedAre(h);
    HeapIsClosed(h);
    hide Skipped, LateTmps, Marked, CutGraph, ReachSet, WellFormed, Roots, ClosedGraph, Unvisited;
    CutMonotone(h.edges, Unvisited(h), h.immortals + LateTmps(h), Roots(h));
  }

  /** The condition on the heap is enough for the pass. */
  lemma KeptTmpsAreSafe<T>(h: Heap<T>)
    requires WellFormed(h) && Clean(h) && TmpsAreKept(h)
    ensures TmpsAreSafe(h)
  {
    UnvisitedAreLate(h);
    KeptIsMarked(h);
    hide WellFormed, LateTmps, Unvisited, Marked, KeptWithoutLate, Clean;
  }

  /** The condition holds while every thread's temporary object has no elements yet, or is one of its
      roots. */
  lemma NewOrRootedTmpsAreKept<T>(h: Heap<T>)
    requires WellFormed(h)
    requires forall i :: 0 <= i < |h.contexts| && h.contexts[i].gcTmp.Some? ==>
               var t := h.contexts[i].gcTmp.value; t in h.contexts[i].roots || (t in h.edges && h.edges[t] == [])
    ensures TmpsAreKept(h)
  {
    var cut := CutGraph(h.edges, h.immortals + TmpsOf(h.contexts));
    CutGraphClosed(h.edges, h.immortals + TmpsOf(h.contexts));
    forall p | p in LateTmps(h) && p in h.edges && p !in h.immortals ensures Elements(h.edges[p]) <= KeptWithoutLate(h) {
      var i :| 0 <= i < |h.contexts| && IsLate(cut, h.contexts, i) && h.contexts[i].gcTmp.value == p;
      RootsSeen(h.contexts, i);
      ReachSetClosed(cut, RootsOf(h.contexts[..i + 1]));
      assert p !in h.contexts[i].roots;
    }
  }

  lemma SomethingLiveIsLost<T>(h: Heap<T>)
    requires WellFormed(h) && Clean(h) && !TmpsAreSafe(h)
    ensures exists c :: c in Live(h) && c !in Marked(h) + h.immortals
  {
    var all := Roots(h) + TmpsOf(h.contexts);
    ReachSetClosed(h.edges, all);
    SkippedBounds(h.edges, h.marks, {}, h.contexts);
    var p :| p in Unvisited(h) && p in h.edges && p !in h.immortals && !(Elements(h.edges[p]) <= Marked(h) + h.immortals);
    var c :| c in h.edges[p] && c !in Marked(h) + h.immortals;
    assert p in all && c in Live(h);
  }

  lemma LostExactly<T>(mortals: set<T>, immortals: set<T>, live: set<T>, marked: set<T>, freed: set<T>)
    requires mortals !! immortals && live <= mortals + immortals && marked <= live + immortals && freed !! live
    ensures mortals * marked == mortals * live <==> live <= marked + immortals
    ensures freed + (mortals - marked) !! live <==> live <= marked + immortals
  {
    if mortals * marked == mortals * live {
      assert forall o :: o in live && o in mortals ==> o in mortals * marked;
    }
    if freed + (mortals - marked) !! live {
      assert forall o :: o in mortals - marked ==> o in freed + (mortals - marked);
    }
  }

  lemma LiveIsKnown<T>(h: Heap<T>)
    requires WellFormed(h) && Live(h) !! h.reserved
    ensures Live(h) <= Elements(h.mortals) + h.immortals && h.freed !! Live(h) && Elements(h.mortals) !! h.immortals
    ensures Distinct(h.mortals)
  {
  }

  /** When a collection keeps, of the mortal objects, exactly the live ones, by the marks of its
      pass. */
  lemma LosesNothingExactly<T>(h: Heap<T>)
    requires WellFormed(h) && Clean(h) && Live(h) !! h.reserved
    ensures Elements(Kept(h.mortals, Marked(h))) == Elements(h.mortals) * Live(h) <==> TmpsAreSafe(h)
    ensures Collected(h).freed !! Live(h) <==> TmpsAreSafe(h)
  {
    hide TmpsAreSafe, Marked, Kept, Dropped, Live, Clean, WellFormed, Distinct;
    LiveIsKnown(h);
    KeptDroppedSplit(h.mortals, Marked(h));
    MarkedIsLive(h);
    LostExactly(Elements(h.mortals), h.immortals, Live(h), Marked(h), h.freed);
    if TmpsAreSafe(h) {
      EverythingLiveIsMarked(h);
    } else {
      SomethingLiveIsLost(h);
    }
  }

  lemma LateTmpIsSkipped<T>(h: Heap<T>, t: T)
    requires WellFormed(h) && Independent(h.edges, TmpsOf(h.contexts)) && t in LateTmps(h) && t !in h.immortals
    ensures t in Skipped(h.edges, h.marks, {}, h.contexts)
  {
    var around := h.immortals + TmpsOf(h.contexts);
    var i :| 0 <= i < |h.contexts| && IsLate(CutGraph(h.edges, around), h.contexts, i) && h.contexts[i].gcTmp.value == t;
    RootsSeen(h.contexts, i);
    if t in ReachSet(h.edges, RootsOf(h.contexts[..i + 1])) {
      IndependentReached(h.edges, TmpsOf(h.contexts), h.immortals, RootsOf(h.contexts[..i + 1]), t);
    }
    LateAreSkipped(h.edges, h.marks, h.contexts, 0, i);
    assert h.contexts[..0] == [] && h.contexts[0..] == h.contexts && RootsOf(h.contexts[..0]) == {};
  }

  /** Around the objects that are not visited, nothing is reached but what is reached around the
      late ones, and immortal objects. */
  lemma ReachedAroundLate<T>(h: Heap<T>)
    requires WellFormed(h) && forall t :: t in LateTmps(h) && t !in h.immortals ==> t in Unvisited(h)
    ensures ReachSet(CutGraph(h.edges, Unvisited(h)), Roots(h))
            <= ReachSet(CutGraph(h.edges, h.immortals + LateTmps(h)), Roots(h)) + h.immortals
  {
    HeapIsClosed(h);
    hide Skipped, LateTmps, ReachSet, WellFormed, Roots, Unvisited;
    var around := h.immortals + LateTmps(h);
    var kept := ReachSet(CutGraph(h.edges, around), Roots(h));
    CutGraphClosed(h.edges, around);
    ReachSetClosed(CutGraph(h.edges, around), Roots(h));
    forall x, y | x in kept + h.immortals && x in CutGraph(h.edges, Unvisited(h)) && y in CutGraph(h.edges, Unvisited(h))[x]
      ensures y in kept + h.immortals
    {
      if x !in h.immortals { assert y in CutGraph(h.edges, around)[x]; }
    }
    ReachSetLeast(CutGraph(h.edges, Unvisited(h)), Roots(h), kept + h.immortals);
  }

  lemma MarkedIsKept<T>(h: Heap<T>)
    requires WellFormed(h) && Clean(h) && forall t :: t in LateTmps(h) && t !in h.immortals ==> t in Unvisited(h)
    ensures Marked(h) <= KeptWithoutLate(h)
  {
    MarkedAre(h);
    ReachedAroundLate(h);
    SkippedBounds(h.edges, h.marks, {}, h.contexts);
    hide Skipped, LateTmps, Marked, CutGraph, ReachSet, WellFormed, Roots;
  }

  lemma UnkeptTmpsAreUnsafe<T>(h: Heap<T>)
    requires WellFormed(h) && Clean(h) && Independent(h.edges, TmpsOf(h.contexts)) && !TmpsAreKept(h)
    ensures !TmpsAreSafe(h)
  {
    forall t | t in LateTmps(h) && t !in h.immortals ensures t in Unvisited(h) {
      LateTmpIsSkipped(h, t);
    }
    MarkedIsKept(h);
    assert h.immortals <= KeptWithoutLate(h);
    hide WellFormed, LateTmps, Unvisited, Marked, KeptWithoutLate, Clean, Independent;
  }

  /** Where no temporary object leads to another one, as with a single thread, the condition on the
      heap is exact: a collection keeps exactly the live objects, and frees no live one, if and only
      if it holds. */
  lemma CollectionKeepsExactlyTheLive<T>(h: Heap<T>)
    requires WellFormed(h) && Clean(h) && Live(h) !! h.reserved && Independent(h.edges, TmpsOf(h.contexts))
    ensures Elements(Kept(h.mortals, Marked(h))) == Elements(h.mortals) * Live(h) <==> TmpsAreKept(h)
    ensures Collected(h).freed !! Live(h) <==> TmpsAreKept(h)
  {
    LosesNothingExactly(h);
    if TmpsAreKept(h) {
      KeptTmpsAreSafe(h);
    } else {
      UnkeptTmpsAreUnsafe(h);
    }
  }

  lemma CollectKeepsClean<T>(h: Heap<T>)
    requires WellFormed(h) && Clean(h) && CollectsSafely(h)
    ensures Clean(Collected(h)) && Live(h) <= Universe(Collected(h))
    ensures forall p, c :: p in Collected(h).edges && c in h.edges[p] ==> c in Universe(Collected(h))
  {
    KeptTmpsAreSafe(h);
    LosesNothingExactly(h);
    MarkedIsLive(h);
    HeapIsClosed(h);
    ReachSetClosed(h.edges, Roots(h) + TmpsOf(h.contexts));
    ReachSetClosed(h.edges, Universe(h));
    hide TmpsAreKept, TmpsAreSafe, Marked, Kept, Dropped, Reachable;
    var h' := Collected(h);
    forall p, c | p in h'.edges && c in h.edges[p] ensures c in Universe(h') {
      if p !in h.immortals && p !in h.reserved {
        assert p in Live(h) && c in Live(h);
      }
    }
  }

  lemma CollectKeepsWellFormed<T>(h: Heap<T>)
    requires WellFormed(h) && Clean(h) && CollectsSafely(h)
    ensures WellFormed(Collected(h))
  {
    CollectKeepsClean(h);
    KeptDroppedSplit(h.mortals, Marked(h));
    RootsAreLive(h);
    hide TmpsAreKept, Marked, Kept, Dropped, ReachSet, Live, Clean;
    assert Collected(h).edges.Keys == Universe(Collected(h));
  }

  lemma RootsAreLive<T>(h: Heap<T>)
    requires WellFormed(h)
    ensures Roots(h) + TmpsOf(h.contexts) <= Live(h)
  {
    ReachSetClosed(h.edges, Roots(h) + TmpsOf(h.contexts));
  }

  lemma CollectKeepsInvariant<T>(h: Heap<T>)
    requires WellFormed(h) && Clean(h) && CollectsSafely(h)
    ensures WellFormed(Collected(h)) && Clean(Collected(h))
    ensures Live(Collected(h)) == Live(h)
  {
    var h', all := Collected(h), Roots(h) + TmpsOf(h.contexts);
    CollectKeepsClean(h);
    CollectKeepsWellFormed(h);
    // The live part of the graph is untouched.
    ReachSetClosed(h.edges, all);
    ReachSetClosed(h'.edges, all);
    hide TmpsAreKept, Marked, Kept, Dropped, Reachable;
    ReachSetLeast(h.edges, all, ReachSet(h'.edges, all));
    ReachSetLeast(h'.edges, all, ReachSet(h.edges, all));
  }

  // ------------------------------------------------------------------ what one event does

  lemma ReserveKeepsInvariant<T>(h: Heap<T>, o: T, thread: Option<nat>)
    requires WellFormed(h) && Clean(h) && Enabled(h, Event<T>.Reserve(o, thread))
    ensures WellFormed(Apply(h, Event<T>.Reserve(o, thread))) && Clean(Apply(h, Event<T>.Reserve(o, thread)))
  {
    var h' := Apply(h, Event<T>.Reserve(o, thread));
    assert Universe(h') == Universe(h) + {o};
    if thread.Some? {
      var context := h.contexts[thread.value];
      assert forall c :: c in h'.contexts ==> c in h.contexts || c == context.(gcTmp := Some(o));
      assert context in h.contexts;
    }
  }

  lemma PublishKeepsInvariant<T>(h: Heap<T>, e: Event<T>)
    requires WellFormed(h) && Clean(h) && Enabled(h, e) && (e.Publish? || e.PublishImmortal?)
    ensures WellFormed(Apply(h, e)) && Clean(Apply(h, e))
  {
    var h' := Apply(h, e);
    if e.Publish? {
      PrependElements(e.p, h.mortals);
    }
    assert Universe(h') == Universe(h);
  }

  lemma MutateKeepsInvariant<T>(h: Heap<T>, e: Event<T>)
    requires WellFormed(h) && Clean(h) && Enabled(h, e) && e.Mutate?
    ensures WellFormed(Apply(h, e)) && Clean(Apply(h, e))
    ensures Live(Apply(h, e)) <= Live(h)
  {
    var h' := Apply(h, e);
    assert Live(h) <= Universe(h);
    assert Universe(h') == Universe(h);
    ReachSetLeast(h'.edges, Roots(h') + TmpsOf(h'.contexts), Live(h));
  }

  // ------------------------------------------------------------------ whole histories

  /** In every history whose collections are safe, at every point of it: no object the program
      can still reach has been freed, and the heap is ready for the next collection. */
  lemma {:induction false} NoLiveObjectIsFreed<T>(h: Heap<T>, events: seq<Event<T>>)
    requires WellFormed(h) && Clean(h) && SafeRun(h, events)
    ensures Run(h, events)
    ensures WellFormed(End(h, events)) && Clean(End(h, events))
    ensures Live(End(h, events)) <= Universe(End(h, events))
    ensures Live(End(h, events)) !! End(h, events).freed
    decreases |events|
  {
    if events != [] {
      match events[0] {
        case Reserve(o, thread) => ReserveKeepsInvariant(h, o, thread);
        case Publish(_) => PublishKeepsInvariant(h, events[0]);
        case PublishImmortal(_) => PublishKeepsInvariant(h, events[0]);
        case Mutate(_, _, _) => MutateKeepsInvariant(h, events[0]);
        case Collect => CollectKeepsInvariant(h);
      }
      NoLiveObjectIsFreed(Apply(h, events[0]), events[1..]);
    }
  }

  // ------------------------------------------------------------------ the gap in an allocation

  /** A collection that falls between the two halves of an allocation leaves the new header
      marked, because the pass marks it through its thread's temporary register and the sweep
      does not see it. The heap stays clean exactly when the pass marks no reserved header. */
  lemma CleanAfterCollectExactly<T>(h: Heap<T>)
    requires WellFormed(h) && Clean(h)
    ensures Clean(Collected(h)) <==> Marked(h) !! h.reserved
  {
    SkippedBounds(h.edges, h.marks, {}, h.contexts);
    assert Marked(h) <= Universe(h) + h.marks;
  }

  ghost function EmptyHeap(): Heap<nat> {
    OneThread([], {}, map[], {}, [], None)
  }

  lemma RunStep<T>(h: Heap<T>, e: Event<T>, next: Heap<T>, rest: seq<Event<T>>)
    requires Enabled(h, e) && Apply(h, e) == next && Run(next, rest)
    ensures Run(h, [e] + rest) && End(h, [e] + rest) == End(next, rest)
    ensures SafeRun(next, rest) && !e.Collect? ==> SafeRun(h, [e] + rest)
  {
    assert ([e] + rest)[1..] == rest;
  }

  lemma {:induction false} RunsJoin<T>(h: Heap<T>, first: seq<Event<T>>, rest: seq<Event<T>>)
    requires Run(h, first) && Run(End(h, first), rest)
    ensures Run(h, first + rest) && End(h, first + rest) == End(End(h, first), rest)
    ensures SafeRun(h, first) && SafeRun(End(h, first), rest) ==> SafeRun(h, first + rest)
    decreases |first|
  {
    hide Apply, Enabled, CollectsSafely;
    if first == [] {
      assert first + rest == rest;
    } else {
      RunsJoin(Apply(h, first[0]), first[1..], rest);
      assert (first + rest)[0] == first[0] && (first + rest)[1..] == first[1..] + rest;
    }
  }

  /** A heap of some objects of one thread, without immortal ones. */
  ghost function OneThread(mortals: seq<nat>, reserved: set<nat>, edges: map<nat, seq<nat>>, marks: set<nat>,
                           roots: seq<nat>, tmp: Option<nat>): Heap<nat>
  {
    Heap(mortals, {}, reserved, edges, marks, [Context(roots, tmp)], {}, {})
  }

  lemma OneThreadRoots(roots: seq<nat>, tmp: Option<nat>)
    ensures RootsOf([Context(roots, tmp)]) == Elements(roots)
    ensures TmpsOf([Context(roots, tmp)]) == if tmp.Some? then {tmp.value} else {}
  {
    assert Context(roots, tmp) in [Context(roots, tmp)];
  }

  /** A thread allocates an object, in both halves. */
  ghost function Allocation(o: nat): seq<Event<nat>> {
    [Event<nat>.Reserve(o, Some(0)), Event<nat>.Publish(o)]
  }

  lemma AllocationRuns(mortals: seq<nat>, edges: map<nat, seq<nat>>, marks: set<nat>, roots: seq<nat>, tmp: Option<nat>, o: nat)
    requires o !in mortals && o !in edges && o !in marks
    ensures var h := OneThread(mortals, {}, edges, marks, roots, tmp);
            && Run(h, Allocation(o)) && SafeRun(h, Allocation(o))
            && End(h, Allocation(o)) == OneThread([o] + mortals, {}, edges[o := []], marks, roots, Some(o))
  {
    var h := OneThread(mortals, {}, edges, marks, roots, tmp);
    var reserved := OneThread(mortals, {o}, edges[o := []], marks, roots, Some(o));
    var published := OneThread([o] + mortals, {}, edges[o := []], marks, roots, Some(o));
    assert Apply(h, Event<nat>.Reserve(o, Some(0))) == reserved;
    assert Apply(reserved, Event<nat>.Publish(o)) == published;
    assert Run(published, []) && SafeRun(published, []);
    RunStep(reserved, Event<nat>.Publish(o), published, []);
    RunStep(h, Event<nat>.Reserve(o, Some(0)), reserved, [Event<nat>.Publish(o)]);
    assert Allocation(o) == [Event<nat>.Reserve(o, Some(0))] + [Event<nat>.Publish(o)];
  }

  /** The thread changes its roots and what its objects refer to. */
  ghost function Mutation(edges: map<nat, seq<nat>>, roots: seq<nat>, tmp: Option<nat>): seq<Event<nat>> {
    [Event<nat>.Mutate(edges, [Context(roots, tmp)], {})]
  }

  lemma MutationRuns(mortals: seq<nat>, edges: map<nat, seq<nat>>, marks: set<nat>, roots: seq<nat>, tmp: Option<nat>,
                     edges': map<nat, seq<nat>>, roots': seq<nat>, tmp': Option<nat>)
    requires var h := OneThread(mortals, {}, edges, marks, roots, tmp);
             LegalMutation(h, edges', [Context(roots', tmp')], {})
    ensures var h := OneThread(mortals, {}, edges, marks, roots, tmp);
            && Run(h, Mutation(edges', roots', tmp')) && SafeRun(h, Mutation(edges', roots', tmp'))
            && End(h, Mutation(edges', roots', tmp')) == OneThread(mortals, {}, edges', marks, roots', tmp')
  {
    var h := OneThread(mortals, {}, edges, marks, roots, tmp);
    var next := OneThread(mortals, {}, edges', marks, roots', tmp');
    var e := Event<nat>.Mutate(edges', [Context(roots', tmp')], {});
    hide LegalMutation;
    assert Apply(h, e) == next;
    assert Run(next, []) && SafeRun(next, []);
    RunStep(h, e, next, []);
    assert Mutation(edges', roots', tmp') == [e] + [];
  }

  lemma RootsAndTmpsAreLive(h: Heap<nat>, o: nat)
    requires o in h.edges && o in Roots(h) + TmpsOf(h.contexts)
    ensures o in Live(h)
  {
    ReachRoot(h.edges, Roots(h) + TmpsOf(h.contexts), o);
  }

  // ------------------------------------------------------------------ a collection in the gap

  /** The heap of one thread that has reserved object 1 and not published it. */
  ghost function ReservedHeap(): Heap<nat> {
    OneThread([], {1}, map[1 := []], {}, [], Some(1))
  }

  lemma ReservedHeapMarks()
    ensures WellFormed(EmptyHeap()) && Clean(EmptyHeap())
    ensures Marked(ReservedHeap()) == {1}
  {
    var h := ReservedHeap();
    var cut := Skipped(h.edges, {}, {}, h.contexts);
    OneThreadRoots([], None);
    OneThreadRoots([], Some(1));
    TmpsMarked(h.edges, {}, {}, h.contexts, {});
    SkippedBounds(h.edges, {}, {}, h.contexts);
    ReachSetLeast(CutGraph(h.edges, cut), {}, {});
  }

  ghost function GapHistory(): seq<Event<nat>> {
    [Event<nat>.Reserve(1, Some(0)), Collect, Event<nat>.Publish(1)]
  }

  /** A collection between the halves of an allocation, on a heap that was clean, leaves a mark. */
  lemma CollectBetweenTheHalvesLeavesAMark()
    ensures WellFormed(EmptyHeap()) && Clean(EmptyHeap())
    ensures Run(EmptyHeap(), GapHistory())
    ensures End(EmptyHeap(), GapHistory()) == OneThread([1], {}, map[1 := []], {1}, [], Some(1))
  {
    ReservedHeapMarks();
    var h1, h2 := ReservedHeap(), OneThread([], {1}, map[1 := []], {1}, [], Some(1));
    var h3 := OneThread([1], {}, map[1 := []], {1}, [], Some(1));
    assert Apply(EmptyHeap(), Event<nat>.Reserve(1, Some(0))) == h1;
    assert Kept<nat>([], {1}) == [] && Dropped<nat>([], {1}) == [];
    assert Collected(h1) == h2;
    assert Apply(h2, Event<nat>.Publish(1)) == h3;
    assert Run(h3, []);
    RunStep(h2, Event<nat>.Publish(1), h3, []);
    RunStep(h1, Collect, h2, [Event<nat>.Publish(1)]);
    RunStep(EmptyHeap(), Event<nat>.Reserve(1, Some(0)), h1, [Collect] + [Event<nat>.Publish(1)]);
    assert GapHistory() == [Event<nat>.Reserve(1, Some(0))] + ([Collect] + [Event<nat>.Publish(1)]);
  }

  // ------------------------------------------------------------------ an object held by a temporary one

  /** A thread has made object 1, which refers to object 2, and neither has stored 1 nor keeps 2
      among its roots: as between taking the arguments of a `let` off the stack and pushing its
      value. */
  ghost function TupleHeap(): Heap<nat> {
    OneThread([1, 2], {}, map[1 := [2], 2 := []], {}, [], Some(1))
  }

  ghost function TupleHistory(): seq<Event<nat>> {
    Allocation(2) + (Mutation(map[2 := []], [2], Some(2)) + (Allocation(1) + Mutation(map[1 := [2], 2 := []], [], Some(1))))
  }

  lemma TupleHistoryEnds()
    ensures Run(EmptyHeap(), TupleHistory()) && SafeRun(EmptyHeap(), TupleHistory())
    ensures End(EmptyHeap(), TupleHistory()) == TupleHeap()
  {
    hide LegalMutation, Run, SafeRun, End, Allocation, Mutation;
    AllocationRuns([], map[], {}, [], None, 2);
    var h2 := OneThread([2], {}, map[2 := []], {}, [], Some(2));
    assert [2] + [] == [2];
    FirstRoot();
    MutationRuns([2], map[2 := []], {}, [], Some(2), map[2 := []], [2], Some(2));
    AllocationRuns([2], map[2 := []], {}, [2], Some(2), 1);
    var edges: map<nat, seq<nat>> := map[1 := [], 2 := []];
    assert edges == map[2 := []][1 := []] && [1] + [2] == [1, 2];
    TupleIsFilled();
    MutationRuns([1, 2], map[1 := [], 2 := []], {}, [2], Some(1), map[1 := [2], 2 := []], [], Some(1));
    RunsJoin(OneThread([2], {}, map[2 := []], {}, [2], Some(2)), Allocation(1), Mutation(map[1 := [2], 2 := []], [], Some(1)));
    RunsJoin(h2, Mutation(map[2 := []], [2], Some(2)), Allocation(1) + Mutation(map[1 := [2], 2 := []], [], Some(1)));
    RunsJoin(EmptyHeap(), Allocation(2),
             Mutation(map[2 := []], [2], Some(2)) + (Allocation(1) + Mutation(map[1 := [2], 2 := []], [], Some(1))));
  }

  lemma FirstRoot()
    ensures LegalMutation(OneThread([2], {}, map[2 := []], {}, [], Some(2)), map[2 := []], [Context([2], Some(2))], {})
  {
    OneThreadRoots([], Some(2));
    OneThreadRoots([2], Some(2));
    RootsAndTmpsAreLive(OneThread([2], {}, map[2 := []], {}, [], Some(2)), 2);
  }

  lemma TupleIsFilled()
    ensures LegalMutation(OneThread([1, 2], {}, map[1 := [], 2 := []], {}, [2], Some(1)), map[1 := [2], 2 := []], [Context([], Some(1))], {})
  {
    var h := OneThread([1, 2], {}, map[1 := [], 2 := []], {}, [2], Some(1));
    OneThreadRoots([2], Some(1));
    OneThreadRoots([], Some(1));
    assert 2 in Elements([2]);
    RootsAndTmpsAreLive(h, 1);
    RootsAndTmpsAreLive(h, 2);
  }

  /** A history of one thread with no collection in it, after which a collection frees an object that
      the thread's temporary object refers to. */
  lemma TupleLosesItsElement()
    ensures Run(EmptyHeap(), TupleHistory()) && SafeRun(EmptyHeap(), TupleHistory())
    ensures var h := End(EmptyHeap(), TupleHistory());
            WellFormed(h) && Clean(h) && h.reserved == {} && 2 in Live(h) && 2 in Collected(h).freed && !TmpsAreKept(h)
  {
    var h := TupleHeap();
    TupleHistoryEnds();
    ReservedHeapMarks();
    NoLiveObjectIsFreed(EmptyHeap(), TupleHistory());
    TupleHeapMarks();
    KeptDroppedSplit(h.mortals, Marked(h));
    assert 2 in Elements(h.mortals) by { assert h.mortals[1] == 2; }
    if TmpsAreKept(h) {
      KeptTmpsAreSafe(h);
      EverythingLiveIsMarked(h);
    }
  }

  lemma TupleHeapMarks()
    ensures 2 in Live(TupleHeap()) && 2 !in Marked(TupleHeap())
  {
    var h := TupleHeap();
    var all, cut := Roots(h) + TmpsOf(h.contexts), Unvisited(h);
    OneThreadRoots([], Some(1));
    assert Roots(h) == {};
    SkippedBounds(h.edges, {}, {}, h.contexts);
    ReachSetLeast(CutGraph(h.edges, cut), {}, {});
    ReachRoot(h.edges, all, 1);
    ReachEdge(h.edges, all, 1, 2);
  }

  // ------------------------------------------------------------------ from the gap to the loss

  /** What the thread goes on to do after a collection in the middle of an allocation of object 1:
      it keeps 1, makes 2, lets 1 refer to it, and makes 3. */
  ghost function AfterTheGap(): seq<Event<nat>> {
    Mutation(map[1 := []], [1], Some(1)) + (Allocation(2) + (Mutation(map[1 := [2], 2 := []], [1], Some(2)) + Allocation(3)))
  }

  ghost function RacedHistory(): seq<Event<nat>> {
    GapHistory() + AfterTheGap()
  }

  /** A heap in which object 1 is live and refers to object 2, and still carries the mark of an
      earlier collection. */
  ghost function RacedHeap(): Heap<nat> {
    OneThread([3, 2, 1], {}, map[1 := [2], 2 := [], 3 := []], {1}, [1], Some(3))
  }

  lemma RacedHeapFacts()
    ensures Roots(RacedHeap()) == {1} && TmpsOf(RacedHeap().contexts) == {3}
    ensures WellFormed(RacedHeap()) && !Clean(RacedHeap())
  {
    var h := RacedHeap();
    OneThreadRoots([1], Some(3));
    assert 1 in Elements([1]);
    assert Elements(h.mortals) == {1, 2, 3} by {
      assert h.mortals[0] == 3 && h.mortals[1] == 2 && h.mortals[2] == 1;
    }
  }

  lemma RacedHeapMarks()
    ensures 1 in Marked(RacedHeap()) && 2 !in Marked(RacedHeap())
  {
    var h := RacedHeap();
    var cut := Skipped(h.edges, h.marks, {}, h.contexts);
    RacedHeapFacts();
    SkippedBounds(h.edges, h.marks, {}, h.contexts);
    ReachSetLeast(CutGraph(h.edges, cut), {1}, {1});
  }

  lemma MarkedKeepsOne()
    ensures LegalMutation(OneThread([1], {}, map[1 := []], {1}, [], Some(1)), map[1 := []], [Context([1], Some(1))], {})
  {
    OneThreadRoots([], Some(1));
    OneThreadRoots([1], Some(1));
    RootsAndTmpsAreLive(OneThread([1], {}, map[1 := []], {1}, [], Some(1)), 1);
  }

  lemma OneRefersToTwo()
    ensures LegalMutation(OneThread([2, 1], {}, map[1 := [], 2 := []], {1}, [1], Some(2)), map[1 := [2], 2 := []], [Context([1], Some(2))], {})
  {
    var h := OneThread([2, 1], {}, map[1 := [], 2 := []], {1}, [1], Some(2));
    OneThreadRoots([1], Some(2));
    assert 1 in Elements([1]);
    RootsAndTmpsAreLive(h, 1);
    RootsAndTmpsAreLive(h, 2);
  }

  lemma RacedHistoryEnds()
    ensures Run(EmptyHeap(), RacedHistory()) && End(EmptyHeap(), RacedHistory()) == RacedHeap()
  {
    hide LegalMutation, Run, SafeRun, End, Allocation, Mutation;
    CollectBetweenTheHalvesLeavesAMark();
    MarkedKeepsOne();
    MutationRuns([1], map[1 := []], {1}, [], Some(1), map[1 := []], [1], Some(1));
    AllocationRuns([1], map[1 := []], {1}, [1], Some(1), 2);
    var edges: map<nat, seq<nat>> := map[1 := [], 2 := []];
    assert edges == map[1 := []][2 := []] && [2] + [1] == [2, 1];
    OneRefersToTwo();
    MutationRuns([2, 1], map[1 := [], 2 := []], {1}, [1], Some(2), map[1 := [2], 2 := []], [1], Some(2));
    AllocationRuns([2, 1], map[1 := [2], 2 := []], {1}, [1], Some(2), 3);
    assert map[1 := [2], 2 := []][3 := []] == map[1 := [2], 2 := [], 3 := []] && [3] + [2, 1] == [3, 2, 1];
    RunsJoin(OneThread([2, 1], {}, map[1 := [], 2 := []], {1}, [1], Some(2)), Mutation(map[1 := [2], 2 := []], [1], Some(2)), Allocation(3));
    RunsJoin(OneThread([1], {}, map[1 := []], {1}, [1], Some(1)), Allocation(2),
             Mutation(map[1 := [2], 2 := []], [1], Some(2)) + Allocation(3));
    RunsJoin(OneThread([1], {}, map[1 := []], {1}, [], Some(1)), Mutation(map[1 := []], [1], Some(1)),
             Allocation(2) + (Mutation(map[1 := [2], 2 := []], [1], Some(2)) + Allocation(3)));
    RunsJoin(EmptyHeap(), GapHistory(), AfterTheGap());
  }

  /** From the empty heap to the loss: after a collection in the middle of an allocation, a history
      of ordinary allocations and stores ends in a heap whose next collection takes the stale mark
      of 1 for a visit, never looks inside it, and frees 2, which the program can still reach. */
  lemma StaleMarkLosesALiveObject()
    ensures Run(EmptyHeap(), RacedHistory())
    ensures var h := End(EmptyHeap(), RacedHistory());
            WellFormed(h) && !Clean(h) && h.reserved == {} && 2 in Live(h) && 2 in Collected(h).freed
  {
    var h := RacedHeap();
    var all := Roots(h) + TmpsOf(h.contexts);
    RacedHistoryEnds();
    RacedHeapFacts();
    RacedHeapMarks();
    ReachRoot(h.edges, all, 1);
    ReachEdge(h.edges, all, 1, 2);
    KeptDroppedSplit(h.mortals, Marked(h));
    assert 2 in Elements(h.mortals) by { assert h.mortals[1] == 2; }
  }
}
