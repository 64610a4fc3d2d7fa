/** Object graphs as the collector sees them: which objects are reachable from a set of roots,
    and what a marking pass that skips some objects can reach. The element type is a parameter,
    so that the same definitions serve the heap of headers in `MarkSweep` and the abstract
    histories in `GcHistory`. */
module ObjectGraph {
  import opened Options

  /** What one thread or machine context contributes to a marking pass: the root objects it
      hands to the collector in order, then the object it has allocated but perhaps not stored
      anywhere yet. */
  datatype Context<T> = Context(roots: seq<T>, gcTmp: Option<T>)

  ghost function Elements<T>(s: seq<T>): set<T> {
    set x | x in s
  }

  ghost function Successors<T>(g: map<T, seq<T>>, s: set<T>): set<T> {
    set p, c | p in s && p in g && c in g[p] :: c
  }

  /** The objects at most `n` edges away from the roots. */
  ghost function Within<T>(g: map<T, seq<T>>, roots: set<T>, n: nat): set<T> {
    if n == 0 then roots
    else Within(g, roots, n - 1) + Successors(g, Within(g, roots, n - 1))
  }

  ghost predicate Reachable<T>(g: map<T, seq<T>>, roots: set<T>, o: T) {
    exists n: nat :: o in Within(g, roots, n)
  }

  ghost function ReachSet<T>(g: map<T, seq<T>>, roots: set<T>): set<T> {
    set o | o in g.Keys && Reachable(g, roots, o)
  }

  /** Every edge of the graph ends at one of its objects. */
  ghost predicate ClosedGraph<T>(g: map<T, seq<T>>) {
    forall p, c :: p in g && c in g[p] ==> c in g
  }

  /** The graph as a pass sees it that never looks inside the objects in `cut`. */
  ghost function CutGraph<T>(g: map<T, seq<T>>, cut: set<T>): map<T, seq<T>> {
    map p | p in g :: if p in cut then [] else g[p]
  }

  ghost predicate ClosedUnder<T>(g: map<T, seq<T>>, s: set<T>) {
    forall p, c :: p in s && p in g && c in g[p] ==> c in s
  }

  // ------------------------------------------------------------------ reachability

  lemma ReachRoot<T>(g: map<T, seq<T>>, roots: set<T>, o: T)
    requires o in roots
    ensures Reachable(g, roots, o)
  {
    assert o in Within(g, roots, 0);
  }

  lemma ReachEdge<T>(g: map<T, seq<T>>, roots: set<T>, p: T, c: T)
    requires Reachable(g, roots, p) && p in g && c in g[p]
    ensures Reachable(g, roots, c)
  {
    var n: nat :| p in Within(g, roots, n);
    assert c in Within(g, roots, n + 1);
  }

  lemma {:induction false} WithinClosed<T>(g: map<T, seq<T>>, roots: set<T>, s: set<T>, n: nat)
    requires roots <= s && ClosedUnder(g, s)
    ensures Within(g, roots, n) <= s
  {
    if n > 0 {
      WithinClosed(g, roots, s, n - 1);
    }
  }

  /** The induction principle of reachability: a set that holds the roots and is closed under the
      edges holds everything reachable. */
  lemma ReachLeast<T>(g: map<T, seq<T>>, roots: set<T>, s: set<T>)
    requires roots <= s && ClosedUnder(g, s)
    ensures forall o :: o in g && Reachable(g, roots, o) ==> o in s
  {
    forall o | o in g && Reachable(g, roots, o)
      ensures o in s
    {
      var n: nat :| o in Within(g, roots, n);
      WithinClosed(g, roots, s, n);
    }
  }

  lemma ReachSetClosed<T>(g: map<T, seq<T>>, roots: set<T>)
    requires ClosedGraph(g) && roots <= g.Keys
    ensures roots <= ReachSet(g, roots)
    ensures ClosedUnder(g, ReachSet(g, roots))
  {
    forall o | o in roots ensures o in ReachSet(g, roots) {
      ReachRoot(g, roots, o);
    }
    forall p, c | p in ReachSet(g, roots) && p in g && c in g[p]
      ensures c in ReachSet(g, roots)
    {
      ReachEdge(g, roots, p, c);
    }
  }

  /** Reachability is the least set that holds the roots and is closed: the form the other
      proofs use. */
  lemma ReachSetLeast<T>(g: map<T, seq<T>>, roots: set<T>, s: set<T>)
    requires roots <= s && ClosedUnder(g, s)
    ensures ReachSet(g, roots) <= s
  {
    ReachLeast(g, roots, s);
  }

  lemma ReachSetUnion<T>(g: map<T, seq<T>>, r1: set<T>, r2: set<T>)
    requires ClosedGraph(g) && r1 <= g.Keys && r2 <= g.Keys
    ensures ReachSet(g, r1 + r2) == ReachSet(g, r1) + ReachSet(g, r2)
  {
    ReachSetClosed(g, r1);
    ReachSetClosed(g, r2);
    ReachSetClosed(g, r1 + r2);
    ReachSetLeast(g, r1 + r2, ReachSet(g, r1) + ReachSet(g, r2));
    ReachSetLeast(g, r1, ReachSet(g, r1 + r2));
    ReachSetLeast(g, r2, ReachSet(g, r1 + r2));
  }

  lemma CutGraphClosed<T>(g: map<T, seq<T>>, cut: set<T>)
    requires ClosedGraph(g)
    ensures ClosedGraph(CutGraph(g, cut))
    ensures CutGraph(g, cut).Keys == g.Keys
  {
  }

  /** Skipping one more object that a pass has not met changes nothing of what it has met. */
  lemma CutGrows<T>(g: map<T, seq<T>>, cut: set<T>, roots: set<T>, t: T)
    requires ClosedGraph(g) && roots <= g.Keys
    requires t in g && t !in ReachSet(CutGraph(g, cut), roots)
    ensures ReachSet(CutGraph(g, cut + {t}), roots) == ReachSet(CutGraph(g, cut), roots)
    ensures MarkedBy(g, cut + {t}, roots) == MarkedBy(g, cut, roots) + {t}
  {
    var g1, g2 := CutGraph(g, cut), CutGraph(g, cut + {t});
    CutGraphClosed(g, cut);
    CutGraphClosed(g, cut + {t});
    ReachSetClosed(g1, roots);
    ReachSetClosed(g2, roots);
    ReachSetLeast(g2, roots, ReachSet(g1, roots));
    // t is not even reachable in the smaller graph, so its missing edges are never used.
    assert t !in ReachSet(g2, roots);
    ReachSetLeast(g1, roots, ReachSet(g2, roots));
  }

  // ------------------------------------------------------------------ a marking pass

  /** What is marked after a pass over `roots` that found `cut` marked already and therefore
      never looked inside it. */
  ghost function MarkedBy<T>(g: map<T, seq<T>>, cut: set<T>, roots: set<T>): set<T> {
    cut + ReachSet(CutGraph(g, cut), roots)
  }

  ghost function TmpsOf<T>(contexts: seq<Context<T>>): set<T> {
    set c | c in contexts && c.gcTmp.Some? :: c.gcTmp.value
  }

  ghost function RootsOf<T>(contexts: seq<Context<T>>): set<T> {
    set c, r | c in contexts && r in c.roots :: r
  }

  ghost predicate ContextsIn<T>(contexts: seq<Context<T>>, objects: set<T>) {
    RootsOf(contexts) <= objects && TmpsOf(contexts) <= objects
  }

  /** A context's temporary object joins the objects never looked inside when nothing visited
      so far leads to it. */
  ghost function NextCut<T>(g: map<T, seq<T>>, cut: set<T>, seen: set<T>, t: Option<T>): set<T> {
    if t.Some? && t.value !in MarkedBy(g, cut, seen) then cut + {t.value} else cut
  }

  /** The objects a pass ends up never having looked inside, when it starts with `cut` marked
      and `roots` visited and still has `contexts` to go: a context's temporary object joins
      them when nothing visited before it led there. */
  ghost function Skipped<T>(g: map<T, seq<T>>, cut: set<T>, roots: set<T>,
                            contexts: seq<Context<T>>): set<T>
    decreases |contexts|
  {
    if contexts == [] then cut
    else
      var seen := roots + Elements(contexts[0].roots);
      Skipped(g, NextCut(g, cut, seen, contexts[0].gcTmp), seen, contexts[1..])
  }

  /** Everything a whole pass marks: `stale` are the marks it found, `last` the roots of the
      machine contexts, which come after all thread contexts. */
  ghost function PassMarks<T>(g: map<T, seq<T>>, stale: set<T>, contexts: seq<Context<T>>,
                              last: set<T>): set<T>
  {
    MarkedBy(g, Skipped(g, stale, {}, contexts), RootsOf(contexts) + last)
  }

  lemma {:induction false} SkippedBounds<T>(g: map<T, seq<T>>, cut: set<T>, roots: set<T>,
                                            contexts: seq<Context<T>>)
    ensures cut <= Skipped(g, cut, roots, contexts) <= cut + TmpsOf(contexts)
    decreases |contexts|
  {
    if contexts != [] {
      var seen := roots + Elements(contexts[0].roots);
      var t := contexts[0].gcTmp;
      var cut' := NextCut(g, cut, seen, t);
      SkippedBounds(g, cut', seen, contexts[1..]);
      assert contexts[0] in contexts;
      assert TmpsOf(contexts[1..]) <= TmpsOf(contexts);
    }
  }

  lemma RootsOfSplit<T>(contexts: seq<Context<T>>)
    requires contexts != []
    ensures RootsOf(contexts) == Elements(contexts[0].roots) + RootsOf(contexts[1..])
    ensures TmpsOf(contexts) == TmpsOf(contexts[..1]) + TmpsOf(contexts[1..])
    ensures contexts[0].gcTmp.Some? ==> contexts[0].gcTmp.value in TmpsOf(contexts)
  {
    assert contexts == [contexts[0]] + contexts[1..];
    assert forall c :: c in contexts <==> c == contexts[0] || c in contexts[1..];
    assert contexts[..1] == [contexts[0]];
  }

  /** Every temporary object is marked in the end, traversed or not. */
  lemma {:induction false} TmpsMarked<T>(g: map<T, seq<T>>, cut: set<T>, roots: set<T>,
                                         contexts: seq<Context<T>>, all: set<T>)
    requires ClosedGraph(g) && all <= g.Keys && ContextsIn(contexts, g.Keys)
    requires roots + RootsOf(contexts) <= all
    ensures TmpsOf(contexts) <= MarkedBy(g, Skipped(g, cut, roots, contexts), all)
    decreases |contexts|
  {
    if contexts != [] {
      RootsOfSplit(contexts);
      var seen := roots + Elements(contexts[0].roots);
      var t := contexts[0].gcTmp;
      var cut' := NextCut(g, cut, seen, t);
      TmpsMarked(g, cut', seen, contexts[1..], all);
      var end := Skipped(g, cut', seen, contexts[1..]);
      SkippedBounds(g, cut', seen, contexts[1..]);
      if t.Some? && t.value !in end {
        SkippedKeepsMarks(g, cut', seen, contexts[1..], all);
        assert t.value in MarkedBy(g, cut', seen);
      }
      assert forall x :: x in TmpsOf(contexts) ==> (t.Some? && x == t.value) || x in TmpsOf(contexts[1..]) by {
        assert contexts == [contexts[0]] + contexts[1..];
      }
    }
  }

  /** What is marked at some point of a pass is still marked at its end. */
  lemma {:induction false} SkippedKeepsMarks<T>(g: map<T, seq<T>>, cut: set<T>, roots: set<T>,
                                                contexts: seq<Context<T>>, all: set<T>)
    requires ClosedGraph(g) && all <= g.Keys && ContextsIn(contexts, g.Keys)
    requires roots + RootsOf(contexts) <= all
    ensures MarkedBy(g, cut, roots) <= MarkedBy(g, Skipped(g, cut, roots, contexts), all)
    decreases |contexts|
  {
    CutGraphClosed(g, cut);
    if contexts == [] {
      ReachSetMonotone(CutGraph(g, cut), roots, all);
    } else {
      RootsOfSplit(contexts);
      var seen := roots + Elements(contexts[0].roots);
      var t := contexts[0].gcTmp;
      ReachSetMonotone(CutGraph(g, cut), roots, seen);
      if t.Some? && t.value !in MarkedBy(g, cut, seen) {
        CutGrows(g, cut, seen, t.value);
        SkippedKeepsMarks(g, cut + {t.value}, seen, contexts[1..], all);
      } else {
        SkippedKeepsMarks(g, cut, seen, contexts[1..], all);
      }
    }
  }

  lemma ReachSetMonotone<T>(g: map<T, seq<T>>, r1: set<T>, r2: set<T>)
    requires ClosedGraph(g) && r1 <= r2 <= g.Keys
    ensures ReachSet(g, r1) <= ReachSet(g, r2)
  {
    ReachSetClosed(g, r2);
    ReachSetLeast(g, r1, ReachSet(g, r2));
  }

  /** When a pass loses nothing. Every object reachable from the roots is marked if and only if
      no reachable object that the pass never looked inside has an unmarked child. */
  lemma PassLosesNothingExactly<T>(g: map<T, seq<T>>, cut: set<T>, roots: set<T>)
    requires ClosedGraph(g) && roots <= g.Keys
    ensures ReachSet(g, roots) <= MarkedBy(g, cut, roots)
       <==> forall p, c :: p in cut && p in ReachSet(g, roots) && c in g[p] ==> c in MarkedBy(g, cut, roots)
  {
    var m := MarkedBy(g, cut, roots);
    CutGraphClosed(g, cut);
    ReachSetClosed(CutGraph(g, cut), roots);
    ReachSetClosed(g, roots);
    if forall p, c :: p in cut && p in ReachSet(g, roots) && c in g[p] ==> c in m {
      ReachSetLeast(g, roots, m * ReachSet(g, roots));
    }
  }

  /** A pass marks nothing but what it found marked and what is reachable. */
  lemma PassMarksOnlyReachable<T>(g: map<T, seq<T>>, cut: set<T>, roots: set<T>)
    requires ClosedGraph(g) && roots <= g.Keys
    ensures MarkedBy(g, cut, roots) <= cut + ReachSet(g, roots)
  {
    CutGraphClosed(g, cut);
    ReachSetClosed(g, roots);
    ReachSetLeast(CutGraph(g, cut), roots, ReachSet(g, roots));
  }

  // ------------------------------------------------------------------ temporary objects, before a pass

  lemma CutMonotone<T>(g: map<T, seq<T>>, c1: set<T>, c2: set<T>, roots: set<T>)
    requires ClosedGraph(g) && roots <= g.Keys && c1 <= c2
    ensures ReachSet(CutGraph(g, c2), roots) <= ReachSet(CutGraph(g, c1), roots)
  {
    CutGraphClosed(g, c1);
    ReachSetClosed(CutGraph(g, c1), roots);
    ReachSetLeast(CutGraph(g, c2), roots, ReachSet(CutGraph(g, c1), roots));
  }

  /** A context's temporary object that the roots of this context and of those before it do not
      lead to: when the pass gets to it, nothing has led there. */
  ghost predicate IsLate<T>(g: map<T, seq<T>>, contexts: seq<Context<T>>, i: nat)
    requires i < |contexts|
  {
    contexts[i].gcTmp.Some? && contexts[i].gcTmp.value !in ReachSet(g, RootsOf(contexts[..i + 1]))
  }

  ghost function Late<T>(g: map<T, seq<T>>, contexts: seq<Context<T>>): set<T> {
    set i | 0 <= i < |contexts| && IsLate(g, contexts, i) :: contexts[i].gcTmp.value
  }

  lemma RootsSeen<T>(contexts: seq<Context<T>>, n: nat)
    requires n < |contexts|
    ensures RootsOf(contexts[..n + 1]) == RootsOf(contexts[..n]) + Elements(contexts[n].roots)
    ensures RootsOf(contexts[..n + 1]) <= RootsOf(contexts)
    ensures contexts[n].gcTmp.Some? ==> contexts[n].gcTmp.value in TmpsOf(contexts)
    ensures contexts[n..] != [] && contexts[n..][0] == contexts[n] && contexts[n..][1..] == contexts[n + 1..]
  {
    assert contexts[..n + 1] == contexts[..n] + [contexts[n]];
    assert forall c :: c in contexts[..n + 1] <==> c in contexts[..n] || c == contexts[n];
    assert forall c :: c in contexts[..n + 1] ==> c in contexts;
    assert contexts[n] in contexts;
  }

  /** Only late temporary objects are never looked into; here nothing counts that leads through an
      object in `around`. */
  lemma {:induction false} SkippedAreLate<T>(g: map<T, seq<T>>, cut: set<T>, contexts: seq<Context<T>>, n: nat, around: set<T>)
    requires ClosedGraph(g) && ContextsIn(contexts, g.Keys) && n <= |contexts|
    requires cut + TmpsOf(contexts) <= around
    ensures Skipped(g, cut, RootsOf(contexts[..n]), contexts[n..]) <= cut + Late(CutGraph(g, around), contexts)
    decreases |contexts| - n
  {
    if n < |contexts| {
      RootsSeen(contexts, n);
      var seen, t := RootsOf(contexts[..n + 1]), contexts[n].gcTmp;
      var cut' := NextCut(g, cut, seen, t);
      SkippedAreLate(g, cut', contexts, n + 1, around);
      if t.Some? && t.value !in MarkedBy(g, cut, seen) {
        CutMonotone(g, cut, around, seen);
        assert IsLate(CutGraph(g, around), contexts, n);
      }
    }
  }

  /** A temporary object that is late in the whole graph is not looked into, unless it is marked
      before the pass. */
  lemma {:induction false} LateAreSkipped<T>(g: map<T, seq<T>>, cut: set<T>, contexts: seq<Context<T>>, n: nat, i: nat)
    requires ClosedGraph(g) && ContextsIn(contexts, g.Keys) && n <= i < |contexts| && IsLate(g, contexts, i)
    ensures contexts[i].gcTmp.value in Skipped(g, cut, RootsOf(contexts[..n]), contexts[n..])
    decreases |contexts| - n
  {
    RootsSeen(contexts, n);
    var seen, t := RootsOf(contexts[..n + 1]), contexts[n].gcTmp;
    var cut' := NextCut(g, cut, seen, t);
    if n == i {
      PassMarksOnlyReachable(g, cut, seen);
      assert t.value in cut';
      SkippedBounds(g, cut', seen, contexts[n + 1..]);
    } else {
      LateAreSkipped(g, cut', contexts, n + 1, i);
    }
  }

  /** No temporary object leads to another one. */
  ghost predicate Independent<T>(g: map<T, seq<T>>, tmps: set<T>) {
    forall t, t' :: t in tmps && t' in tmps && t' in ReachSet(g, {t}) ==> t' == t
  }

  ghost function ReachOfEach<T>(g: map<T, seq<T>>, starts: set<T>): set<T> {
    set t, o | t in starts && o in ReachSet(g, {t}) :: o
  }

  lemma EachReaches<T>(g: map<T, seq<T>>, starts: set<T>)
    requires ClosedGraph(g) && starts <= g.Keys
    ensures ClosedUnder(g, ReachOfEach(g, starts))
    ensures forall p, c :: p in starts && c in g[p] ==> c in ReachOfEach(g, starts)
  {
    forall p, c | p in ReachOfEach(g, starts) && p in g && c in g[p] ensures c in ReachOfEach(g, starts) {
      var t :| t in starts && p in ReachSet(g, {t});
      ReachEdge(g, {t}, p, c);
      assert c in ReachSet(g, {t});
    }
    forall p, c | p in starts && c in g[p] ensures c in ReachOfEach(g, starts) {
      ReachRoot(g, {p}, p);
      ReachEdge(g, {p}, p, c);
      assert c in ReachSet(g, {p});
    }
  }

  /** Of independent temporary objects one is reached at all only if it is reached around the others
      and around a closed part of the graph. */
  lemma IndependentReached<T>(g: map<T, seq<T>>, tmps: set<T>, closed: set<T>, roots: set<T>, t: T)
    requires ClosedGraph(g) && roots <= g.Keys && tmps <= g.Keys && Independent(g, tmps) && ClosedUnder(g, closed)
    requires t in tmps && t !in closed && t in ReachSet(g, roots)
    ensures t in ReachSet(CutGraph(g, closed + tmps), roots)
  {
    var around := closed + tmps;
    var direct := ReachSet(CutGraph(g, around), roots);
    CutGraphClosed(g, around);
    ReachSetClosed(CutGraph(g, around), roots);
    EachReaches(g, tmps * direct);
    var all := direct + closed + ReachOfEach(g, tmps * direct);
    forall p, c | p in all && p in g && c in g[p] ensures c in all {
      if p in direct && p !in around {
        assert c in CutGraph(g, around)[p];
      }
    }
    ReachSetLeast(g, roots, all);
  }

  // ------------------------------------------------------------------ a sweep

  /** The objects of `s` that survive a sweep with the given marks, in order. */
  ghost function Kept<T>(s: seq<T>, marks: set<T>): seq<T> {
    if s == [] then []
    else if s[|s| - 1] in marks then Kept(s[..|s| - 1], marks) + [s[|s| - 1]]
    else Kept(s[..|s| - 1], marks)
  }

  /** The objects of `s` that it frees. */
  ghost function Dropped<T>(s: seq<T>, marks: set<T>): seq<T> {
    if s == [] then []
    else if s[|s| - 1] in marks then Dropped(s[..|s| - 1], marks)
    else Dropped(s[..|s| - 1], marks) + [s[|s| - 1]]
  }

  ghost predicate Distinct<T>(s: seq<T>) {
    forall i, j :: 0 <= i < j < |s| ==> s[i] != s[j]
  }

  lemma AppendElements<T>(s: seq<T>, x: T)
    ensures Elements(s + [x]) == Elements(s) + {x}
    ensures forall i :: 0 <= i < |s| ==> s[i] in Elements(s)
    ensures Distinct(s) && x !in Elements(s) ==> Distinct(s + [x])
  {
  }

  lemma SplitElements<T>(s: seq<T>, n: nat)
    requires n <= |s|
    ensures Elements(s) == Elements(s[..n]) + Elements(s[n..])
  {
    assert s == s[..n] + s[n..];
  }

  lemma PrependElements<T>(x: T, s: seq<T>)
    ensures Elements([x] + s) == Elements(s) + {x}
    ensures forall i :: 0 <= i < |s| ==> s[i] in Elements(s)
    ensures Distinct(s) && x !in Elements(s) ==> Distinct([x] + s)
  {
  }

  /** Survivors and victims partition the list, each exactly once and in the old order. */
  lemma {:induction false} KeptDroppedSplit<T>(s: seq<T>, marks: set<T>)
    requires Distinct(s)
    ensures Distinct(Kept(s, marks)) && Distinct(Dropped(s, marks))
    ensures Elements(Kept(s, marks)) == Elements(s) * marks
    ensures Elements(Dropped(s, marks)) == Elements(s) - marks
    ensures |Kept(s, marks)| + |Dropped(s, marks)| == |s|
  {
    if s != [] {
      var s' := s[..|s| - 1];
      KeptDroppedSplit(s', marks);
      var last := s[|s| - 1];
      assert s == s' + [last];
      assert last !in Elements(s');
      assert Elements(s) == Elements(s') + {last};
      AppendElements(Kept(s', marks), last);
      AppendElements(Dropped(s', marks), last);
    }
  }

  lemma {:induction false} KeptOnlyAsks<T>(s: seq<T>, m1: set<T>, m2: set<T>)
    requires forall h :: h in s ==> (h in m1 <==> h in m2)
    ensures Kept(s, m1) == Kept(s, m2) && Dropped(s, m1) == Dropped(s, m2)
  {
    if s != [] {
      KeptOnlyAsks(s[..|s| - 1], m1, m2);
    }
  }

  lemma AppendDistinct<T>(a: seq<T>, b: seq<T>)
    requires Distinct(a) && Distinct(b) && Elements(a) !! Elements(b)
    ensures Distinct(a + b)
  {
    assert forall i :: 0 <= i < |a| ==> a[i] in Elements(a);
    assert forall i :: 0 <= i < |b| ==> b[i] in Elements(b);
  }
}
