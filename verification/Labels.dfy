/** Labels in the compiler (comp/impl_comp.cpp): the lines of a function are walked once to number its
    instructions and labels. A jump holds the distance from the instruction behind it to its label,
    modulo 2^32. */
module Labels {
  import opened Options
  import opened Bytes
  import opened ParseTrees

  /** How many instructions the first lines have. */
  function InstrCount(lines: seq<Line>, n: nat): (r: nat)
    requires n <= |lines|
    ensures r <= n
  {
    if n == 0 then 0 else InstrCount(lines, n - 1) + if lines[n - 1].instr.Some? then 1 else 0
  }

  predicate Labelled(lines: seq<Line>, k: nat, name: Name)
    requires k < |lines|
  {
    lines[k].label_ == Some(name)
  }

  /** The addresses of the labels of the first lines; a label marks the next instruction. */
  function LabelAddrs(lines: seq<Line>, n: nat): map<Name, nat>
    requires n <= |lines|
  {
    if n == 0 then map[]
    else
      var before := LabelAddrs(lines, n - 1);
      if lines[n - 1].label_.Some? && lines[n - 1].label_.value !in before then
        before[lines[n - 1].label_.value := InstrCount(lines, n - 1)]
      else before
  }

  predicate DistinctLabels(lines: seq<Line>, n: nat)
    requires n <= |lines|
  {
    forall j, k :: 0 <= j < k < n && lines[j].label_.Some? ==> lines[j].label_ != lines[k].label_
  }

  /** A label has the number of an instruction that a line with this label stands before. */
  lemma {:induction false} LabelIsThere(lines: seq<Line>, n: nat, name: Name) returns (k: nat)
    requires n <= |lines| && name in LabelAddrs(lines, n)
    ensures k < n && Labelled(lines, k, name) && LabelAddrs(lines, n)[name] == InstrCount(lines, k)
    decreases n
  {
    if name in LabelAddrs(lines, n - 1) {
      k := LabelIsThere(lines, n - 1, name);
    } else {
      k := n - 1;
    }
  }

  lemma {:induction false} LabelHasAddr(lines: seq<Line>, n: nat, k: nat, name: Name)
    requires k < n <= |lines| && Labelled(lines, k, name)
    ensures name in LabelAddrs(lines, n)
    decreases n
  {
    if k < n - 1 { LabelHasAddr(lines, n - 1, k, name); }
  }

  lemma DistinctNext(lines: seq<Line>, n: nat)
    requires n < |lines|
    ensures DistinctLabels(lines, n + 1) <==>
            DistinctLabels(lines, n) && (lines[n].label_.Some? ==> lines[n].label_.value !in LabelAddrs(lines, n))
  {
    if lines[n].label_.Some? {
      var name := lines[n].label_.value;
      if name in LabelAddrs(lines, n) {
        var j := LabelIsThere(lines, n, name);
        assert lines[j].label_ == lines[n].label_;
      } else {
        forall j | 0 <= j < n ensures lines[j].label_ != lines[n].label_ {
          if lines[j].label_ == Some(name) { LabelHasAddr(lines, n, j, name); }
        }
      }
    }
  }

  /** The first walk. It fails on a label that is defined twice. */
  method NumberLabels(lines: seq<Line>) returns (ok: bool, addrs: map<Name, nat>)
    ensures ok <==> DistinctLabels(lines, |lines|)
    ensures addrs == LabelAddrs(lines, |lines|)
  {
    hide DistinctLabels;
    ok, addrs := true, map[];
    var count, k := 0, 0;
    assert DistinctLabels(lines, 0) by { NoLabels(lines); }
    while k < |lines|
      invariant k <= |lines| && count == InstrCount(lines, k)
      invariant ok <==> DistinctLabels(lines, k)
      invariant addrs == LabelAddrs(lines, k)
    {
      DistinctNext(lines, k);
      if lines[k].label_.Some? {
        if lines[k].label_.value !in addrs {
          addrs := addrs[lines[k].label_.value := count];
        } else {
          ok := false;
        }
      }
      if lines[k].instr.Some? { count := count + 1; }
      k := k + 1;
    }
  }

  lemma NoLabels(lines: seq<Line>)
    ensures DistinctLabels(lines, 0)
  {
  }

  // ------------------------------------------------------------------ distances

  function Distance(target: nat, ip: nat): U32 {
    (target - (ip + 1)) % TWO32
  }

  /** `ip` runs behind the instruction that is executed, and a jump adds its distance modulo 2^32. */
  ghost predicate LeadsTo(lines: seq<Line>, ip: nat, offset: nat, name: Name) {
    exists k :: 0 <= k < |lines| && Labelled(lines, k, name) && (ip + 1 + offset) % TWO32 == InstrCount(lines, k)
  }

  lemma JumpLands(target: nat, ip: nat)
    requires target < TWO32
    ensures (ip + 1 + Distance(target, ip)) % TWO32 == target
  {
    var q := (target - (ip + 1)) / TWO32;
    assert target - (ip + 1) == q * TWO32 + Distance(target, ip);
    assert ip + 1 + Distance(target, ip) == target + (-q) * TWO32;
    ModUnique(target, -q);
  }

  lemma ModUnique(target: nat, q: int)
    requires target < TWO32
    ensures (target + q * TWO32) % TWO32 == target
  {
  }

  /** The distance to a label leads there. */
  lemma DistanceLeads(lines: seq<Line>, ip: nat, name: Name)
    requires name in LabelAddrs(lines, |lines|) && InstrCount(lines, |lines|) < TWO32
    ensures LeadsTo(lines, ip, Distance(LabelAddrs(lines, |lines|)[name], ip), name)
  {
    var k := LabelIsThere(lines, |lines|, name);
    CountGrows(lines, k, |lines|);
    JumpLands(InstrCount(lines, k), ip);
    hide Distance;
    assert Labelled(lines, k, name);
  }

  lemma {:induction false} CountGrows(lines: seq<Line>, j: nat, k: nat)
    requires j <= k <= |lines|
    ensures InstrCount(lines, j) <= InstrCount(lines, k)
    decreases k
  {
    if j < k { CountGrows(lines, j, k - 1); }
  }
}
