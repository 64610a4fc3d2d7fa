/** The choice of an evaluation strategy for every function, and of a cache slot for every memoized
    one (`FunctionEvaluationStrategy` in vm/strategy/fun_eval_strategy.cpp). */
module EvalStrategies {
  import opened Options

  const EVAL_STRATEGY_LAZY: bv32 := 1
  const EVAL_STRATEGY_MEMO: bv32 := 2
  const MAX_EVAL_STRATEGY: bv32 := 2

  datatype FunctionInfo = FunctionInfo(evalStrategy: bv32, evalStrategyMask: bv32)

  /** A strategy code and the indexes under which the strategy sees the function, when it is called
      and when its lazy value is forced. */
  datatype FunctionTriple = FunctionTriple(evalStrategy: bv32, index: nat, indexForForce: nat)

  function StrategyCode(info: FunctionInfo, default_: bv32): bv32 {
    (default_ | info.evalStrategy) & info.evalStrategyMask & ((MAX_EVAL_STRATEGY << 1) - 1)
  }

  predicate IsMemoized(info: FunctionInfo, default_: bv32) {
    StrategyCode(info, default_) & EVAL_STRATEGY_MEMO != 0
  }

  predicate IsLazy(info: FunctionInfo, default_: bv32) {
    StrategyCode(info, default_) & EVAL_STRATEGY_LAZY != 0
  }

  /** Every code is an index into the table of four strategies. */
  lemma CodeIsTableIndex(info: FunctionInfo, default_: bv32)
    ensures StrategyCode(info, default_) < 4
    ensures IsMemoized(info, default_) <==> StrategyCode(info, default_) == 2 || StrategyCode(info, default_) == 3
  {
    var c := StrategyCode(info, default_);
    assert c & 3 == c;
    assert c == 0 || c == 1 || c == 2 || c == 3;
  }

  /** How many of the first functions are memoized. */
  function MemoizedBefore(infos: seq<FunctionInfo>, default_: bv32, n: nat): (r: nat)
    requires n <= |infos|
    ensures r <= n
  {
    if n == 0 then 0 else MemoizedBefore(infos, default_, n - 1) + if IsMemoized(infos[n - 1], default_) then 1 else 0
  }

  function TripleOf(infos: seq<FunctionInfo>, default_: bv32, i: nat): FunctionTriple
    requires i < |infos|
  {
    var slot := MemoizedBefore(infos, default_, i);
    FunctionTriple(StrategyCode(infos[i], default_),
                   if IsMemoized(infos[i], default_) && !IsLazy(infos[i], default_) then slot else i,
                   if IsMemoized(infos[i], default_) then slot else i)
  }

  class FunctionEvaluationStrategy {
    const defaultStrategy: bv32
    var triples: array<FunctionTriple>
    var cacheSize: nat

    constructor (defaultStrategy: bv32)
      ensures this.defaultStrategy == defaultStrategy && cacheSize == 0 && triples.Length == 0
    {
      this.defaultStrategy := defaultStrategy;
      triples := new FunctionTriple[0];
      cacheSize := 0;
    }

    method SetFunInfosAndFunCount(infos: seq<FunctionInfo>)
      modifies this
      ensures fresh(triples) && triples.Length == |infos|
      ensures forall i :: 0 <= i < |infos| ==> triples[i] == TripleOf(infos, defaultStrategy, i)
      ensures cacheSize == MemoizedBefore(infos, defaultStrategy, |infos|)
    {
      triples := new FunctionTriple[|infos|];
      var memoizedFunCount, i := 0, 0;
      while i < |infos|
        invariant i <= |infos| == triples.Length && fresh(triples)
        invariant memoizedFunCount == MemoizedBefore(infos, defaultStrategy, i)
        invariant forall k :: 0 <= k < i ==> triples[k] == TripleOf(infos, defaultStrategy, k)
      {
        var code := StrategyCode(infos[i], defaultStrategy);
        if code & EVAL_STRATEGY_MEMO == 0 {
          triples[i] := FunctionTriple(code, i, i);
        } else {
          triples[i] := FunctionTriple(code, if code & EVAL_STRATEGY_LAZY == 0 then memoizedFunCount else i, memoizedFunCount);
          memoizedFunCount := memoizedFunCount + 1;
        }
        i := i + 1;
      }
      cacheSize := memoizedFunCount;
    }
  }

  lemma {:induction false} SlotsGrow(infos: seq<FunctionInfo>, default_: bv32, i: nat, j: nat)
    requires i <= j <= |infos|
    ensures MemoizedBefore(infos, default_, i) <= MemoizedBefore(infos, default_, j)
    decreases j
  {
    if i < j { SlotsGrow(infos, default_, i, j - 1); }
  }

  /** Every memoized function has a slot of the cache, and no other one has the same. */
  lemma SlotsAreDistinct(infos: seq<FunctionInfo>, default_: bv32, i: nat, j: nat)
    requires i < |infos| && j < |infos| && IsMemoized(infos[i], default_) && IsMemoized(infos[j], default_)
    ensures TripleOf(infos, default_, i).indexForForce < MemoizedBefore(infos, default_, |infos|)
    ensures TripleOf(infos, default_, i).indexForForce == TripleOf(infos, default_, j).indexForForce <==> i == j
  {
    SlotsGrow(infos, default_, i + 1, |infos|);
    if i < j { SlotsGrow(infos, default_, i + 1, j); }
    if j < i { SlotsGrow(infos, default_, j + 1, i); }
  }

  /** The slot of every memoized function. */
  function SlotsOf(infos: seq<FunctionInfo>, default_: bv32): nat -> Option<nat> {
    (i: nat) => if i < |infos| && IsMemoized(infos[i], default_) then Some(TripleOf(infos, default_, i).indexForForce) else None
  }

  /** Every slot of the cache belongs to a memoized function. */
  lemma {:induction false} SlotIsUsed(infos: seq<FunctionInfo>, default_: bv32, n: nat, slot: nat) returns (i: nat)
    requires n <= |infos| && slot < MemoizedBefore(infos, default_, n)
    ensures i < n && IsMemoized(infos[i], default_) && TripleOf(infos, default_, i).indexForForce == slot
    decreases n
  {
    if slot == MemoizedBefore(infos, default_, n - 1) {
      i := n - 1;
    } else {
      i := SlotIsUsed(infos, default_, n - 1, slot);
    }
  }
}
