// The slot reduction at the end of Individual::repair_tdma
// (metaheuristic/individual.cpp): while more TDMA slots are allocated
// than the interconnect has, take one slot at a time from processors that
// hold more than one.
module TdmaSlots {
  import opened Wrappers

  /** `std::accumulate` over the allocation. */
  function SumInt(s: seq<int>): int
  {
    if s == [] then 0 else SumInt(s[..|s| - 1]) + s[|s| - 1]
  }

  /** How many processors hold at least one slot. */
  function Positives(s: seq<int>): nat
  {
    if s == [] then 0 else Positives(s[..|s| - 1]) + (if s[|s| - 1] > 0 then 1 else 0)
  }

  predicate NonNegative(s: seq<int>)
  {
    forall i :: 0 <= i < |s| ==> s[i] >= 0
  }

  /**
   * `after` came from `before` by taking slots away but never the last
   * one: a processor without slots keeps none, one with slots keeps at
   * least one and at most what it had.
   */
  predicate Thinned(before: seq<int>, after: seq<int>)
  {
    |after| == |before| &&
    forall q :: 0 <= q < |before| ==>
      (before[q] <= 0 ==> after[q] == before[q]) &&
      (before[q] > 0 ==> 1 <= after[q] <= before[q])
  }

  lemma {:induction false} SumIntUpdate(s: seq<int>, i: int, v: int)
    requires 0 <= i < |s|
    ensures SumInt(s[i := v]) == SumInt(s) - s[i] + v
  {
    var t := s[i := v];
    if i < |s| - 1 {
      assert t[..|t| - 1] == s[..|s| - 1][i := v];
      SumIntUpdate(s[..|s| - 1], i, v);
    } else {
      assert t[..|t| - 1] == s[..|s| - 1];
    }
  }

  /** Each holder contributes at least one slot. */
  lemma {:induction false} PositivesAtMostSum(s: seq<int>)
    requires NonNegative(s)
    ensures Positives(s) <= SumInt(s)
  {
    if s != [] {
      PositivesAtMostSum(s[..|s| - 1]);
    }
  }

  /** With nobody holding two slots, the total is the number of holders. */
  lemma {:induction false} SumOfSingles(s: seq<int>)
    requires forall i :: 0 <= i < |s| ==> 0 <= s[i] <= 1
    ensures SumInt(s) == Positives(s)
  {
    if s != [] {
      SumOfSingles(s[..|s| - 1]);
    }
  }

  /** Thinning keeps the set of holders. */
  lemma {:induction false} ThinnedKeepsHolders(before: seq<int>, after: seq<int>)
    requires Thinned(before, after)
    ensures Positives(after) == Positives(before)
  {
    if before != [] {
      var n := |before| - 1;
      assert Thinned(before[..n], after[..n]);
      ThinnedKeepsHolders(before[..n], after[..n]);
    }
  }

  /**
   * The while loop of `repair_tdma`. Each pass walks the processors and
   * takes a slot from every one holding more than one, stopping as soon
   * as the excess is gone. A pass that takes nothing leaves the state as
   * it was, so the source would repeat it forever: the model returns None
   * there. The loop ends exactly when the holders fit into the slots, and
   * then the total is exactly the number of slots whenever it was above.
   */
  method ReduceSlots(t0: seq<int>, slots: int) returns (res: Option<seq<int>>)
    requires NonNegative(t0)
    ensures res.Some? <==> SumInt(t0) <= slots || Positives(t0) <= slots
    ensures res.Some? ==> Thinned(t0, res.value)
    ensures res.Some? && SumInt(t0) <= slots ==> res.value == t0
    ensures res.Some? && SumInt(t0) > slots ==> SumInt(res.value) == slots
  {
    var t := t0;
    var diff := SumInt(t) - slots;
    while diff > 0
      invariant Thinned(t0, t)
      invariant diff == SumInt(t) - slots
      invariant SumInt(t0) > slots ==> diff >= 0
      invariant SumInt(t0) <= slots ==> t == t0
      decreases diff
    {
      var before := diff;
      var i := 0;
      while i < |t|
        invariant 0 <= i <= |t|
        invariant Thinned(t0, t)
        invariant diff == SumInt(t) - slots
        invariant 0 < diff <= before
        invariant diff == before ==> forall k :: 0 <= k < i ==> t[k] <= 1
      {
        if t[i] > 1 {
          SumIntUpdate(t, i, t[i] - 1);
          t := t[i := t[i] - 1];
          diff := diff - 1;
          if diff <= 0 {
            break;
          }
        }
        i := i + 1;
      }
      if diff == before {
        ThinnedKeepsHolders(t0, t);
        SumOfSingles(t);
        return None;
      }
    }
    ThinnedKeepsHolders(t0, t);
    PositivesAtMostSum(t);
    return Some(t);
  }
}
