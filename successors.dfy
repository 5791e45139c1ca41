// The successor arrays `Individual::get_next` (metaheuristic/individual.cpp)
// builds from a set of schedules: the encoding of an order the design
// analysis reads.
module SuccessorArrays {
  import opened Wrappers
  import opened Schedules

  /** Every schedule of the set has as many ranks as elements. */
  predicate AllWellFormed(l: seq<Sched>)
  {
    forall k :: 0 <= k < |l| ==> l[k].WellFormed()
  }

  /** Every element of every schedule indexes an array of `size` entries. */
  predicate ElementsBelow(l: seq<Sched>, size: int)
  {
    forall k, i :: 0 <= k < |l| && 0 <= i < |l[k].elements| ==> 0 <= l[k].elements[i] < size
  }

  /** Every schedule's ranks are a permutation of 0 .. n-1. */
  predicate Ranked(l: seq<Sched>)
  {
    forall k :: 0 <= k < |l| ==> IsRankPermutation(l[k].rank, |l[k].elements|)
  }

  /** `s.get_next(e)` does not throw. */
  predicate NextSucceeds(s: Sched, e: int)
    requires s.WellFormed()
  {
    NextOf(s, e).Success?
  }

  /** The first `i` lookups of the element loop succeed. */
  ghost predicate PrefixSucceeds(s: Sched, i: nat)
    requires s.WellFormed() && i <= |s.elements|
  {
    forall t {:trigger NextSucceeds(s, s.elements[t])} :: 0 <= t < i ==> NextSucceeds(s, s.elements[t])
  }

  predicate NextsSucceed(s: Sched)
    requires s.WellFormed()
  {
    forall i {:trigger NextSucceeds(s, s.elements[i])} :: 0 <= i < |s.elements| ==> NextSucceeds(s, s.elements[i])
  }

  /** Every lookup `get_next` makes in one schedule succeeds. */
  predicate SchedLookups(s: Sched)
    requires s.WellFormed()
  {
    NextsSucceed(s) && ElementByRank(s, 0).Success?
  }

  predicate LookupsSucceed(l: seq<Sched>)
    requires AllWellFormed(l)
  {
    forall k :: 0 <= k < |l| ==> SchedLookups(l[k])
  }

  /** The lookups succeed for each of the first `k` schedules. */
  ghost predicate PrefixLookups(l: seq<Sched>, k: nat)
    requires k <= |l| && AllWellFormed(l)
  {
    k == 0 || (PrefixLookups(l, k - 1) && SchedLookups(l[k - 1]))
  }

  lemma {:induction false} PrefixLookupsAll(l: seq<Sched>, k: nat)
    requires k <= |l| && AllWellFormed(l) && PrefixLookups(l, k)
    ensures forall j :: 0 <= j < k ==> SchedLookups(l[j])
  {
    if k > 0 {
      PrefixLookupsAll(l, k - 1);
    }
  }

  /** The lowest-ranked element of each of the first `k` schedules. */
  function LowsOf(l: seq<Sched>, k: nat): (low: seq<int>)
    requires k <= |l| && AllWellFormed(l)
    ensures |low| == k
  {
    if k == 0 then [] else LowsOf(l, k - 1) + [LowValue(l[k - 1])]
  }

  lemma {:induction false} LowsOfAt(l: seq<Sched>, k: nat, j: nat)
    requires j < k <= |l| && AllWellFormed(l)
    ensures LowsOf(l, k)[j] == LowValue(l[j])
  {
    if j < k - 1 {
      LowsOfAt(l, k - 1, j);
    }
  }

  /** The last schedule before index `k` that holds `e`. */
  function Holder(l: seq<Sched>, k: nat, e: int): (r: Option<nat>)
    requires k <= |l|
    ensures r.Some? ==> (r.value < k && e in l[r.value].elements &&
      forall j :: r.value < j < k ==> e !in l[j].elements)
    ensures r.None? ==> forall j :: 0 <= j < k ==> e !in l[j].elements
  {
    if k == 0 then None
    else if e in l[k - 1].elements then Some(k - 1)
    else Holder(l, k - 1, e)
  }

  /** The successor `get_next(e)` returns, or 0 where it throws. */
  function NextValue(s: Sched, e: int): int
    requires s.WellFormed()
  {
    match NextOf(s, e)
      case Success(x) => x
      case Failure(_) => 0
  }

  /** The lowest-ranked element (the dummy for an empty schedule), or 0 where it throws. */
  function LowValue(s: Sched): int
    requires s.WellFormed()
  {
    match ElementByRank(s, 0)
      case Success(x) => x
      case Failure(_) => 0
  }

  /** What the element loop of `get_next` leaves at `next[e]` after `k` schedules. */
  function ElementEntry(l: seq<Sched>, k: nat, e: int): int
    requires k <= |l| && AllWellFormed(l)
  {
    match Holder(l, k, e)
      case None => 0
      case Some(h) => NextValue(l[h], e)
  }

  /** Every key indexes an array of `n` entries. */
  predicate KeysBelow(keys: seq<int>, n: int)
  {
    forall t :: 0 <= t < |keys| ==> 0 <= keys[t] < n
  }

  /** `next` after the first `i` keys have been written, key `k` receiving `f(k)`. */
  function Assigned(next: seq<int>, keys: seq<int>, f: int -> int, i: nat): (out: seq<int>)
    requires i <= |keys|
    requires KeysBelow(keys, |next|)
    ensures |out| == |next|
  {
    if i == 0 then next
    else Assigned(next, keys, f, i - 1)[keys[i - 1] := f(keys[i - 1])]
  }

  /** Each written key holds its value and every other entry is as it was. */
  lemma {:induction false} AssignedMeaning(next: seq<int>, keys: seq<int>, f: int -> int, i: nat, e: int)
    requires i <= |keys|
    requires KeysBelow(keys, |next|)
    requires 0 <= e < |next|
    ensures Assigned(next, keys, f, i)[e] == if e in keys[..i] then f(e) else next[e]
  {
    if i > 0 {
      AssignedMeaning(next, keys, f, i - 1, e);
      assert keys[..i] == keys[..i - 1] + [keys[i - 1]];
    }
  }

  /** The successor lookup of one schedule as a total function. */
  function Successor(v: Sched): int -> int
  {
    e => if v.WellFormed() then NextValue(v, e) else 0
  }

  /** `out` is `next` with every element of `v` overwritten by its successor. */
  predicate SuccessorsWritten(next: seq<int>, v: Sched, out: seq<int>)
    requires v.WellFormed()
  {
    |out| == |next| &&
    forall e :: 0 <= e < |next| ==> out[e] == if e in v.elements then NextValue(v, e) else next[e]
  }

  lemma WrittenAll(next: seq<int>, v: Sched)
    requires v.WellFormed()
    requires KeysBelow(v.elements, |next|)
    ensures SuccessorsWritten(next, v, Assigned(next, v.elements, Successor(v), |v.elements|))
  {
    forall e | 0 <= e < |next|
      ensures Assigned(next, v.elements, Successor(v), |v.elements|)[e] ==
        if e in v.elements then NextValue(v, e) else next[e]
    {
      AssignedMeaning(next, v.elements, Successor(v), |v.elements|, e);
      assert v.elements[..|v.elements|] == v.elements;
    }
  }

  /** One step of the element loop: a successful lookup of element `i` extends the written prefix. */
  lemma WriteStep(next: seq<int>, v: Sched, i: nat, out: seq<int>)
    requires v.WellFormed() && i < |v.elements| && KeysBelow(v.elements, |next|)
    requires PrefixSucceeds(v, i) && NextSucceeds(v, v.elements[i])
    requires out == Assigned(next, v.elements, Successor(v), i)
    ensures PrefixSucceeds(v, i + 1)
    ensures out[v.elements[i] := NextValue(v, v.elements[i])] == Assigned(next, v.elements, Successor(v), i + 1)
  {
    assert Successor(v)(v.elements[i]) == NextValue(v, v.elements[i]);
  }

  /**
   * The element loop of `get_next` for one schedule: every element's
   * entry becomes its successor; other entries stay.
   */
  method WriteSuccessors(next: seq<int>, v: Sched) returns (res: Result<seq<int>>)
    requires v.WellFormed()
    requires KeysBelow(v.elements, |next|)
    ensures res.Success? <==> NextsSucceed(v)
    ensures res.Success? ==> |res.value| == |next|
    ensures res.Success? ==> SuccessorsWritten(next, v, res.value)
  {
    var out := next;
    var i := 0;
    while i < |v.elements|
      invariant 0 <= i <= |v.elements|
      invariant PrefixSucceeds(v, i)
      invariant out == Assigned(next, v.elements, Successor(v), i)
    {
      var r := NextOf(v, v.elements[i]);
      if r.Failure? {
        assert !NextSucceeds(v, v.elements[i]);
        return Failure(r.error);
      }
      assert r.value == NextValue(v, v.elements[i]);
      WriteStep(next, v, i, out);
      out := out[v.elements[i] := r.value];
      i := i + 1;
    }
    WrittenAll(next, v);
    return Success(out);
  }

  lemma ElementEntryStep(l: seq<Sched>, k: nat, e: int)
    requires k < |l| && AllWellFormed(l)
    ensures ElementEntry(l, k + 1, e) == if e in l[k].elements then NextValue(l[k], e) else ElementEntry(l, k, e)
  {
  }

  /** `next` holds, for every entry, its successor in the first `k` schedules. */
  predicate EntriesUpTo(l: seq<Sched>, k: nat, next: seq<int>)
    requires k <= |l| && AllWellFormed(l)
  {
    forall e :: 0 <= e < |next| ==> next[e] == ElementEntry(l, k, e)
  }

  /** Writing the successors of schedule `k` extends the entries to `k + 1` schedules. */
  lemma ElementEntriesStep(l: seq<Sched>, k: nat, next: seq<int>, out: seq<int>)
    requires k < |l| && AllWellFormed(l)
    requires EntriesUpTo(l, k, next) && SuccessorsWritten(next, l[k], out)
    ensures EntriesUpTo(l, k + 1, out)
  {
    forall e | 0 <= e < |out|
      ensures out[e] == ElementEntry(l, k + 1, e)
    {
      ElementEntryStep(l, k, e);
    }
  }

  /**
   * `get_next(sched_set, n)`: entry `e < n + P` is the schedule successor of
   * `e` in the last schedule holding it (0 if none holds it); the dummy of
   * processor `i` points to the lowest-ranked element of processor `i+1`,
   * and the last dummy to that of processor 0.
   */
  function NextArray(l: seq<Sched>, n: nat): (next: seq<int>)
    requires |l| >= 1 && AllWellFormed(l)
    ensures |next| == n + |l|
  {
    seq(n + |l|, e requires 0 <= e < n + |l| =>
      if e == n + |l| - 1 then LowValue(l[0])
      else if e >= n then LowValue(l[e - n + 1])
      else ElementEntry(l, |l|, e))
  }

  /**
   * The dummy entry of the processor before `p` (cyclically) holds the
   * lowest-ranked element of processor `p`'s schedule.
   */
  lemma DummyLeadsToLowest(l: seq<Sched>, n: nat, p: nat)
    requires |l| >= 1 && AllWellFormed(l) && p < |l|
    ensures NextArray(l, n)[if p == 0 then n + |l| - 1 else n + p - 1] == LowValue(l[p])
  {
  }

  /**
   * The schedule loop of `get_next`: each schedule writes the successors of
   * its elements into `next` (of size `size`, initially zeros) and
   * contributes its lowest-ranked element to `low`.
   */
  method WriteElements(l: seq<Sched>, size: nat) returns (res: Result<(seq<int>, seq<int>)>)
    requires AllWellFormed(l)
    requires ElementsBelow(l, size)
    ensures res.Success? <==> LookupsSucceed(l)
    ensures res.Success? ==> |res.value.0| == size && |res.value.1| == |l|
    ensures res.Success? ==> forall j :: 0 <= j < |l| ==> res.value.1[j] == LowValue(l[j])
    ensures res.Success? ==> forall e :: 0 <= e < size ==> res.value.0[e] == ElementEntry(l, |l|, e)
  {
    var next := seq(size, _ => 0);
    var low: seq<int> := [];
    var k := 0;
    while k < |l|
      invariant 0 <= k <= |l| && |next| == size
      invariant PrefixLookups(l, k)
      invariant low == LowsOf(l, k)
      invariant EntriesUpTo(l, k, next)
    {
      var written := WriteSuccessors(next, l[k]);
      if written.Failure? {
        return Failure(written.error);
      }
      ElementEntriesStep(l, k, next, written.value);
      next := written.value;
      var first := ElementByRank(l[k], 0);
      if first.Failure? {
        return Failure(first.error);
      }
      assert SchedLookups(l[k]);
      low := low + [first.value];
      k := k + 1;
    }
    PrefixLookupsAll(l, |l|);
    forall j | 0 <= j < |l|
      ensures low[j] == LowValue(l[j])
    {
      LowsOfAt(l, |l|, j);
    }
    return Success((next, low));
  }

  /**
   * The dummy loop of `get_next`: dummy `n+i` points to `low[i+1]` and the
   * last dummy to `low[0]`; element entries stay.
   */
  method LinkDummies(next: seq<int>, low: seq<int>, n: nat) returns (out: seq<int>)
    requires |low| >= 1 && |next| == n + |low|
    ensures |out| == |next| && out[n + |low| - 1] == low[0]
    ensures forall e :: n <= e < n + |low| - 1 ==> out[e] == low[e - n + 1]
    ensures forall e :: 0 <= e < n ==> out[e] == next[e]
  {
    out := next[n + |low| - 1 := low[0]];
    var i := 0;
    while i < |low| - 1
      invariant 0 <= i <= |low| - 1 && |out| == |next|
      invariant out[n + |low| - 1] == low[0]
      invariant forall e :: n <= e < n + i ==> out[e] == low[e - n + 1]
      invariant forall e :: 0 <= e < n ==> out[e] == next[e]
    {
      out := out[n + i := low[i + 1]];
      i := i + 1;
    }
  }

  /** The element entries and the linked dummies together make NextArray. */
  lemma LinkedIsNextArray(l: seq<Sched>, n: nat, next: seq<int>, low: seq<int>, linked: seq<int>)
    requires |l| >= 1 && AllWellFormed(l) && |low| == |l| && |next| == n + |l|
    requires forall j :: 0 <= j < |l| ==> low[j] == LowValue(l[j])
    requires forall e :: 0 <= e < |next| ==> next[e] == ElementEntry(l, |l|, e)
    requires |linked| == |next| && linked[n + |low| - 1] == low[0]
    requires forall e :: n <= e < n + |low| - 1 ==> linked[e] == low[e - n + 1]
    requires forall e :: 0 <= e < n ==> linked[e] == next[e]
    ensures linked == NextArray(l, n)
  {
    var na := NextArray(l, n);
    forall e | 0 <= e < |next|
      ensures linked[e] == na[e]
    {
      if e == n + |l| - 1 {
        assert linked[e] == low[0];
      } else if e >= n {
        assert linked[e] == low[e - n + 1];
      } else {
        assert linked[e] == next[e];
      }
      NextArrayAt(l, n, e);
    }
  }

  lemma NextArrayAt(l: seq<Sched>, n: nat, e: int)
    requires |l| >= 1 && AllWellFormed(l) && 0 <= e < n + |l|
    ensures NextArray(l, n)[e] ==
      if e == n + |l| - 1 then LowValue(l[0])
      else if e >= n then LowValue(l[e - n + 1])
      else ElementEntry(l, |l|, e)
  {
  }

  /** Ranks that are permutations make every lookup of `get_next` succeed. */
  lemma RankedLookupsSucceed(l: seq<Sched>)
    requires AllWellFormed(l) && Ranked(l)
    ensures LookupsSucceed(l)
  {
    forall k | 0 <= k < |l|
      ensures SchedLookups(l[k])
    {
      RankedSchedLookups(l[k]);
    }
  }

  lemma RankedSchedLookups(s: Sched)
    requires s.WellFormed() && IsRankPermutation(s.rank, |s.elements|)
    ensures SchedLookups(s)
  {
    if |s.rank| > 0 {
      PermutationCoversRanks(s.rank, |s.elements|, 0);
    }
    forall i | 0 <= i < |s.elements|
      ensures NextSucceeds(s, s.elements[i])
    {
      var t := LastIndexOf(s.elements, s.elements[i]).value;
      if s.rank[t] + 1 < |s.rank| {
        PermutationCoversRanks(s.rank, |s.elements|, s.rank[t] + 1);
      }
    }
  }

  /**
   * In a ranked schedule with distinct elements, the entry of an element
   * held by no later schedule is the element ranked right after it, or
   * the schedule's dummy after the highest-ranked one.
   */
  lemma NextArrayFollowsRanks(l: seq<Sched>, n: nat, k: int, i: int)
    requires |l| >= 1 && AllWellFormed(l) && Ranked(l)
    requires 0 <= k < |l| && Distinct(l[k].elements) && 0 <= i < |l[k].elements|
    requires 0 <= l[k].elements[i] < n
    requires forall j :: k < j < |l| ==> l[k].elements[i] !in l[j].elements
    ensures LookupsSucceed(l)
    ensures var e := l[k].elements[i]; var s := l[k];
      (s.rank[i] == |s.rank| - 1 ==> NextArray(l, n)[e] == s.dummy) &&
      (s.rank[i] < |s.rank| - 1 ==>
        exists j :: 0 <= j < |s.rank| && s.rank[j] == s.rank[i] + 1 && NextArray(l, n)[e] == s.elements[j])
  {
    RankedLookupsSucceed(l);
    var e := l[k].elements[i];
    ElementEntryOfHolder(l, n, k, e);
    NextFollowsRank(l[k], i);
  }

  /** An element below `n` held last by schedule `k` gets that schedule's successor. */
  lemma ElementEntryOfHolder(l: seq<Sched>, n: nat, k: int, e: int)
    requires |l| >= 1 && AllWellFormed(l)
    requires 0 <= k < |l| && e in l[k].elements && 0 <= e < n
    requires forall j :: k < j < |l| ==> e !in l[j].elements
    ensures NextArray(l, n)[e] == NextValue(l[k], e)
  {
    HolderIsLast(l, |l|, k, e);
    assert NextArray(l, n)[e] == ElementEntry(l, |l|, e);
  }

  lemma {:induction false} HolderIsLast(l: seq<Sched>, m: nat, k: int, e: int)
    requires m <= |l| && 0 <= k < m && e in l[k].elements
    requires forall j :: k < j < m ==> e !in l[j].elements
    ensures Holder(l, m, e) == Some(k)
  {
    if k < m - 1 {
      HolderIsLast(l, m - 1, k, e);
    }
  }
}
