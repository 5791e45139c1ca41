// A schedule is a list of elements (actors or channels) bound to one
// processor, a dummy element that closes the list, and a rank per element
// giving its position in the execution order (metaheuristic/position.hpp,
// class Schedule; methods in metaheuristic/position.cpp).
module Schedules {
  import opened Wrappers
  import MetaTools

  /** The value of a schedule, as copied by `Schedule::operator=`. */
  datatype Sched = Sched(elements: seq<int>, dummy: int, rank: seq<int>)
  {
    /** `rank[i]` is the rank of `elements[i]`. */
    predicate WellFormed() { |rank| == |elements| }
  }

  // ---------------------------------------------------------------------
  // Sequence vocabulary

  /** `std::count`: how often `v` occurs in `s`. */
  function Count(s: seq<int>, v: int): nat
  {
    if s == [] then 0 else (if s[0] == v then 1 else 0) + Count(s[1..], v)
  }

  /** No value occurs twice. */
  predicate Distinct(s: seq<int>)
  {
    forall i, j :: 0 <= i < |s| && 0 <= j < |s| && i != j ==> s[i] != s[j]
  }

  /** The value at `k` occurs nowhere else in `s`. */
  predicate UniqueAt(s: seq<int>, k: int)
    requires 0 <= k < |s|
  {
    forall j :: 0 <= j < |s| && j != k ==> s[j] != s[k]
  }

  predicate InRange(s: seq<int>, n: int)
  {
    forall i :: 0 <= i < |s| ==> 0 <= s[i] < n
  }

  /** `s` holds every rank 0 .. n-1 exactly once. */
  predicate IsRankPermutation(s: seq<int>, n: int)
  {
    |s| == n && InRange(s, n) && Distinct(s)
  }

  /** How many entries of `s` lie outside 0 .. n-1. */
  function OutOfRange(s: seq<int>, n: int): nat
  {
    if s == [] then 0 else (if 0 <= s[0] < n then 0 else 1) + OutOfRange(s[1..], n)
  }

  /** Count(s, 0) + ... + Count(s, n-1). */
  function SumCounts(s: seq<int>, n: nat): nat
  {
    if n == 0 then 0 else SumCounts(s, n - 1) + Count(s, n - 1)
  }

  // ---------------------------------------------------------------------
  // Facts about Count

  lemma {:induction false} CountZero(s: seq<int>, v: int)
    ensures Count(s, v) == 0 <==> v !in s
  {
    if s != [] {
      CountZero(s[1..], v);
      assert s == [s[0]] + s[1..];
    }
  }

  /** `std::count(rank, rank[i]) > 1` says exactly that `rank[i]` is duplicated. */
  lemma {:induction false} CountDuplicate(s: seq<int>, i: int)
    requires 0 <= i < |s|
    ensures Count(s, s[i]) > 1 <==> !UniqueAt(s, i)
  {
    var t := s[1..];
    if i == 0 {
      CountZero(t, s[0]);
      if s[0] in t {
        var j :| 0 <= j < |t| && t[j] == s[0];
        assert s[j + 1] == s[0];
      }
      if !UniqueAt(s, 0) {
        var j :| 0 <= j < |s| && j != 0 && s[j] == s[0];
        assert t[j - 1] == s[0];
      }
    } else {
      CountZero(t, s[i]);
      assert t[i - 1] == s[i];
      if s[0] != s[i] {
        CountDuplicate(t, i - 1);
        if !UniqueAt(t, i - 1) {
          var j :| 0 <= j < |t| && j != i - 1 && t[j] == t[i - 1];
          assert s[j + 1] == s[i];
        }
        if !UniqueAt(s, i) {
          var j :| 0 <= j < |s| && j != i && s[j] == s[i];
          assert t[j - 1] == t[i - 1];
        }
      }
    }
  }

  lemma {:induction false} DistinctCountAtMostOne(s: seq<int>, v: int)
    requires Distinct(s)
    ensures Count(s, v) <= 1
  {
    if s != [] {
      var t := s[1..];
      assert Distinct(t) by {
        forall a, b | 0 <= a < |t| && 0 <= b < |t| && a != b ensures t[a] != t[b] {
          assert s[a + 1] != s[b + 1];
        }
      }
      DistinctCountAtMostOne(t, v);
      CountZero(t, v);
      if s[0] == v {
        assert forall k :: 0 <= k < |t| ==> t[k] == s[k + 1] != s[0];
      }
    }
  }

  lemma {:induction false} SumCountsCons(x: int, t: seq<int>, n: nat)
    ensures SumCounts([x] + t, n) == SumCounts(t, n) + (if 0 <= x < n then 1 else 0)
  {
    assert ([x] + t)[1..] == t;
    if n > 0 {
      SumCountsCons(x, t, n - 1);
    }
  }

  lemma {:induction false} SumCountsEmpty(n: nat)
    ensures SumCounts([], n) == 0
  {
    if n > 0 {
      SumCountsEmpty(n - 1);
    }
  }

  /** Every entry is counted once: either under its rank or as out of range. */
  lemma {:induction false} CountsPartition(s: seq<int>, n: nat)
    ensures SumCounts(s, n) + OutOfRange(s, n) == |s|
  {
    if s != [] {
      var t := s[1..];
      assert s == [s[0]] + t;
      CountsPartition(t, n);
      SumCountsCons(s[0], t, n);
      assert OutOfRange(s, n) == (if 0 <= s[0] < n then 0 else 1) + OutOfRange(t, n);
      assert SumCounts(s, n) == SumCounts(t, n) + (if 0 <= s[0] < n then 1 else 0);
    } else {
      SumCountsEmpty(n);
    }
  }

  lemma {:induction false} OutOfRangeZero(s: seq<int>, n: nat)
    ensures OutOfRange(s, n) == 0 <==> InRange(s, n)
  {
    if s != [] {
      OutOfRangeZero(s[1..], n);
      assert forall k :: 1 <= k < |s| ==> s[k] == s[1..][k - 1];
    }
  }

  /** With every rank present at least once, the sum is at least n, and more by the surplus of `u`. */
  lemma {:induction false} SumCountsLower(s: seq<int>, n: nat, u: int)
    requires forall v :: 0 <= v < n ==> Count(s, v) >= 1
    requires 0 <= u < n
    ensures SumCounts(s, n) >= n - 1 + Count(s, u)
  {
    if n - 1 != u {
      SumCountsLower(s, n - 1, u);
    } else {
      SumCountsAtLeast(s, n - 1);
    }
  }

  lemma {:induction false} SumCountsAtLeast(s: seq<int>, n: nat)
    requires forall v :: 0 <= v < n ==> Count(s, v) >= 1
    ensures SumCounts(s, n) >= n
  {
    if n > 0 {
      SumCountsAtLeast(s, n - 1);
    }
  }

  /** With every rank present at most once, the sum is at most n - 1 plus the count of `u`. */
  lemma {:induction false} SumCountsUpper(s: seq<int>, n: nat, u: int)
    requires forall v :: 0 <= v < n ==> Count(s, v) <= 1
    requires 0 <= u < n
    ensures SumCounts(s, n) <= n - 1 + Count(s, u)
  {
    if n - 1 != u {
      SumCountsUpper(s, n - 1, u);
    } else {
      SumCountsAtMost(s, n - 1);
    }
  }

  lemma {:induction false} SumCountsAtMost(s: seq<int>, n: nat)
    requires forall v :: 0 <= v < n ==> Count(s, v) <= 1
    ensures SumCounts(s, n) <= n
  {
    if n > 0 {
      SumCountsAtMost(s, n - 1);
    }
  }

  /** A sequence of length n that uses every rank 0 .. n-1 is a rank permutation. */
  lemma CoverIsPermutation(s: seq<int>)
    requires forall v :: 0 <= v < |s| ==> Count(s, v) > 0
    ensures IsRankPermutation(s, |s|)
  {
    var n := |s|;
    CountsPartition(s, n);
    SumCountsAtLeast(s, n);
    OutOfRangeZero(s, n);
    assert InRange(s, n);
    forall a | 0 <= a < n ensures UniqueAt(s, a) {
      SumCountsLower(s, n, s[a]);
      CountDuplicate(s, a);
    }
    assert Distinct(s) by {
      forall a, b | 0 <= a < n && 0 <= b < n && a != b ensures s[a] != s[b] {
        assert UniqueAt(s, a);
      }
    }
  }

  /** Either no rank is duplicated, or some rank of 0 .. |s|-1 is unused. */
  lemma DistinctOrUnused(s: seq<int>)
    ensures Distinct(s) || exists v :: 0 <= v < |s| && Count(s, v) == 0
  {
    if forall v :: 0 <= v < |s| ==> Count(s, v) > 0 {
      CoverIsPermutation(s);
      assert Distinct(s);
    } else {
      var v :| 0 <= v < |s| && Count(s, v) <= 0;
      assert Count(s, v) == 0;
    }
  }

  /**
   * Pigeonhole: a duplicated rank leaves some rank of 0 .. |s|-1 unused,
   * so `random_unused_rank` has a value to choose during `repair_dist`.
   */
  lemma DuplicateLeavesUnusedRank(s: seq<int>, i: int)
    requires 0 <= i < |s|
    requires !UniqueAt(s, i)
    ensures exists v :: 0 <= v < |s| && Count(s, v) == 0
  {
    DistinctOrUnused(s);
  }

  /** A rank permutation of 0 .. n-1 uses every rank of 0 .. n-1. */
  lemma PermutationCoversRanks(s: seq<int>, n: int, v: int)
    requires IsRankPermutation(s, n)
    requires 0 <= v < n
    ensures v in s
  {
    forall x | 0 <= x < n ensures Count(s, x) <= 1 {
      DistinctCountAtMostOne(s, x);
    }
    SumCountsUpper(s, n, v);
    CountsPartition(s, n);
    OutOfRangeZero(s, n);
    CountZero(s, v);
  }

  /**
   * What `repair_dist` leaves behind: no rank twice, every rank that was
   * unique kept in place, and ranks within 0 .. n-1 kept within it, so
   * that they end as a permutation.
   */
  ghost predicate RepairedFrom(before: seq<int>, after: seq<int>)
  {
    |after| == |before| && Distinct(after) &&
    (forall k :: 0 <= k < |before| && UniqueAt(before, k) ==> after[k] == before[k]) &&
    (InRange(before, |before|) ==> IsRankPermutation(after, |before|))
  }

  lemma SwapKeepsPermutation(s: seq<int>, n: int, i: int, j: int)
    requires IsRankPermutation(s, n)
    requires 0 <= i < n && 0 <= j < n
    ensures IsRankPermutation(s[i := s[j]][j := s[i]], n)
  {
    var t := s[i := s[j]][j := s[i]];
    forall a, b | 0 <= a < b < n ensures t[a] != t[b] {
      var a' := if a == i then j else if a == j then i else a;
      var b' := if b == i then j else if b == j then i else b;
      assert t[a] == s[a'] && t[b] == s[b'] && a' != b';
    }
  }

  // ---------------------------------------------------------------------
  // Lookups on schedule values

  /** The first index holding `x`, as the source's forward scans return. */
  function FirstIndexOf(s: seq<int>, x: int): (r: Option<nat>)
    ensures r.None? <==> x !in s
    ensures r.Some? ==> r.value < |s| && s[r.value] == x && x !in s[..r.value]
  {
    if s == [] then None
    else if s[0] == x then Some(0)
    else match FirstIndexOf(s[1..], x)
      case None => None
      case Some(k) => assert s[1..][..k] == s[1..k + 1]; Some(k + 1)
  }

  /** `i` is the first index of `s` holding `x`. */
  predicate FirstAt(s: seq<int>, x: int, i: int)
  {
    0 <= i < |s| && s[i] == x && forall j :: 0 <= j < i ==> s[j] != x
  }

  /** The last index holding `x`: `Schedule::get_next` keeps overwriting its match. */
  function LastIndexOf(s: seq<int>, x: int): (r: Option<nat>)
    ensures r.None? <==> x !in s
    ensures r.Some? ==> r.value < |s| && s[r.value] == x && x !in s[r.value + 1..]
  {
    if s == [] then None
    else if s[|s| - 1] == x then Some(|s| - 1)
    else match LastIndexOf(s[..|s| - 1], x)
      case None => None
      case Some(k) => assert s[k + 1..] == s[..|s| - 1][k + 1..] + [s[|s| - 1]]; Some(k)
  }

  lemma {:induction false} FirstIndexIs(s: seq<int>, x: int, i: int)
    requires 0 <= i < |s| && s[i] == x && x !in s[..i]
    ensures FirstIndexOf(s, x) == Some(i)
  {
    if i > 0 {
      assert s[0] == s[..i][0];
      assert s[1..][..i - 1] == s[1..i];
      FirstIndexIs(s[1..], x, i - 1);
    }
  }

  lemma {:induction false} LastIndexIs(s: seq<int>, x: int, i: int)
    requires 0 <= i < |s| && s[i] == x && x !in s[i + 1..]
    ensures LastIndexOf(s, x) == Some(i)
  {
    if i < |s| - 1 {
      assert s[|s| - 1] == s[i + 1..][|s| - 2 - i];
      assert s[..|s| - 1][i + 1..] == s[i + 1..|s| - 1];
      LastIndexIs(s[..|s| - 1], x, i);
    }
  }

  /** `get_element_by_rank`: the dummy for rank |rank|, else the element at the first index holding the rank. */
  function ElementByRank(s: Sched, r: int): (res: Result<int>)
    requires s.WellFormed()
    ensures r == |s.rank| ==> res == Success(s.dummy)
    ensures r != |s.rank| ==> (res.Success? <==> r in s.rank)
    ensures r != |s.rank| && res.Success? ==>
      exists i :: FirstAt(s.rank, r, i) && res.value == s.elements[i]
  {
    if r == |s.rank| then Success(s.dummy)
    else match FirstIndexOf(s.rank, r)
      case None => Failure("could not find the element with input rank")
      case Some(i) => Success(s.elements[i])
  }

  /** `get_next(elem)`: the element ranked right after the last occurrence of `elem`. */
  function NextOf(s: Sched, e: int): (res: Result<int>)
    requires s.WellFormed()
    ensures e !in s.elements ==> res.Failure?
  {
    match LastIndexOf(s.elements, e)
      case None => Failure("element is not in the set")
      case Some(i) => ElementByRank(s, s.rank[i] + 1)
  }

  /** `next[t]` is the successor of `els[t]` for every `t < |next|`. */
  ghost predicate NextsAgree(s: Sched, els: seq<int>, next: seq<int>)
    requires s.WellFormed() && |next| <= |els|
  {
    |next| == 0 ||
    (NextsAgree(s, els, next[..|next| - 1]) && NextOf(s, els[|next| - 1]) == Success(next[|next| - 1]))
  }

  lemma {:induction false} NextsAgreeAt(s: Sched, els: seq<int>, next: seq<int>, t: nat)
    requires s.WellFormed() && t < |next| <= |els| && NextsAgree(s, els, next)
    ensures NextOf(s, els[t]) == Success(next[t])
  {
    if t < |next| - 1 {
      NextsAgreeAt(s, els, next[..|next| - 1], t);
    }
  }

  /** `get_rank_by_element`: the rank of the first occurrence of `e`. */
  function RankByElement(s: Sched, e: int): (res: Result<int>)
    requires s.WellFormed()
    ensures res.Success? <==> e in s.elements
    ensures res.Success? ==>
      exists i :: FirstAt(s.elements, e, i) && res.value == s.rank[i]
  {
    if s.elements == [] then Failure("elements vector is empty")
    else match FirstIndexOf(s.elements, e)
      case None => Failure("element is not in the set")
      case Some(i) => Success(s.rank[i])
  }

  /**
   * In a schedule whose ranks are a permutation and whose elements are
   * distinct, the successor of every element is the element one rank
   * higher, and the dummy follows the highest-ranked element.
   */
  lemma NextFollowsRank(s: Sched, i: int)
    requires s.WellFormed() && IsRankPermutation(s.rank, |s.elements|) && Distinct(s.elements)
    requires 0 <= i < |s.elements|
    ensures NextOf(s, s.elements[i]).Success?
    ensures s.rank[i] == |s.rank| - 1 ==> NextOf(s, s.elements[i]).value == s.dummy
    ensures s.rank[i] < |s.rank| - 1 ==>
      exists j :: 0 <= j < |s.rank| && s.rank[j] == s.rank[i] + 1 &&
        NextOf(s, s.elements[i]).value == s.elements[j]
  {
    var k := LastIndexOf(s.elements, s.elements[i]).value;
    assert k == i;
    if s.rank[i] < |s.rank| - 1 {
      PermutationCoversRanks(s.rank, |s.elements|, s.rank[i] + 1);
    }
  }

  /** The rank `get_rank_by_element` returns for an element first held at index `i`. */
  lemma RankAtFirst(s: Sched, e: int, i: int)
    requires s.WellFormed() && 0 <= i < |s.elements| && s.elements[i] == e && e !in s.elements[..i]
    ensures RankByElement(s, e) == Success(s.rank[i])
  {
    FirstIndexIs(s.elements, e, i);
  }

  lemma DivisionUndone(a: real, d: real)
    requires d != 0.0
    ensures (a / d) * d == a
  {
  }

  // ---------------------------------------------------------------------
  // The mutable schedule

  class Schedule {
    var elements: seq<int>
    var dummy: int
    var rank: seq<int>

    ghost predicate Valid()
      reads this
    {
      |rank| == |elements|
    }

    function Value(): (v: Sched)
      reads this
      ensures Valid() ==> v.WellFormed()
    {
      Sched(elements, dummy, rank)
    }

    /** `Schedule::size`. */
    function Size(): (n: nat)
      reads this
      requires Valid()
      ensures n == |rank|
    {
      |elements|
    }

    /**
     * `Schedule(elems, dummy)`: ranks 0 .. n-1, then shuffled. The
     * shuffle is Fisher-Yates with an arbitrary choice at every step, so
     * any permutation may come out.
     */
    constructor (elems: seq<int>, d: int)
      ensures Valid()
      ensures elements == elems && dummy == d
      ensures IsRankPermutation(rank, |elems|)
    {
      elements := elems;
      dummy := d;
      var r: seq<int> := [];
      var k := 0;
      while k < |elems|
        invariant 0 <= k <= |elems|
        invariant |r| == k
        invariant forall t :: 0 <= t < k ==> r[t] == t
      {
        r := r + [k];
        k := k + 1;
      }
      assert IsRankPermutation(r, |elems|);
      var i := |elems| - 1;
      while i > 0
        invariant IsRankPermutation(r, |elems|)
        invariant i < |elems|
      {
        var j := MetaTools.RandomIndx(i);
        SwapKeepsPermutation(r, |elems|, i, j);
        r := r[i := r[j]][j := r[i]];
        i := i - 1;
      }
      rank := r;
    }

    /** The copy made by `Schedule::operator=`. */
    constructor Copy(v: Sched)
      ensures Value() == v
    {
      elements := v.elements;
      dummy := v.dummy;
      rank := v.rank;
    }

    /** `set_rank(index, value)`. */
    method SetRankAt(index: int, value: int)
      requires 0 <= index < |rank|
      modifies this
      ensures rank == old(rank)[index := value]
      ensures elements == old(elements) && dummy == old(dummy)
    {
      rank := rank[index := value];
    }

    /**
     * `set_rank(vector)`: rejected on a size mismatch; otherwise copies the
     * ranks and repairs duplicates (see RepairDist).
     */
    method SetRanks(r: seq<int>) returns (ok: bool)
      requires Valid()
      modifies this
      ensures Valid()
      ensures elements == old(elements) && dummy == old(dummy)
      ensures ok <==> |r| == |old(rank)|
      ensures !ok ==> rank == old(rank)
      ensures ok ==> RepairedFrom(r, rank)
    {
      if |rank| != |r| {
        return false;
      }
      var i := 0;
      while i < |r|
        invariant 0 <= i <= |r| && |rank| == |r|
        invariant elements == old(elements) && dummy == old(dummy)
        invariant rank[..i] == r[..i]
      {
        SetRankAt(i, r[i]);
        i := i + 1;
      }
      assert rank == r[..|r|] == r;
      RepairDist();
      ok := true;
    }

    /** `get_rank_by_id`: the rank at an index; negative ids wrap to huge unsigned values and fail too. */
    method GetRankById(id: int) returns (res: Result<int>)
      requires Valid()
      ensures res.Success? <==> 0 <= id < |elements|
      ensures res.Success? ==> res.value == rank[id]
    {
      if id < 0 || id >= |elements| {
        return Failure("element is not in the set");
      }
      return Success(rank[id]);
    }

    /** `get_rank_by_element`, by a forward scan. */
    method GetRankByElement(e: int) returns (res: Result<int>)
      requires Valid()
      ensures res == RankByElement(Value(), e)
    {
      if |elements| == 0 {
        return Failure("elements vector is empty");
      }
      var i := 0;
      while i < |rank|
        invariant 0 <= i <= |rank|
        invariant e !in elements[..i]
      {
        if elements[i] == e {
          FirstIndexIs(elements, e, i);
          return Success(rank[i]);
        }
        i := i + 1;
      }
      assert elements[..i] == elements;
      return Failure("element is not in the set");
    }

    /** `get_index_by_element`: the first index holding `e`. */
    method GetIndexByElement(e: int) returns (res: Result<int>)
      requires Valid()
      ensures res.Success? <==> e in elements
      ensures res.Success? ==>
        0 <= res.value < |elements| && elements[res.value] == e && e !in elements[..res.value]
    {
      if |elements| == 0 {
        return Failure("elements vector is empty");
      }
      var i := 0;
      while i < |rank|
        invariant 0 <= i <= |rank|
        invariant e !in elements[..i]
      {
        if elements[i] == e {
          return Success(i);
        }
        i := i + 1;
      }
      assert elements[..i] == elements;
      return Failure("element is not in the set");
    }

    /** `get_relative_rank_by_element`: the rank of `e` divided by the schedule size. */
    method GetRelativeRankByElement(e: int) returns (res: Result<real>)
      requires Valid()
      ensures res.Success? <==> e in elements
      ensures res.Success? ==> (RankByElement(Value(), e).Success? &&
        res.value * (|elements| as real) == RankByElement(Value(), e).value as real)
    {
      var els, rk := elements, rank;
      var i := 0;
      while i < |rk|
        invariant 0 <= i <= |rk|
        invariant e !in els[..i]
      {
        if els[i] == e {
          RankAtFirst(Value(), e, i);
          var size := |els| as real;
          var q := (rk[i] as real) / size;
          DivisionUndone(rk[i] as real, size);
          return Success(q);
        }
        i := i + 1;
      }
      assert els[..i] == els;
      return Failure("element is not in the set");
    }

    /** `set_rank_by_element`: sets the rank of the first occurrence of `e`, then repairs. */
    method SetRankByElement(e: int, r: int) returns (ok: bool)
      requires Valid()
      modifies this
      ensures Valid()
      ensures elements == old(elements) && dummy == old(dummy)
      ensures ok <==> e in old(elements)
      ensures !ok ==> rank == old(rank)
      ensures ok ==> RepairedFrom(old(rank)[FirstIndexOf(old(elements), e).value := r], rank)
    {
      var i := 0;
      while i < |rank|
        invariant 0 <= i <= |rank|
        invariant e !in elements[..i]
        invariant rank == old(rank) && elements == old(elements) && dummy == old(dummy)
      {
        if elements[i] == e {
          FirstIndexIs(elements, e, i);
          SetRankAt(i, r);
          RepairDist();
          return true;
        }
        i := i + 1;
      }
      assert elements[..i] == elements;
      return false;
    }

    /** `get_element_by_rank`, by a forward scan. */
    method GetElementByRank(r: int) returns (res: Result<int>)
      requires Valid()
      ensures res == ElementByRank(Value(), r)
    {
      if r == |rank| {
        return Success(dummy);
      }
      var i := 0;
      while i < |rank|
        invariant 0 <= i <= |rank|
        invariant r !in rank[..i]
      {
        if rank[i] == r {
          FirstIndexIs(rank, r, i);
          return Success(elements[i]);
        }
        i := i + 1;
      }
      assert rank[..i] == rank;
      return Failure("could not find the element with input rank");
    }

    /** `get_next(elem)`: scans all elements, keeping the last match. */
    method GetNext(e: int) returns (res: Result<int>)
      requires Valid()
      ensures res == NextOf(Value(), e)
    {
      var els := elements;
      var id := -1;
      var i := 0;
      while i < |els|
        invariant 0 <= i <= |els|
        invariant id == -1 <==> e !in els[..i]
        invariant id != -1 ==> 0 <= id < i && els[id] == e && e !in els[id + 1..i]
      {
        if els[i] == e {
          id := i;
        }
        i := i + 1;
      }
      assert els[..i] == els;
      if id < 0 {
        return Failure("element is not in the set");
      }
      LastIndexIs(els, e, id);
      res := GetElementByRank(rank[id] + 1);
    }

    /** `get_next()`: the successor of every element, in element order. */
    method GetNextAll() returns (res: Result<seq<int>>)
      requires Valid()
      ensures res.Success? <==> forall k :: 0 <= k < |elements| ==> NextOf(Value(), elements[k]).Success?
      ensures res.Success? ==> |res.value| == |elements| && forall k :: 0 <= k < |elements| ==> NextOf(Value(), elements[k]) == Success(res.value[k])
    {
      ghost var v := Value();
      var els := elements;
      var next: seq<int> := [];
      var k := 0;
      while k < |els|
        invariant 0 <= k <= |els| && |next| == k && v == Value() && els == elements
        invariant NextsAgree(v, els, next)
      {
        var n := GetNext(els[k]);
        if n.Failure? {
          assert !NextOf(v, els[k]).Success?;
          return Failure(n.error);
        }
        assert (next + [n.value])[..k] == next;
        next := next + [n.value];
        k := k + 1;
      }
      forall t | 0 <= t < k
        ensures NextOf(v, els[t]) == Success(next[t])
      {
        NextsAgreeAt(v, els, next, t);
      }
      return Success(next);
    }

    /** `switch_ranks(i, j)`: exchanges two ranks. */
    method SwitchRanks(i: int, j: int)
      requires Valid()
      requires 0 <= i < |rank| && 0 <= j < |rank|
      modifies this
      ensures Valid()
      ensures rank == old(rank)[i := old(rank)[j]][j := old(rank)[i]]
      ensures elements == old(elements) && dummy == old(dummy)
      ensures IsRankPermutation(old(rank), |rank|) ==> IsRankPermutation(rank, |rank|)
    {
      if IsRankPermutation(rank, |rank|) {
        SwapKeepsPermutation(rank, |rank|, i, j);
      }
      var tmp := rank[i];
      SetRankAt(i, rank[j]);
      SetRankAt(j, tmp);
    }

    /** `random_unused_rank`: some rank of 0 .. size-1 that no element holds. */
    method RandomUnusedRank() returns (v: int)
      requires exists u :: 0 <= u < |rank| && Count(rank, u) == 0
      ensures 0 <= v < |rank| && v !in rank
    {
      var unused: seq<int> := [];
      var j := 0;
      while j < |rank|
        invariant 0 <= j <= |rank|
        invariant forall t :: 0 <= t < |unused| ==> 0 <= unused[t] < |rank| && Count(rank, unused[t]) == 0
        invariant forall u :: 0 <= u < j && Count(rank, u) == 0 ==> u in unused
      {
        if Count(rank, j) == 0 {
          unused := unused + [j];
        }
        j := j + 1;
      }
      var u :| 0 <= u < |rank| && Count(rank, u) == 0;
      assert u in unused;
      var t := MetaTools.RandomIndx(|unused| - 1);
      v := unused[t];
      CountZero(rank, v);
    }

    /**
     * `repair_dist`: every rank that occurs more than once at the moment it
     * is visited is replaced by a currently unused rank. Afterwards no rank
     * occurs twice; a rank that was unique from the start is kept; and ranks
     * within 0 .. size-1 stay within it, so they end as a permutation.
     */
    method RepairDist()
      requires Valid()
      modifies this
      ensures Valid()
      ensures elements == old(elements) && dummy == old(dummy)
      ensures RepairedFrom(old(rank), rank)
    {
      ghost var r0 := rank;
      ghost var n := |rank|;
      var i := 0;
      while i < |rank|
        invariant 0 <= i <= n && |rank| == n
        invariant elements == old(elements) && dummy == old(dummy)
        invariant forall k :: 0 <= k < i ==> UniqueAt(rank, k)
        invariant InRange(r0, n) ==> InRange(rank, n)
        invariant forall k :: i <= k < n ==> rank[k] == r0[k]
        invariant forall k :: 0 <= k < i ==>
          rank[k] == r0[k] || forall m :: i <= m < n ==> rank[k] != r0[m]
        invariant forall k :: 0 <= k < i && UniqueAt(r0, k) ==> rank[k] == r0[k]
      {
        CountDuplicate(rank, i);
        var cnt := Count(rank, rank[i]);
        if cnt > 1 {
          assert !UniqueAt(r0, i) by {
            var j :| 0 <= j < n && j != i && rank[j] == rank[i];
            assert r0[j] == r0[i];
          }
          DuplicateLeavesUnusedRank(rank, i);
          var v := RandomUnusedRank();
          ghost var prev := rank;
          SetRankAt(i, v);
          forall k | 0 <= k < i ensures UniqueAt(rank, k) {
            assert UniqueAt(prev, k);
            assert prev[k] != v;
          }
          assert UniqueAt(rank, i);
        }
        i := i + 1;
      }
      assert Distinct(rank) by {
        forall a, b | 0 <= a < n && 0 <= b < n && a != b ensures rank[a] != rank[b] {
          assert UniqueAt(rank, a);
        }
      }
    }
  }
}
