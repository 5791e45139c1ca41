// A position is one candidate design: actor-to-processor mapping,
// processor modes, TDMA slot allocation, and the three families of
// schedules, together with its evaluated fitness
// (metaheuristic/position.hpp struct Position, metaheuristic/position.cpp).
module Positions {
  import opened Wrappers
  import opened MetaTools
  import opened Schedules

  datatype Position = Position(
    multiObj: bool,
    procSched: seq<Sched>,
    sendSched: seq<Sched>,
    recSched: seq<Sched>,
    procMappings: seq<int>,
    procModes: seq<int>,
    tdmaAlloc: seq<int>,
    fitness: seq<int>,
    penalty: int,
    weights: seq<real>,
    cntViolations: int,
    appGroup: seq<int>,
    procGroup: seq<int>)

  /**
   * `Position(multi_obj, w)`: no decisions yet, no fitness, zero penalty
   * and zero violations.
   */
  function NewPosition(multiObj: bool, w: seq<real>): (p: Position)
    ensures Empty(p) && p.multiObj == multiObj && p.weights == w
    ensures p.penalty == 0 && p.cntViolations == 0
  {
    Position(multiObj, [], [], [], [], [], [], [], 0, w, 0, [], [])
  }

  /** `empty()`: the position has not been evaluated. */
  predicate Empty(p: Position)
  {
    p.fitness == []
  }

  /**
   * Every evaluated position carries one fitness entry per weight
   * (`calc_fitness` resizes the fitness to the number of objectives, which
   * is also the number of weights); comparisons read both vectors up to
   * that length.
   */
  predicate Shaped(p: Position, m: nat)
  {
    |p.weights| == m && (p.fitness == [] || |p.fitness| == m)
  }

  predicate Comparable(p: Position, q: Position)
  {
    Shaped(p, |p.weights|) && Shaped(q, |p.weights|)
  }

  // ---------------------------------------------------------------------
  // Specification functions

  /** Σ fitness[i] * weights[i] over the weights, plus the penalty. */
  function WeightedFitness(p: Position): real
    requires |p.weights| <= |p.fitness|
  {
    WeightedPrefix(p.fitness, p.weights, |p.weights|) + p.penalty as real
  }

  function WeightedPrefix(f: seq<int>, w: seq<real>, k: nat): real
    requires k <= |w| && k <= |f|
  {
    if k == 0 then 0.0 else WeightedPrefix(f, w, k - 1) + (f[k - 1] as real) * w[k - 1]
  }

  /** No positively weighted objective of `p` is worse than in `q`. */
  predicate NoWorse(p: Position, q: Position)
    requires |p.fitness| <= |p.weights| && |p.fitness| <= |q.fitness|
  {
    forall i :: 0 <= i < |p.fitness| ==> (p.weights[i] > 0.0 ==> p.fitness[i] <= q.fitness[i])
  }

  /**
   * "Does p dominate q?": an empty position dominates nothing, any other
   * position dominates an empty one; then fewer violations win, then a
   * lower penalty, then (multi-objective) no worse on every positively
   * weighted objective or (single objective) a strictly lower weighted sum.
   */
  predicate Dominates(p: Position, q: Position)
    requires Comparable(p, q)
  {
    if Empty(p) then false
    else if Empty(q) then true
    else if p.cntViolations != q.cntViolations then p.cntViolations < q.cntViolations
    else if p.penalty != q.penalty then p.penalty < q.penalty
    else if p.multiObj then NoWorse(p, q)
    else WeightedFitness(p) < WeightedFitness(q)
  }

  /** What `operator==` reads: `q`'s fitness as far as `p`'s, or both weighted sums. */
  predicate EqualDefined(p: Position, q: Position)
  {
    if p.multiObj then |p.fitness| <= |q.fitness|
    else |p.weights| <= |p.fitness| && |q.weights| <= |q.fitness|
  }

  /** `operator==`: the same fitness entries (multi-objective) or the same weighted sum. */
  predicate SameFitness(p: Position, q: Position)
    requires EqualDefined(p, q)
  {
    if p.multiObj then
      forall i :: 0 <= i < |p.fitness| ==> p.fitness[i] == q.fitness[i]
    else
      WeightedFitness(p) == WeightedFitness(q)
  }

  /** `invalid()`: some fitness entry is negative. */
  predicate Invalid(p: Position)
  {
    exists i :: 0 <= i < |p.fitness| && p.fitness[i] < 0
  }

  // ---------------------------------------------------------------------
  // The source's loops, proved against the specification functions

  /** `fitness_func()`: accumulates the weighted sum, then adds the penalty. */
  method FitnessFunc(p: Position) returns (f: real)
    requires |p.weights| <= |p.fitness|
    ensures f == WeightedFitness(p)
  {
    f := 0.0;
    var i := 0;
    while i < |p.weights|
      invariant 0 <= i <= |p.weights|
      invariant f == WeightedPrefix(p.fitness, p.weights, i)
    {
      f := f + (p.fitness[i] as real) * p.weights[i];
      i := i + 1;
    }
    f := f + p.penalty as real;
  }

  /** `dominate(p_in)`: the checks in source order, with the objective scan as a loop. */
  method Dominate(p: Position, q: Position) returns (r: bool)
    requires Comparable(p, q)
    ensures r == Dominates(p, q)
  {
    if Empty(p) {
      return false;
    }
    if Empty(q) {
      return true;
    }
    if p.cntViolations > q.cntViolations {
      return false;
    } else if p.cntViolations < q.cntViolations {
      return true;
    }
    if p.penalty > q.penalty {
      return false;
    } else if p.penalty < q.penalty {
      return true;
    }
    if p.multiObj {
      var i := 0;
      while i < |p.fitness|
        invariant 0 <= i <= |p.fitness|
        invariant forall k :: 0 <= k < i ==> (p.weights[k] > 0.0 ==> p.fitness[k] <= q.fitness[k])
      {
        if p.weights[i] > 0.0 && p.fitness[i] > q.fitness[i] {
          return false;
        }
        i := i + 1;
      }
      return true;
    } else {
      var fp := FitnessFunc(p);
      var fq := FitnessFunc(q);
      return fp < fq;
    }
  }

  /** `operator==`. */
  method Equal(p: Position, q: Position) returns (r: bool)
    requires EqualDefined(p, q)
    ensures r == SameFitness(p, q)
  {
    if p.multiObj {
      var i := 0;
      while i < |p.fitness|
        invariant 0 <= i <= |p.fitness|
        invariant forall k :: 0 <= k < i ==> p.fitness[k] == q.fitness[k]
      {
        if p.fitness[i] != q.fitness[i] {
          return false;
        }
        i := i + 1;
      }
      return true;
    } else {
      var fp := FitnessFunc(p);
      var fq := FitnessFunc(q);
      return fp == fq;
    }
  }

  /** `invalid()`: scans the fitness for a negative entry. */
  method IsInvalid(p: Position) returns (r: bool)
    ensures r == Invalid(p)
  {
    var i := 0;
    while i < |p.fitness|
      invariant 0 <= i <= |p.fitness|
      invariant forall k :: 0 <= k < i ==> p.fitness[k] >= 0
    {
      if p.fitness[i] < 0 {
        return true;
      }
      i := i + 1;
    }
    return false;
  }

  // ---------------------------------------------------------------------
  // Properties of dominance

  /** An empty position dominates nothing; every evaluated one dominates an empty one. */
  lemma DominatesEmpty(p: Position, q: Position)
    requires Comparable(p, q)
    ensures Empty(p) ==> !Dominates(p, q)
    ensures !Empty(p) && Empty(q) ==> Dominates(p, q)
  {
  }

  /** Fewer violations decide dominance before anything else, on evaluated positions. */
  lemma {:induction false} ViolationsDecideFirst(p: Position, q: Position)
    requires Comparable(p, q) && Comparable(q, p)
    requires !Empty(p) && !Empty(q)
    requires p.cntViolations < q.cntViolations
    ensures Dominates(p, q) && !Dominates(q, p)
  {
  }

  /**
   * In single-objective mode dominance is strict: no evaluated position
   * dominates itself, and two positions never dominate each other.
   */
  lemma SingleObjectiveStrict(p: Position, q: Position)
    requires Comparable(p, q) && Comparable(q, p)
    requires !p.multiObj && !q.multiObj
    ensures !Dominates(p, p)
    ensures !(Dominates(p, q) && Dominates(q, p))
  {
  }

  /**
   * In multi-objective mode dominance is reflexive on evaluated
   * positions: the scan finds no worse objective when comparing a
   * position with itself.
   */
  lemma MultiObjectiveReflexive(p: Position)
    requires Comparable(p, p)
    requires p.multiObj && !Empty(p)
    ensures Dominates(p, p)
  {
  }

  /**
   * Two positions with the same violations, penalty and fitness dominate
   * each other in multi-objective mode, so there dominance is a preorder,
   * not a strict order.
   */
  lemma MultiObjectiveMutual(p: Position, q: Position)
    requires Comparable(p, q) && Comparable(q, p)
    requires p.multiObj && q.multiObj && !Empty(p)
    requires p.fitness == q.fitness && p.penalty == q.penalty && p.cntViolations == q.cntViolations
    requires p.weights == q.weights
    ensures Dominates(p, q) && Dominates(q, p)
  {
  }

  /** Dominance is transitive among positions of one mode sharing their weights. */
  lemma DominatesTransitive(p: Position, q: Position, r: Position)
    requires p.weights == q.weights == r.weights
    requires p.multiObj == q.multiObj == r.multiObj
    requires Comparable(p, q) && Comparable(q, r) && Comparable(p, r)
    requires Dominates(p, q) && Dominates(q, r)
    ensures Dominates(p, r)
  {
    if !Empty(r) && p.cntViolations == q.cntViolations == r.cntViolations &&
       p.penalty == q.penalty == r.penalty && p.multiObj {
      forall i | 0 <= i < |p.fitness| && p.weights[i] > 0.0
        ensures p.fitness[i] <= r.fitness[i]
      {
        assert p.fitness[i] <= q.fitness[i] && q.fitness[i] <= r.fitness[i];
      }
    }
  }

  /**
   * The weighted sum is monotone: with non-negative weights, a fitness
   * that is no larger entry by entry gives a sum that is no larger.
   */
  lemma {:induction false} WeightedPrefixMonotone(f: seq<int>, g: seq<int>, w: seq<real>, k: nat)
    requires k <= |w| && k <= |f| && k <= |g|
    requires forall i :: 0 <= i < k ==> w[i] >= 0.0 && f[i] <= g[i]
    ensures WeightedPrefix(f, w, k) <= WeightedPrefix(g, w, k)
  {
    if k > 0 {
      WeightedPrefixMonotone(f, g, w, k - 1);
      assert (f[k - 1] as real) * w[k - 1] <= (g[k - 1] as real) * w[k - 1];
    }
  }

  /**
   * In single-objective mode, with non-negative weights and equal
   * violations and penalty, a position that is strictly better in the
   * weighted sum is never dominated by a position that is no better on
   * every objective.
   */
  lemma SingleObjectiveRespectsObjectives(p: Position, q: Position)
    requires Comparable(p, q) && Comparable(q, p) && !p.multiObj && !q.multiObj
    requires !Empty(p) && !Empty(q)
    requires p.weights == q.weights && p.penalty == q.penalty && p.cntViolations == q.cntViolations
    requires forall i :: 0 <= i < |p.weights| ==> p.weights[i] >= 0.0 && p.fitness[i] <= q.fitness[i]
    ensures !Dominates(q, p)
  {
    WeightedPrefixMonotone(p.fitness, q.fitness, p.weights, |p.weights|);
  }

  // ---------------------------------------------------------------------
  // Actors by processor

  /** The indices of `m` holding `v`, ascending. */
  function IndicesOf(m: seq<int>, v: int): (r: seq<int>)
    ensures forall x :: x in r <==> 0 <= x < |m| && m[x] == v
    ensures forall a, b :: 0 <= a < b < |r| ==> r[a] < r[b]
  {
    if m == [] then []
    else
      var rest := IndicesOf(m[..|m| - 1], v);
      assert forall a :: 0 <= a < |rest| ==> rest[a] in rest && rest[a] < |m| - 1;
      if m[|m| - 1] == v then rest + [|m| - 1] else rest
  }

  /** `get_actors_by_proc`: the actors mapped to `proc`, in ascending order. */
  method GetActorsByProc(p: Position, proc: int) returns (actors: seq<int>)
    ensures actors == IndicesOf(p.procMappings, proc)
  {
    actors := [];
    var i := 0;
    while i < |p.procMappings|
      invariant 0 <= i <= |p.procMappings|
      invariant actors == IndicesOf(p.procMappings[..i], proc)
    {
      assert p.procMappings[..i + 1][..i] == p.procMappings[..i];
      if p.procMappings[i] == proc {
        actors := actors + [i];
      }
      i := i + 1;
    }
    assert p.procMappings[..i] == p.procMappings;
  }

  // ---------------------------------------------------------------------
  // Weighted interpolation

  /** `Schedule::random_round`: the floor or the ceiling, by a coin flip. */
  method RandomRound(f: real) returns (r: int)
    ensures r == f.Floor || r == Ceil(f)
  {
    var up :| true;
    r := if up then Ceil(f) else f.Floor;
  }

  /** A fraction of `d` lies between 0 and `d`. */
  lemma ScaledBetween(w: real, d: real)
    requires 0.0 <= w <= 1.0
    ensures d >= 0.0 ==> 0.0 <= w * d <= d
    ensures d < 0.0 ==> d <= w * d <= 0.0
  {
    if d >= 0.0 {
      NonNegativeProduct(w, d);
      NonNegativeProduct(1.0 - w, d);
    } else {
      NonNegativeProduct(w, -d);
      NonNegativeProduct(1.0 - w, -d);
    }
  }

  lemma NonNegativeProduct(x: real, y: real)
    requires x >= 0.0 && y >= 0.0
    ensures x * y >= 0.0
  {
  }

  /** `weighted_sum(a, b, w)`: a + w * (b - a), randomly rounded. */
  method WeightedSum(a: int, b: int, w: real) returns (r: int)
    ensures 0.0 <= w <= 1.0 ==> (a <= r <= b || b <= r <= a)
  {
    var x := (a as real) + w * ((b - a) as real);
    r := RandomRound(x);
    if 0.0 <= w <= 1.0 {
      if a <= b {
        InterpolationBetween(a, b, w);
        RoundingStaysBetween(x, a, b);
      } else {
        InterpolationBetween(b, a, 1.0 - w);
        assert x == (b as real) + (1.0 - w) * ((a - b) as real);
        RoundingStaysBetween(x, b, a);
      }
    }
  }

  /** A fraction of the way from `lo` to `hi` stays between them. */
  lemma InterpolationBetween(lo: int, hi: int, w: real)
    requires lo <= hi && 0.0 <= w <= 1.0
    ensures lo as real <= (lo as real) + w * ((hi - lo) as real) <= hi as real
  {
    var d := (hi - lo) as real;
    ScaledBetween(w, d);
    var t := w * d;
    assert 0.0 <= t <= d;
    assert d == hi as real - lo as real;
  }

  /** Between two integers, both the floor and the ceiling stay between them. */
  lemma RoundingStaysBetween(x: real, lo: int, hi: int)
    requires lo as real <= x <= hi as real
    ensures lo <= x.Floor <= hi && lo <= Ceil(x) <= hi
  {
    assert x.Floor as real <= x < x.Floor as real + 1.0;
  }

  /** `weighted_sum(a, b, c, w1, w2)`: a + w1 * (b - a) + w2 * (c - a), randomly rounded. */
  method WeightedSum3(a: int, b: int, c: int, w1: real, w2: real) returns (r: int)
    ensures var x := (a as real) + w1 * ((b - a) as real) + w2 * ((c - a) as real);
      x - 1.0 < r as real < x + 1.0
  {
    var x := (a as real) + w1 * ((b - a) as real) + w2 * ((c - a) as real);
    r := RandomRound(x);
  }
}

// A decision variable with an ordered finite domain and a selected index
// (metaheuristic/position.hpp struct Domain; methods at the end of
// metaheuristic/position.cpp).
module Domains {
  import opened Wrappers

  /** The elements of a `std::set<int>`, in their ascending iteration order. */
  predicate Ascending(s: seq<int>)
  {
    forall i, j :: 0 <= i < j < |s| ==> s[i] < s[j]
  }

  /** `value()`: the element at the selected index; None where the iterator would leave the set. */
  function ValueAt(domain: seq<int>, idx: int): (r: Option<int>)
    ensures r.Some? <==> 0 <= idx < |domain|
    ensures r.Some? ==> r.value in domain
  {
    if 0 <= idx < |domain| then Some(domain[idx]) else None
  }

  /** The guard of `set_index` as written: only an index above the size is rejected. */
  predicate SetIndexAcceptsAsWritten(size: int, idx: int)
  {
    !(idx > size)
  }

  /** The evidently intended guard: the index must select an element. */
  predicate SetIndexAccepts(size: int, idx: int)
  {
    0 <= idx < size
  }

  /** The written guard lets `set_index(size)` through, after which `value()` has no element. */
  lemma SetIndexAdmitsEnd()
    ensures SetIndexAcceptsAsWritten(2, 2) && ValueAt([3, 5], 2).None?
    ensures SetIndexAcceptsAsWritten(2, -1) && ValueAt([3, 5], -1).None?
  {
  }

  /** With the intended guard every accepted index yields a value from the domain. */
  lemma SetIndexAcceptedHasValue(domain: seq<int>, idx: int)
    requires SetIndexAccepts(|domain|, idx)
    ensures ValueAt(domain, idx).Some? && ValueAt(domain, idx).value == domain[idx]
  {
  }

  class Domain {
    var domain: seq<int>
    var valIndx: int

    ghost predicate Valid()
      reads this
    {
      Ascending(domain)
    }

    /** A domain over the given ascending values, index 0 (the member initialiser). */
    constructor (values: seq<int>)
      requires Ascending(values)
      ensures Valid() && domain == values && valIndx == 0
    {
      domain := values;
      valIndx := 0;
    }

    function Value(): Option<int>
      reads this
    {
      ValueAt(domain, valIndx)
    }

    function Index(): int
      reads this
    {
      valIndx
    }

    /** `set_index` as written: throws only when the index exceeds the size. */
    method SetIndexAsWritten(indx: int) returns (ok: bool)
      modifies this
      ensures ok == SetIndexAcceptsAsWritten(|domain|, indx)
      ensures domain == old(domain)
      ensures valIndx == if ok then indx else old(valIndx)
    {
      if indx > |domain| {
        return false;
      }
      valIndx := indx;
      return true;
    }

    /** `set_index` with the intended guard; a successful call leaves a value selected. */
    method SetIndex(indx: int) returns (ok: bool)
      modifies this
      ensures ok == SetIndexAccepts(|domain|, indx)
      ensures domain == old(domain)
      ensures valIndx == if ok then indx else old(valIndx)
      ensures ok ==> Value() == Some(domain[indx])
    {
      if indx < 0 || indx >= |domain| {
        return false;
      }
      valIndx := indx;
      return true;
    }

    /** `operator=`: copies the domain and the index. */
    method Assign(d: Domain)
      requires d != this
      modifies this
      ensures domain == d.domain && valIndx == d.valIndx
    {
      valIndx := d.valIndx;
      domain := d.domain;
    }
  }
}
