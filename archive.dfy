// The archives of the search: the Pareto front kept in multi-objective
// mode and the bounded memories of the best positions
// (metaheuristic/population_data.cpp; the same code appears again in
// metaheuristic/population.cpp and is modelled once).
module Archive {
  import opened Positions

  /** Every member has been evaluated with `m` objectives. */
  predicate Members(s: seq<Position>, m: nat)
  {
    forall i :: 0 <= i < |s| ==> Evaluated(s[i], m)
  }

  predicate Evaluated(p: Position, m: nat)
  {
    |p.weights| == m && |p.fitness| == m
  }

  /**
   * `ParetoFront::dominate(p)`: on an empty front, true exactly for an
   * empty or invalid `p`; otherwise true when some member dominates `p`
   * or has the same fitness.
   */
  predicate FrontDominates(front: seq<Position>, p: Position)
    requires Members(front, |p.weights|) && Shaped(p, |p.weights|)
  {
    if front == [] then Empty(p) || Invalid(p)
    else exists i :: 0 <= i < |front| && (Dominates(front[i], p) || SameFitness(front[i], p))
  }

  /** The front without the members that `p` dominates, in their order. */
  function RemoveDominated(front: seq<Position>, p: Position): (r: seq<Position>)
    requires Members(front, |p.weights|) && Shaped(p, |p.weights|)
    ensures Members(r, |p.weights|)
  {
    if front == [] then []
    else
      var last := front[|front| - 1];
      var rest := RemoveDominated(front[..|front| - 1], p);
      if Dominates(p, last) then rest else rest + [last]
  }

  /** The filter keeps exactly the members `p` does not dominate. */
  lemma {:induction false} RemoveDominatedMembers(front: seq<Position>, p: Position)
    requires Members(front, |p.weights|) && Shaped(p, |p.weights|)
    ensures forall x :: x in RemoveDominated(front, p) <==> x in front && !Dominates(p, x)
  {
    if front != [] {
      var init := front[..|front| - 1];
      RemoveDominatedMembers(init, p);
      assert front == init + [front[|front| - 1]];
    }
  }

  /** One more member of the front decided by the filter. */
  lemma RemoveDominatedStep(front: seq<Position>, p: Position, k: nat)
    requires Members(front, |p.weights|) && Shaped(p, |p.weights|) && k < |front|
    ensures RemoveDominated(front[..k + 1], p) ==
      RemoveDominated(front[..k], p) + (if Dominates(p, front[k]) then [] else [front[k]])
  {
    var s := front[..k + 1];
    assert s[..k] == front[..k] && s[k] == front[k];
  }

  /** One pass of the erase loop, on the state it keeps: filtered prefix, untouched rest. */
  lemma EraseStep(o: seq<Position>, p: Position, k: nat, front: seq<Position>)
    requires Members(o, |p.weights|) && Shaped(p, |p.weights|) && k < |o|
    requires front == RemoveDominated(o[..k], p) + o[k..]
    ensures var i := |RemoveDominated(o[..k], p)|;
      i < |front| && front[i] == o[k] &&
      (Dominates(p, o[k]) ==>
        front[..i] + front[i + 1..] == RemoveDominated(o[..k + 1], p) + o[k + 1..] &&
        i == |RemoveDominated(o[..k + 1], p)|) &&
      (!Dominates(p, o[k]) ==>
        front == RemoveDominated(o[..k + 1], p) + o[k + 1..] &&
        i + 1 == |RemoveDominated(o[..k + 1], p)|)
  {
    var done := RemoveDominated(o[..k], p);
    RemoveDominatedStep(o, p, k);
    SplitAtBoundary(done, o, k);
    if Dominates(p, o[k]) {
      assert RemoveDominated(o[..k + 1], p) == done;
    } else {
      assert RemoveDominated(o[..k + 1], p) == done + [o[k]];
    }
  }

  /** Sequence bookkeeping for erasing, or stepping past, the first untouched member. */
  lemma SplitAtBoundary<T>(done: seq<T>, o: seq<T>, k: nat)
    requires k < |o|
    ensures var front, i := done + o[k..], |done|;
      i < |front| && front[i] == o[k] &&
      front[..i] + front[i + 1..] == done + o[k + 1..] &&
      front == (done + [o[k]]) + o[k + 1..]
  {
    var front, i := done + o[k..], |done|;
    assert o[k..] == [o[k]] + o[k + 1..];
    assert front[..i] == done && front[i + 1..] == o[k + 1..];
  }

  /** The erase loop of `update_pareto` on the member list, examining every member. */
  method EraseFrom(front: seq<Position>, p: Position) returns (kept: seq<Position>)
    requires Members(front, |p.weights|) && Shaped(p, |p.weights|)
    ensures kept == RemoveDominated(front, p)
  {
    kept := front;
    ghost var k := 0;
    var i := 0;
    while i < |kept|
      invariant 0 <= k <= |front|
      invariant kept == RemoveDominated(front[..k], p) + front[k..]
      invariant i == |RemoveDominated(front[..k], p)|
      decreases |front| - k
    {
      EraseStep(front, p, k, kept);
      var d := Dominate(p, kept[i]);
      if d {
        kept := kept[..i] + kept[i + 1..];
      } else {
        i := i + 1;
      }
      k := k + 1;
    }
    assert front[..k] == front;
  }

  /** No member dominates another (stated over membership, so duplicates count too). */
  predicate NonDominated(front: seq<Position>, m: nat)
    requires Members(front, m)
  {
    forall i, j :: 0 <= i < |front| && 0 <= j < |front| && i != j ==>
      !Dominates(front[i], front[j])
  }

  /** The update as evidently intended: drop every dominated member, then append `p`. */
  function UpdatedFront(front: seq<Position>, p: Position): (r: seq<Position>)
    requires Members(front, |p.weights|) && Shaped(p, |p.weights|)
    requires !FrontDominates(front, p)
    ensures |r| > 0 && r[|r| - 1] == p
  {
    RemoveDominated(front, p) + [p]
  }

  /**
   * The erase loop of `update_pareto` as written: after erasing index `i`
   * the index still advances, so the member that slid into position `i`
   * is never examined.
   */
  function EraseSkipping(front: seq<Position>, p: Position, i: nat): (r: seq<Position>)
    requires Members(front, |p.weights|) && Shaped(p, |p.weights|)
    ensures Members(r, |p.weights|)
    decreases |front| - i
  {
    if i >= |front| then front
    else if Dominates(p, front[i]) then EraseSkipping(front[..i] + front[i + 1..], p, i + 1)
    else EraseSkipping(front, p, i + 1)
  }

  /**
   * A non-empty evaluated position never lies in front of the front:
   * `p` is not dominated by a member and every survivor is not dominated
   * by `p`, so the intended update keeps the front free of dominance.
   */
  lemma {:induction false} UpdateKeepsNonDominated(front: seq<Position>, p: Position)
    requires Members(front, |p.weights|) && Evaluated(p, |p.weights|)
    requires NonDominated(front, |p.weights|)
    requires !FrontDominates(front, p)
    ensures Members(UpdatedFront(front, p), |p.weights|)
    ensures NonDominated(UpdatedFront(front, p), |p.weights|)
    ensures p in UpdatedFront(front, p)
    ensures forall x :: x in UpdatedFront(front, p) && x != p ==> x in front && !Dominates(p, x)
  {
    var m := |p.weights|;
    var r := RemoveDominated(front, p);
    var u := r + [p];
    RemoveDominatedMembers(front, p);
    RemovedStaysNonDominated(front, p);
    forall i, j | 0 <= i < |u| && 0 <= j < |u| && i != j
      ensures !Dominates(u[i], u[j])
    {
      if i < |r| && j < |r| {
        assert u[i] == r[i] && u[j] == r[j];
      } else if i == |r| {
        assert u[j] == r[j] && r[j] in r;
      } else {
        assert u[i] == r[i] && r[i] in r;
        var k :| 0 <= k < |front| && front[k] == r[i];
        assert !Dominates(front[k], p);
      }
    }
  }

  /** Removing members keeps the remaining ones pairwise non-dominating. */
  lemma {:induction false} RemovedStaysNonDominated(front: seq<Position>, p: Position)
    requires Members(front, |p.weights|) && Shaped(p, |p.weights|)
    requires NonDominated(front, |p.weights|)
    ensures NonDominated(RemoveDominated(front, p), |p.weights|)
  {
    if front != [] {
      var init := front[..|front| - 1];
      var last := front[|front| - 1];
      assert NonDominated(init, |p.weights|) by {
        forall i, j | 0 <= i < |init| && 0 <= j < |init| && i != j
          ensures !Dominates(init[i], init[j])
        {
          assert init[i] == front[i] && init[j] == front[j];
        }
      }
      RemovedStaysNonDominated(init, p);
      var rest := RemoveDominated(init, p);
      RemoveDominatedMembers(init, p);
      if !Dominates(p, last) {
        var u := rest + [last];
        forall i, j | 0 <= i < |u| && 0 <= j < |u| && i != j
          ensures !Dominates(u[i], u[j])
        {
          if i < |rest| && j < |rest| {
            assert u[i] == rest[i] && u[j] == rest[j];
          } else if i == |rest| {
            assert rest[j] in rest;
            var k :| 0 <= k < |init| && init[k] == rest[j];
            assert front[|front| - 1] == last && front[k] == u[j];
          } else {
            assert rest[i] in rest;
            var k :| 0 <= k < |init| && init[k] == rest[i];
            assert front[k] == u[i] && front[|front| - 1] == last;
          }
        }
      }
    }
  }

  /** A two-objective evaluated position with unit weights, no penalty and no violations. */
  function Point(a: int, b: int): (p: Position)
    ensures Evaluated(p, 2) && p.multiObj
  {
    Position(true, [], [], [], [], [], [], [a, b], 0, [1.0, 1.0], 0, [], [])
  }

  /** Between evaluated two-objective points, a worse first objective rules out dominating. */
  lemma WorseFirstNoDominance(x: Position, y: Position)
    requires Evaluated(x, 2) && Evaluated(y, 2) && x.multiObj && x.weights == [1.0, 1.0]
    requires x.cntViolations == y.cntViolations && x.penalty == y.penalty
    requires x.fitness[0] > y.fitness[0] || x.fitness[1] > y.fitness[1]
    ensures !Dominates(x, y) && !SameFitness(x, y)
  {
  }

  /** Dominance among the three points of the counterexample below. */
  lemma PointDominance()
    ensures !Dominates(Point(5, 1), Point(1, 5)) && !Dominates(Point(1, 5), Point(5, 1))
    ensures !Dominates(Point(5, 1), Point(0, 0)) && !Dominates(Point(1, 5), Point(0, 0))
    ensures !SameFitness(Point(5, 1), Point(0, 0)) && !SameFitness(Point(1, 5), Point(0, 0))
    ensures Dominates(Point(0, 0), Point(5, 1)) && Dominates(Point(0, 0), Point(1, 5))
  {
    PointsIncomparable();
    OriginDominates(5, 1);
    OriginDominates(1, 5);
  }

  lemma PointsIncomparable()
    ensures !Dominates(Point(5, 1), Point(1, 5)) && !Dominates(Point(1, 5), Point(5, 1))
    ensures !Dominates(Point(5, 1), Point(0, 0)) && !Dominates(Point(1, 5), Point(0, 0))
    ensures !SameFitness(Point(5, 1), Point(0, 0)) && !SameFitness(Point(1, 5), Point(0, 0))
  {
    var a, b, p := Point(5, 1), Point(1, 5), Point(0, 0);
    WorseFirstNoDominance(a, b);
    WorseFirstNoDominance(b, a);
    WorseFirstNoDominance(a, p);
    WorseFirstNoDominance(b, p);
  }

  /** The origin dominates every other point with non-negative objectives. */
  lemma OriginDominates(x: int, y: int)
    requires x >= 0 && y >= 0 && x + y > 0
    ensures Dominates(Point(0, 0), Point(x, y))
  {
    assert NoWorse(Point(0, 0), Point(x, y));
  }

  /** The written loop erases (5,1), then steps past (1,5), which slid into its place. */
  lemma EraseSkippingRun()
    ensures EraseSkipping([Point(5, 1), Point(1, 5)], Point(0, 0), 0) == [Point(1, 5)]
  {
    var a, b, p := Point(5, 1), Point(1, 5), Point(0, 0);
    PointDominance();
    assert [a, b][..0] + [a, b][1..] == [b];
    assert EraseSkipping([b], p, 1) == [b];
  }

  /**
   * The written erase loop leaves a dominated member behind: on the front
   * [(5,1), (1,5)], inserting (0,0) erases (5,1), skips (1,5), and yields
   * [(1,5), (0,0)], where (0,0) dominates (1,5).
   */
  lemma EraseSkippingKeepsDominated()
    ensures NonDominated([Point(5, 1), Point(1, 5)], 2)
    ensures !FrontDominates([Point(5, 1), Point(1, 5)], Point(0, 0))
    ensures EraseSkipping([Point(5, 1), Point(1, 5)], Point(0, 0), 0) + [Point(0, 0)] ==
      [Point(1, 5), Point(0, 0)]
    ensures Dominates(Point(0, 0), Point(1, 5))
    ensures !NonDominated([Point(1, 5), Point(0, 0)], 2)
  {
    PointDominance();
    EraseSkippingRun();
    IncomparableFront();
    LeftBehindDominated();
  }

  lemma IncomparableFront()
    ensures NonDominated([Point(5, 1), Point(1, 5)], 2)
    ensures !FrontDominates([Point(5, 1), Point(1, 5)], Point(0, 0))
  {
    var a, b, p := Point(5, 1), Point(1, 5), Point(0, 0);
    PointsIncomparable();
    var f := [a, b];
    forall i, j | 0 <= i < 2 && 0 <= j < 2 && i != j
      ensures !Dominates(f[i], f[j])
    {
    }
    forall i | 0 <= i < 2
      ensures !Dominates(f[i], p) && !SameFitness(f[i], p)
    {
    }
  }

  lemma LeftBehindDominated()
    ensures !NonDominated([Point(1, 5), Point(0, 0)], 2)
  {
    var b, p := Point(1, 5), Point(0, 0);
    OriginDominates(1, 5);
    var g := [b, p];
    assert g[1] == p && g[0] == b && Dominates(g[1], g[0]);
  }

  // ---------------------------------------------------------------------
  // The Pareto front

  class ParetoFront {
    var pareto: seq<Position>

    constructor ()
      ensures pareto == []
    {
      pareto := [];
    }

    /** `empty()`. */
    function IsEmpty(): bool
      reads this
    {
      pareto == []
    }

    /**
     * `dominate(p, indx)`: true for an empty or invalid `p`, false on an
     * empty front; otherwise the code asks whether `p` dominates
     * `pareto[indx]` (its comment describes the reverse question; the only
     * caller reaches this case never, as it calls it on an empty front).
     */
    method DominateAt(p: Position, indx: int) returns (r: bool)
      requires pareto != [] ==> 0 <= indx < |pareto| && Comparable(p, pareto[indx])
      ensures r == (Empty(p) || Invalid(p) || (pareto != [] && Dominates(p, pareto[indx])))
    {
      if Empty(p) {
        return true;
      }
      var neg := IsInvalid(p);
      if neg {
        return true;
      }
      if pareto == [] {
        return false;
      }
      r := Dominate(p, pareto[indx]);
    }

    /** `dominate(p)`: does some member dominate `p` or equal it? */
    method DominateFront(p: Position) returns (r: bool)
      requires Members(pareto, |p.weights|) && Shaped(p, |p.weights|)
      ensures r == FrontDominates(pareto, p)
    {
      if pareto == [] {
        r := DominateAt(p, 0);
        return;
      }
      var i := 0;
      while i < |pareto|
        invariant 0 <= i <= |pareto|
        invariant forall k :: 0 <= k < i ==> !Dominates(pareto[k], p) && !SameFitness(pareto[k], p)
      {
        var d := Dominate(pareto[i], p);
        if d {
          return true;
        }
        var e := Equal(pareto[i], p);
        if e {
          return true;
        }
        i := i + 1;
      }
      return false;
    }

    /**
     * `update_pareto` as written: erasing while the index keeps advancing
     * (see EraseSkipping).
     */
    method UpdateParetoAsWritten(p: Position) returns (updated: bool)
      requires Members(pareto, |p.weights|) && Shaped(p, |p.weights|)
      modifies this
      ensures updated == !FrontDominates(old(pareto), p)
      ensures pareto == if updated then EraseSkipping(old(pareto), p, 0) + [p] else old(pareto)
    {
      var dominated := DominateFront(p);
      if dominated {
        return false;
      }
      var i := 0;
      while i < |pareto|
        invariant Members(pareto, |p.weights|)
        invariant EraseSkipping(pareto, p, i) == EraseSkipping(old(pareto), p, 0)
        decreases |pareto| - i
      {
        var d := Dominate(p, pareto[i]);
        if d {
          pareto := pareto[..i] + pareto[i + 1..];
        }
        i := i + 1;
      }
      pareto := pareto + [p];
      return true;
    }

    /**
     * `update_pareto` with the erase loop examining every member: an
     * undominated `p` replaces exactly the members it dominates and is
     * appended; a dominated one leaves the front unchanged. An evaluated
     * front free of dominance stays free of it (UpdateKeepsNonDominated).
     */
    method UpdatePareto(p: Position) returns (updated: bool)
      requires Members(pareto, |p.weights|) && Shaped(p, |p.weights|)
      modifies this
      ensures updated == !FrontDominates(old(pareto), p)
      ensures pareto == if updated then UpdatedFront(old(pareto), p) else old(pareto)
    {
      var dominated := DominateFront(p);
      if dominated {
        return false;
      }
      pareto := EraseFrom(pareto, p);
      pareto := pareto + [p];
      return true;
    }
  }

  // ---------------------------------------------------------------------
  // The bounded memory

  /**
   * `remove_worst`'s choice: starting from index 0, move to every later
   * member that the current choice dominates.
   */
  function WorstFrom(s: seq<Position>, worst: nat, i: nat, m: nat): (w: nat)
    requires Members(s, m) && worst < |s|
    ensures w < |s|
    decreases |s| - i
  {
    if i >= |s| then worst
    else if Dominates(s[worst], s[i]) then WorstFrom(s, i, i + 1, m)
    else WorstFrom(s, worst, i + 1, m)
  }

  /**
   * With two members where the second dominates the first and
   * dominance is strict (single-objective mode), the first is the one removed.
   */
  lemma WorstOfPairIsDominated(a: Position, b: Position, m: nat)
    requires Evaluated(a, m) && Evaluated(b, m) && !a.multiObj && !b.multiObj
    requires Dominates(b, a)
    ensures WorstFrom([a, b], 0, 1, m) == 0
  {
    SingleObjectiveStrict(a, b);
  }

  /**
   * Does `update_memory(p)` accept `p` into a memory holding `mem`? A valid
   * position is taken while a slot is free; otherwise it must differ in
   * fitness from every member and dominate one of them.
   */
  predicate MemoryAccepts(mem: seq<Position>, p: Position, maxSize: nat)
    requires Members(mem, |p.weights|) && Evaluated(p, |p.weights|)
  {
    if |mem| < maxSize && !Invalid(p) then true
    else (forall i :: 0 <= i < |mem| ==> !SameFitness(p, mem[i])) &&
         exists i :: 0 <= i < |mem| && Dominates(p, mem[i])
  }

  /**
   * The memory `update_memory(p)` leaves: `p` appended into a free slot,
   * or appended with the worst member then removed, or nothing changed.
   */
  function MemoryAfter(mem: seq<Position>, p: Position, maxSize: nat): (r: seq<Position>)
    requires Members(mem, |p.weights|) && Evaluated(p, |p.weights|)
    ensures Members(r, |p.weights|)
    ensures |mem| <= maxSize ==> |r| <= maxSize
    ensures MemoryAccepts(mem, p, maxSize) ==> p in r || |mem| >= maxSize || Invalid(p)
    ensures !MemoryAccepts(mem, p, maxSize) ==> r == mem
  {
    if |mem| < maxSize && !Invalid(p) then mem + [p]
    else if MemoryAccepts(mem, p, maxSize) then
      var s := mem + [p];
      var w := WorstFrom(s, 0, 1, |p.weights|);
      s[..w] + s[w + 1..]
    else mem
  }

  class Memory {
    var mem: seq<Position>
    /** `max_size`, a constant 1 in the source. */
    const maxSize: nat

    constructor ()
      ensures mem == [] && maxSize == 1
    {
      mem := [];
      maxSize := 1;
    }

    /** `empty()`. */
    function IsEmpty(): bool
      reads this
    {
      mem == []
    }

    /** `exists_in_mem`: some member has the same fitness as `newP`. */
    method ExistsInMem(newP: Position) returns (r: bool)
      requires Members(mem, |newP.weights|) && Evaluated(newP, |newP.weights|)
      ensures r <==> exists i :: 0 <= i < |mem| && SameFitness(newP, mem[i])
    {
      var i := 0;
      while i < |mem|
        invariant 0 <= i <= |mem|
        invariant forall k :: 0 <= k < i ==> !SameFitness(newP, mem[k])
      {
        var e := Equal(newP, mem[i]);
        if e {
          return true;
        }
        i := i + 1;
      }
      return false;
    }

    /** `remove_worst`: erases the member chosen by WorstFrom. */
    method RemoveWorst(ghost m: nat)
      requires Members(mem, m) && |mem| > 0
      modifies this
      ensures var w := WorstFrom(old(mem), 0, 1, m); mem == old(mem)[..w] + old(mem)[w + 1..]
      ensures |mem| == |old(mem)| - 1 && Members(mem, m)
    {
      var worst := 0;
      var i := 1;
      while i < |mem|
        invariant mem == old(mem) && Members(mem, m)
        invariant 1 <= i <= |mem| && 0 <= worst < i
        invariant WorstFrom(mem, worst, i, m) == WorstFrom(mem, 0, 1, m)
      {
        var d := Dominate(mem[worst], mem[i]);
        if d {
          worst := i;
        }
        i := i + 1;
      }
      mem := mem[..worst] + mem[worst + 1..];
    }

    /**
     * `update_memory`: a valid position fills a free slot; a position equal
     * to a member is refused; otherwise one that dominates some member is
     * appended and the worst member removed. The memory never grows beyond
     * `maxSize`.
     */
    method UpdateMemory(newP: Position) returns (added: bool)
      requires Members(mem, |newP.weights|) && Evaluated(newP, |newP.weights|)
      modifies this
      ensures Members(mem, |newP.weights|)
      ensures |old(mem)| <= maxSize ==> |mem| <= maxSize
      ensures |old(mem)| < maxSize && !Invalid(newP) ==> added && mem == old(mem) + [newP]
      ensures !(|old(mem)| < maxSize && !Invalid(newP)) ==>
        added == ((forall i :: 0 <= i < |old(mem)| ==> !SameFitness(newP, old(mem)[i])) &&
                  exists i :: 0 <= i < |old(mem)| && Dominates(newP, old(mem)[i]))
      ensures !(|old(mem)| < maxSize && !Invalid(newP)) && added ==>
        mem == var s := old(mem) + [newP]; var w := WorstFrom(s, 0, 1, |newP.weights|);
          s[..w] + s[w + 1..]
      ensures !added ==> mem == old(mem)
      ensures added == MemoryAccepts(old(mem), newP, maxSize) && mem == MemoryAfter(old(mem), newP, maxSize)
    {
      var invalid := IsInvalid(newP);
      if |mem| < maxSize && !invalid {
        mem := mem + [newP];
        return true;
      }
      var exists_ := ExistsInMem(newP);
      if exists_ {
        return false;
      }
      added := false;
      var i := 0;
      while i < |mem|
        invariant 0 <= i <= |mem| && mem == old(mem)
        invariant forall k :: 0 <= k < i ==> !Dominates(newP, mem[k])
      {
        var d := Dominate(newP, mem[i]);
        if d {
          mem := mem + [newP];
          added := true;
          break;
        }
        i := i + 1;
      }
      if added {
        RemoveWorst(|newP.weights|);
      }
    }
  }

  /**
   * In single-objective mode a full one-slot memory that accepts a new
   * position ends up holding exactly that position.
   */
  lemma SingleSlotReplacement(old_: Position, newP: Position, m: nat)
    requires Evaluated(old_, m) && Evaluated(newP, m) && !old_.multiObj && !newP.multiObj
    requires Dominates(newP, old_)
    ensures var s := [old_, newP]; var w := WorstFrom(s, 0, 1, m); s[..w] + s[w + 1..] == [newP]
  {
    WorstOfPairIsDominated(old_, newP, m);
    assert [old_, newP][1..] == [newP];
  }
}
