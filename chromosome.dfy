// The genetic operators of a chromosome (metaheuristic/chromosome.cpp):
// single-cut crossover and ±2 mutation of the integer vectors, the
// schedule crossover that reads each element's rank from one of two
// parents, and the two ways they are combined into a new position.
module Chromosomes {
  import opened Wrappers
  import opened MetaTools
  import opened Schedules
  import opened Positions
  import opened SuccessorArrays
  import opened Individuals

  // ---------------------------------------------------------------------
  // Vector crossover

  /** `v1` up to the cut, `v2` from the cut on, as long as `v1`. */
  function CrossedAt(v1: seq<int>, v2: seq<int>, cut: int): (r: seq<int>)
    requires 0 <= cut <= |v1| <= |v2|
  {
    v1[..cut] + v2[cut..|v1|]
  }

  /** `r` is `v1` crossed with `v2` at some cut in 0 .. |v1|-1. */
  predicate CrossedOf(v1: seq<int>, v2: seq<int>, r: seq<int>)
  {
    |v1| <= |v2| && exists cut :: 0 <= cut < |v1| && r == CrossedAt(v1, v2, cut)
  }

  /**
   * `crossover(v1, v2)`: a cut drawn from 0 .. |v1|-1, the entries of `v1`
   * before it and those of `v2` from it on. The source draws
   * `random_indx(v1.size()-1)`, which wraps around for an empty `v1`.
   */
  method Crossover(v1: seq<int>, v2: seq<int>) returns (r: seq<int>)
    requires 1 <= |v1| <= |v2|
    ensures CrossedOf(v1, v2, r)
  {
    var cut := RandomIndx(|v1| - 1);
    r := [];
    var i := 0;
    while i < cut
      invariant 0 <= i <= cut && r == v1[..i]
    {
      r := r + [v1[i]];
      i := i + 1;
    }
    i := cut;
    while i < |v1|
      invariant cut <= i <= |v1| && r == v1[..cut] + v2[cut..i]
    {
      r := r + [v2[i]];
      i := i + 1;
    }
    assert r == CrossedAt(v1, v2, cut);
  }

  /**
   * A crossed vector is as long as the first parent, takes every entry
   * from one of the parents at the same index, and its last entry always
   * from the second.
   */
  lemma CrossedEntries(v1: seq<int>, v2: seq<int>, r: seq<int>)
    requires CrossedOf(v1, v2, r)
    ensures |r| == |v1| && r[|v1| - 1] == v2[|v1| - 1]
    ensures forall i :: 0 <= i < |r| ==> r[i] == v1[i] || r[i] == v2[i]
  {
    var cut :| 0 <= cut < |v1| && r == CrossedAt(v1, v2, cut);
    assert forall i :: 0 <= i < |r| ==> r[i] == if i < cut then v1[i] else v2[i];
  }

  /** Crossing two vectors within bounds stays within them. */
  lemma CrossedWithin(v1: seq<int>, v2: seq<int>, r: seq<int>, lo: int, hi: int)
    requires CrossedOf(v1, v2, r)
    requires forall i :: 0 <= i < |v1| ==> lo <= v1[i] <= hi
    requires forall i :: 0 <= i < |v2| ==> lo <= v2[i] <= hi
    ensures forall i :: 0 <= i < |r| ==> lo <= r[i] <= hi
  {
    CrossedEntries(v1, v2, r);
  }

  /** Crossing a vector with itself gives it back, wherever the cut falls. */
  lemma CrossedSelf(v: seq<int>, r: seq<int>)
    requires CrossedOf(v, v, r)
    ensures r == v
  {
    CrossedEntries(v, v, r);
  }

  // ---------------------------------------------------------------------
  // Mutation

  /** `v` with entry `i` shifted by `d`. */
  function Shifted(v: seq<int>, i: int, d: int): seq<int>
    requires 0 <= i < |v|
  {
    v[i := v[i] + d]
  }

  /**
   * `r` is `v` with one entry shifted by an offset in -2 .. 2 (an offset
   * of 0, or a skipped mutation, leaves `v` as it is).
   */
  predicate MutatedOf(v: seq<int>, r: seq<int>)
  {
    if v == [] then r == []
    else exists i, d :: 0 <= i < |v| && -2 <= d <= 2 && r == Shifted(v, i, d)
  }

  /**
   * `mutation(v)`: on a coin flip, or for an empty vector, `v` itself;
   * otherwise one entry drawn from 0 .. |v|-1 moves by an offset drawn
   * from -2 .. 2.
   */
  method Mutation(v: seq<int>) returns (r: seq<int>)
    ensures MutatedOf(v, r)
  {
    var skip := RandomBool();
    if skip || |v| == 0 {
      if v != [] {
        assert v == Shifted(v, 0, 0);
      }
      return v;
    }
    var at := RandomIndx(|v| - 1);
    var d := RandomInt(-2, 2);
    r := v[at := v[at] + d];
    assert r == Shifted(v, at, d);
  }

  /**
   * A mutation keeps the length, moves no entry by more than 2 and moves
   * at most one entry.
   */
  lemma MutationBounded(v: seq<int>, r: seq<int>)
    requires MutatedOf(v, r)
    ensures |r| == |v|
    ensures forall k :: 0 <= k < |v| ==> -2 <= r[k] - v[k] <= 2
    ensures forall j, k :: 0 <= j < |v| && 0 <= k < |v| && j != k && r[j] != v[j] ==> r[k] == v[k]
  {
    if v != [] {
      var i, d :| 0 <= i < |v| && -2 <= d <= 2 && r == Shifted(v, i, d);
      assert forall k :: 0 <= k < |v| ==> r[k] == if k == i then v[k] + d else v[k];
    }
  }

  /** A crossover followed by a mutation, as `cross_mut` treats each decision vector. */
  predicate CrossMutatedOf(v1: seq<int>, v2: seq<int>, r: seq<int>)
  {
    |v1| <= |v2| &&
    exists cut, i, d :: 0 <= cut < |v1| && 0 <= i < |v1| && -2 <= d <= 2 &&
      r == Shifted(CrossedAt(v1, v2, cut), i, d)
  }

  lemma CrossMutatedBySteps(v1: seq<int>, v2: seq<int>, c: seq<int>, r: seq<int>)
    requires 1 <= |v1| && CrossedOf(v1, v2, c) && MutatedOf(c, r)
    ensures CrossMutatedOf(v1, v2, r)
  {
    var cut :| 0 <= cut < |v1| && c == CrossedAt(v1, v2, cut);
    var i, d :| 0 <= i < |c| && -2 <= d <= 2 && r == Shifted(c, i, d);
    assert r == Shifted(CrossedAt(v1, v2, cut), i, d);
  }

  // ---------------------------------------------------------------------
  // Schedule crossover

  /** Every element `e < |procOf|` has a donor schedule `s[procOf[e]]`. */
  predicate Donates(s: seq<Sched>, procOf: seq<int>)
  {
    AllWellFormed(s) && forall e :: 0 <= e < |procOf| ==> 0 <= procOf[e] < |s|
  }

  /** Element `e` of every donor schedule list sits in its donor schedule. */
  predicate HoldsAll(s: seq<Sched>, procOf: seq<int>)
  {
    Donates(s, procOf) && forall e :: 0 <= e < |procOf| ==> e in s[procOf[e]].elements
  }

  /** Every element of `v` is below `n`. */
  predicate Within(v: Sched, n: int)
  {
    forall i :: 0 <= i < |v.elements| ==> 0 <= v.elements[i] < n
  }

  /** The cut the schedule crossover draws for `no_elems` elements. */
  predicate CutIn(noElems: int, cut: int)
  {
    if noElems >= 1 then 0 <= cut < noElems else cut == 0
  }

  /**
   * The rank element `e` receives: from its schedule in the first parent
   * when `e` is below the cut, otherwise from its schedule in the second;
   * a failure when `e` is not in that schedule.
   */
  function DonorRank(e: int, s1: seq<Sched>, map1: seq<int>, s2: seq<Sched>, map2: seq<int>, cut: int): Result<int>
    requires 0 <= e < |map1| && 0 <= e < |map2| && Donates(s1, map1) && Donates(s2, map2)
  {
    if e < cut then RankByElement(s1[map1[e]], e) else RankByElement(s2[map2[e]], e)
  }

  /** Every element of `v` finds its rank in its donor. */
  predicate SchedLookupsFrom(v: Sched, s1: seq<Sched>, map1: seq<int>, s2: seq<Sched>, map2: seq<int>, cut: int)
    requires Within(v, |map1|) && Within(v, |map2|) && Donates(s1, map1) && Donates(s2, map2)
  {
    forall i :: 0 <= i < |v.elements| ==> DonorRank(v.elements[i], s1, map1, s2, map2, cut).Success?
  }

  /** Every element of every schedule of `l` finds its rank in its donor. */
  predicate CrossLookups(l: seq<Sched>, s1: seq<Sched>, map1: seq<int>, s2: seq<Sched>, map2: seq<int>, cut: int)
    requires ElementsBelow(l, |map1|) && ElementsBelow(l, |map2|) && Donates(s1, map1) && Donates(s2, map2)
  {
    forall k :: 0 <= k < |l| ==> SchedLookupsFrom(l[k], s1, map1, s2, map2, cut)
  }

  /** `w` is `v` with new ranks and no rank twice. */
  predicate Reranked(v: Sched, w: Sched)
  {
    w.elements == v.elements && w.dummy == v.dummy && w.WellFormed() && Distinct(w.rank)
  }

  /**
   * The inner loop of the schedule crossover for one schedule: each
   * element in turn gets its donor's rank through `set_rank_by_element`,
   * which repairs duplicates after every change.
   */
  method CrossOne(v: Sched, s1: seq<Sched>, map1: seq<int>, s2: seq<Sched>, map2: seq<int>, cut: int)
    returns (res: Result<Sched>)
    requires v.WellFormed() && Within(v, |map1|) && Within(v, |map2|)
    requires Donates(s1, map1) && Donates(s2, map2)
    ensures res.Success? <==> SchedLookupsFrom(v, s1, map1, s2, map2, cut)
    ensures res.Success? ==> Reranked(v, res.value)
  {
    var s := new Schedule.Copy(v);
    var i := 0;
    while i < |v.elements|
      invariant 0 <= i <= |v.elements|
      invariant s.Valid() && s.elements == v.elements && s.dummy == v.dummy
      invariant i > 0 ==> Distinct(s.rank)
      invariant DonorsUpTo(v, s1, map1, s2, map2, cut, i)
    {
      var e := v.elements[i];
      var r := DonorRank(e, s1, map1, s2, map2, cut);
      if r.Failure? {
        return Failure(r.error);
      }
      var ok := s.SetRankByElement(e, r.value);
      i := i + 1;
    }
    DonorsUpToAll(v, s1, map1, s2, map2, cut, i);
    return Success(s.Value());
  }

  /** The first `i` elements of `v` find their ranks in their donors. */
  ghost predicate DonorsUpTo(v: Sched, s1: seq<Sched>, map1: seq<int>, s2: seq<Sched>, map2: seq<int>, cut: int, i: int)
    requires Within(v, |map1|) && Within(v, |map2|) && Donates(s1, map1) && Donates(s2, map2)
    requires 0 <= i <= |v.elements|
    decreases i
  {
    i == 0 ||
    (DonorsUpTo(v, s1, map1, s2, map2, cut, i - 1) && DonorRank(v.elements[i - 1], s1, map1, s2, map2, cut).Success?)
  }

  lemma {:induction false} DonorsUpToAll(v: Sched, s1: seq<Sched>, map1: seq<int>, s2: seq<Sched>, map2: seq<int>,
                                         cut: int, i: int)
    requires Within(v, |map1|) && Within(v, |map2|) && Donates(s1, map1) && Donates(s2, map2)
    requires 0 <= i <= |v.elements| && DonorsUpTo(v, s1, map1, s2, map2, cut, i)
    ensures forall j :: 0 <= j < i ==> DonorRank(v.elements[j], s1, map1, s2, map2, cut).Success?
  {
    if i > 0 {
      DonorsUpToAll(v, s1, map1, s2, map2, cut, i - 1);
      assert DonorRank(v.elements[i - 1], s1, map1, s2, map2, cut).Success?;
    }
  }

  /**
   * `crossover(new_s, s1, map1, s2, map2, no_elems)`: a cut drawn from
   * 0 .. no_elems-1, then every schedule of `new_s` reranked by CrossOne.
   * It fails (the source throws) exactly when some element is missing from
   * its donor schedule. With no elements the source's draw is undefined;
   * the model takes cut 0, which no element reads.
   */
  method CrossSchedules(newS: seq<Sched>, s1: seq<Sched>, map1: seq<int>, s2: seq<Sched>, map2: seq<int>,
                        noElems: int) returns (res: Result<seq<Sched>>)
    requires AllWellFormed(newS) && ElementsBelow(newS, |map1|) && ElementsBelow(newS, |map2|)
    requires Donates(s1, map1) && Donates(s2, map2)
    ensures exists cut :: CutIn(noElems, cut) && (res.Success? <==> CrossLookups(newS, s1, map1, s2, map2, cut))
    ensures res.Success? ==> |res.value| == |newS|
    ensures res.Success? ==> forall k :: 0 <= k < |newS| ==> Reranked(newS[k], res.value[k])
  {
    var cut := 0;
    if noElems >= 1 {
      cut := RandomIndx(noElems - 1);
    }
    assert CutIn(noElems, cut);
    var out: seq<Sched> := [];
    var proc := 0;
    while proc < |newS|
      invariant 0 <= proc <= |newS| && |out| == proc
      invariant forall k :: 0 <= k < proc ==> SchedLookupsFrom(newS[k], s1, map1, s2, map2, cut)
      invariant forall k :: 0 <= k < proc ==> Reranked(newS[k], out[k])
    {
      var crossed := CrossOne(newS[proc], s1, map1, s2, map2, cut);
      if crossed.Failure? {
        return Failure(crossed.error);
      }
      out := out + [crossed.value];
      proc := proc + 1;
    }
    return Success(out);
  }

  /** When every element sits in its donor schedule, the schedule crossover cannot fail. */
  lemma DonorsHoldElements(l: seq<Sched>, s1: seq<Sched>, map1: seq<int>, s2: seq<Sched>, map2: seq<int>, cut: int)
    requires ElementsBelow(l, |map1|) && ElementsBelow(l, |map2|)
    requires HoldsAll(s1, map1) && HoldsAll(s2, map2)
    ensures CrossLookups(l, s1, map1, s2, map2, cut)
  {
    forall k, i | 0 <= k < |l| && 0 <= i < |l[k].elements|
      ensures DonorRank(l[k].elements[i], s1, map1, s2, map2, cut).Success?
    {
      var e := l[k].elements[i];
      assert e in s1[map1[e]].elements && e in s2[map2[e]].elements;
    }
  }

  /**
   * Schedules holding, for each processor `q`, the indices that `procOf`
   * sends to `q`: every element sits in the schedule of its processor and
   * indexes `procOf`.
   */
  lemma HoldsIndices(l: seq<Sched>, procOf: seq<int>)
    requires forall e :: 0 <= e < |procOf| ==> 0 <= procOf[e] < |l|
    requires forall q :: 0 <= q < |l| ==> l[q].WellFormed() && l[q].elements == IndicesOf(procOf, q)
    ensures HoldsAll(l, procOf) && ElementsBelow(l, |procOf|)
  {
    forall e | 0 <= e < |procOf|
      ensures e in l[procOf[e]].elements
    {
      assert e in IndicesOf(procOf, procOf[e]);
    }
    forall q, i | 0 <= q < |l| && 0 <= i < |l[q].elements|
      ensures 0 <= l[q].elements[i] < |procOf|
    {
      assert l[q].elements[i] in IndicesOf(procOf, q);
    }
  }

  /** The layout of `build_schedules` puts every element in the schedule of its processor. */
  lemma LaidOut(env: Env, p: Position)
    requires env.Valid() && Mapped(env, p) && ScheduleSets(env, p)
    ensures HoldsAll(p.procSched, p.procMappings)
    ensures HoldsAll(p.sendSched, EndpointProcs(p.procMappings, env.source))
    ensures HoldsAll(p.recSched, EndpointProcs(p.procMappings, env.destination))
    ensures ElementsBelow(p.procSched, env.noActors)
    ensures ElementsBelow(p.sendSched, env.noChannels) && ElementsBelow(p.recSched, env.noChannels)
  {
    var m := p.procMappings;
    HoldsIndices(p.procSched, m);
    HoldsIndices(p.sendSched, EndpointProcs(m, env.source));
    HoldsIndices(p.recSched, EndpointProcs(m, env.destination));
  }

  // ---------------------------------------------------------------------
  // Combining the operators

  /** `mutation(crossover(v1, v2))`, as `cross_mut` treats each decision vector. */
  method CrossMutVector(v1: seq<int>, v2: seq<int>) returns (r: seq<int>)
    requires 1 <= |v1| <= |v2|
    ensures CrossMutatedOf(v1, v2, r)
  {
    var c := Crossover(v1, v2);
    r := Mutation(c);
    CrossMutatedBySteps(v1, v2, c, r);
  }

  /** A crossed and mutated vector is as long as the first parent. */
  lemma CrossMutatedLength(v1: seq<int>, v2: seq<int>, r: seq<int>)
    requires CrossMutatedOf(v1, v2, r)
    ensures |r| == |v1|
  {
    var cut, i, d :| 0 <= cut < |v1| && 0 <= i < |v1| && -2 <= d <= 2 &&
      r == Shifted(CrossedAt(v1, v2, cut), i, d);
  }

  /** The loops of `cross_mut` that gather each channel's source (destination) processor. */
  method EndpointMappings(m: seq<int>, ends: seq<int>) returns (r: seq<int>)
    requires forall i :: 0 <= i < |ends| ==> 0 <= ends[i] < |m|
    ensures r == EndpointProcs(m, ends)
  {
    r := seq(|ends|, _ => 0);
    var i := 0;
    while i < |ends|
      invariant 0 <= i <= |ends| && |r| == |ends|
      invariant forall k :: 0 <= k < i ==> r[k] == m[ends[k]]
    {
      r := r[i := m[ends[i]]];
      i := i + 1;
    }
  }

  /** Every schedule of `after` is its counterpart in `before`, reranked. */
  predicate RerankedAll(before: seq<Sched>, after: seq<Sched>)
  {
    |after| == |before| && forall k :: 0 <= k < |before| ==> Reranked(before[k], after[k])
  }

  /**
   * The three schedule crossovers of `crossover()` and `cross_mut`: the
   * schedules built for the new mapping take their ranks from the current
   * and the best position, each element from the schedule its parent
   * mapped it to. Both parents lay out their schedules as
   * `build_schedules` does, so no lookup fails.
   */
  method CrossAllSchedules(env: Env, b: Position, cur: Position, best: Position) returns (c: Position)
    requires env.Valid() && Mapped(env, b) && ScheduleSets(env, b)
    requires Encoded(env, cur) && Encoded(env, best)
    ensures c == b.(procSched := c.procSched, sendSched := c.sendSched, recSched := c.recSched)
    ensures RerankedAll(b.procSched, c.procSched)
    ensures RerankedAll(b.sendSched, c.sendSched)
    ensures RerankedAll(b.recSched, c.recSched)
  {
    LaidOut(env, b);
    LaidOut(env, cur);
    LaidOut(env, best);
    var curSrc := EndpointMappings(cur.procMappings, env.source);
    var bestSrc := EndpointMappings(best.procMappings, env.source);
    var curDst := EndpointMappings(cur.procMappings, env.destination);
    var bestDst := EndpointMappings(best.procMappings, env.destination);
    forall cut: int
      ensures CrossLookups(b.procSched, cur.procSched, cur.procMappings, best.procSched, best.procMappings, cut)
      ensures CrossLookups(b.sendSched, cur.sendSched, curSrc, best.sendSched, bestSrc, cut)
      ensures CrossLookups(b.recSched, cur.recSched, curDst, best.recSched, bestDst, cut)
    {
      DonorsHoldElements(b.procSched, cur.procSched, cur.procMappings, best.procSched, best.procMappings, cut);
      DonorsHoldElements(b.sendSched, cur.sendSched, curSrc, best.sendSched, bestSrc, cut);
      DonorsHoldElements(b.recSched, cur.recSched, curDst, best.recSched, bestDst, cut);
    }
    var ps := CrossSchedules(b.procSched, cur.procSched, cur.procMappings,
      best.procSched, best.procMappings, env.noActors);
    var ss := CrossSchedules(b.sendSched, cur.sendSched, curSrc, best.sendSched, bestSrc, env.noChannels);
    var rs := CrossSchedules(b.recSched, cur.recSched, curDst, best.recSched, bestDst, env.noChannels);
    c := b.(procSched := ps.value, sendSched := ss.value, recSched := rs.value);
  }

  /** `w` is `v` after `set_rank(mutation(get_rank()))`. */
  ghost predicate RankMutated(v: Sched, w: Sched)
  {
    w.elements == v.elements && w.dummy == v.dummy && w.WellFormed() &&
    exists r :: MutatedOf(v.rank, r) && RepairedFrom(r, w.rank)
  }

  /** Every schedule of `after` is its counterpart in `before` with mutated ranks. */
  ghost predicate RankMutatedAll(before: seq<Sched>, after: seq<Sched>)
  {
    |after| == |before| && forall k :: 0 <= k < |before| ==> RankMutated(before[k], after[k])
  }

  /** `set_rank(mutation(get_rank()))` on one schedule. */
  method MutateRanks(v: Sched) returns (w: Sched)
    requires v.WellFormed()
    ensures RankMutated(v, w)
  {
    var s := new Schedule.Copy(v);
    var r := Mutation(s.rank);
    MutationBounded(s.rank, r);
    var ok := s.SetRanks(r);
    w := s.Value();
  }

  /** The mutation loop of `cross_mut`: every schedule of every processor, in turn. */
  method MutateAllSchedules(c: Position) returns (d: Position)
    requires AllWellFormed(c.procSched) && AllWellFormed(c.sendSched) && AllWellFormed(c.recSched)
    requires |c.sendSched| == |c.procSched| && |c.recSched| == |c.procSched|
    ensures d == c.(procSched := d.procSched, sendSched := d.sendSched, recSched := d.recSched)
    ensures RankMutatedAll(c.procSched, d.procSched)
    ensures RankMutatedAll(c.sendSched, d.sendSched)
    ensures RankMutatedAll(c.recSched, d.recSched)
  {
    var ps: seq<Sched> := [];
    var ss: seq<Sched> := [];
    var rs: seq<Sched> := [];
    var proc := 0;
    while proc < |c.procSched|
      invariant 0 <= proc <= |c.procSched| && |ps| == proc && |ss| == proc && |rs| == proc
      invariant forall k :: 0 <= k < proc ==> RankMutated(c.procSched[k], ps[k])
      invariant forall k :: 0 <= k < proc ==> RankMutated(c.sendSched[k], ss[k])
      invariant forall k :: 0 <= k < proc ==> RankMutated(c.recSched[k], rs[k])
    {
      var a := MutateRanks(c.procSched[proc]);
      var s := MutateRanks(c.sendSched[proc]);
      var r := MutateRanks(c.recSched[proc]);
      ps, ss, rs := ps + [a], ss + [s], rs + [r];
      proc := proc + 1;
    }
    d := c.(procSched := ps, sendSched := ss, recSched := rs);
  }

  lemma RerankedSameSets(before: seq<Sched>, after: seq<Sched>)
    requires RerankedAll(before, after)
    ensures SameSets(before, after)
  {
  }

  lemma RankMutatedSameSets(before: seq<Sched>, after: seq<Sched>)
    requires RankMutatedAll(before, after)
    ensures SameSets(before, after)
  {
  }

  /** A position either parent of a crossover can be: encoded, one mode and one slot count per processor. */
  predicate Parent(env: Env, p: Position)
    requires env.Valid()
  {
    Encoded(env, p) && Decided(env, p)
  }

  /** One mapping per actor, one mode and one slot count per processor. */
  predicate Decided(env: Env, p: Position)
  {
    |p.procMappings| == env.noActors && |p.procModes| == env.noProcessors && |p.tdmaAlloc| == env.noProcessors
  }

  /** What `repair` makes of the decision vectors `m0`, `o0` and `t0`. */
  ghost predicate DecisionsRepaired(env: Env, m0: seq<int>, o0: seq<int>, t0: seq<int>, q: Position)
    requires env.Valid()
  {
    |m0| == env.noActors && q.procMappings == ClampAll(m0, 0, env.noProcessors - 1) &&
    |q.procModes| == |o0| &&
    (forall i :: 0 <= i < |o0| ==>
      q.procModes[i] == if i < env.noProcessors then BringToBound(o0[i], 0, env.modes[i] - 1) else o0[i]) &&
    TdmaRepaired(env, q.procMappings, t0, q.tdmaAlloc)
  }

  /** A new position (`Position(multi_obj, weights)`) with decisions and schedules filled in. */
  predicate Offspring(cur: Position, q: Position)
  {
    q == NewPosition(cur.multiObj, cur.weights).(procMappings := q.procMappings, procModes := q.procModes,
      tdmaAlloc := q.tdmaAlloc, procSched := q.procSched, sendSched := q.sendSched, recSched := q.recSched)
  }

  /** The position `crossover()` produces from `cur` and the guide `best`. */
  ghost predicate CrossedPosition(env: Env, cur: Position, best: Position, q: Position)
    requires env.Valid()
  {
    Offspring(cur, q) &&
    exists m0, o0, t0 ::
      CrossedOf(cur.procMappings, best.procMappings, m0) && CrossedOf(cur.procModes, best.procModes, o0) &&
      CrossedOf(cur.tdmaAlloc, best.tdmaAlloc, t0) && DecisionsRepaired(env, m0, o0, t0, q)
  }

  /** The position `cross_mut` produces from `cur` and the guide `best`. */
  ghost predicate CrossMutPosition(env: Env, cur: Position, best: Position, q: Position)
    requires env.Valid()
  {
    Offspring(cur, q) &&
    exists m0, o0, t0 ::
      CrossMutatedOf(cur.procMappings, best.procMappings, m0) && CrossMutatedOf(cur.procModes, best.procModes, o0) &&
      CrossMutatedOf(cur.tdmaAlloc, best.tdmaAlloc, t0) && DecisionsRepaired(env, m0, o0, t0, q)
  }

  /** Crossing two valid mappings puts every actor on a processor one of the parents chose. */
  lemma CrossedInherits(env: Env, cur: Position, best: Position, q: Position)
    requires env.Valid() && Mapped(env, cur) && Mapped(env, best)
    requires CrossedPosition(env, cur, best, q)
    ensures forall a :: 0 <= a < env.noActors ==>
      q.procMappings[a] == cur.procMappings[a] || q.procMappings[a] == best.procMappings[a]
  {
    var m0, o0, t0 :| CrossedOf(cur.procMappings, best.procMappings, m0) &&
      CrossedOf(cur.procModes, best.procModes, o0) &&
      CrossedOf(cur.tdmaAlloc, best.tdmaAlloc, t0) && DecisionsRepaired(env, m0, o0, t0, q);
    CrossedEntries(cur.procMappings, best.procMappings, m0);
  }

  /** Each entry of a crossed and mutated vector is at most 2 away from some parent's entry. */
  lemma CrossMutatedNear(v1: seq<int>, v2: seq<int>, r: seq<int>)
    requires CrossMutatedOf(v1, v2, r)
    ensures |r| == |v1|
    ensures forall a :: 0 <= a < |v1| ==> -2 <= r[a] - v1[a] <= 2 || -2 <= r[a] - v2[a] <= 2
  {
    var cut, i, d :| 0 <= cut < |v1| && 0 <= i < |v1| && -2 <= d <= 2 &&
      r == Shifted(CrossedAt(v1, v2, cut), i, d);
    assert forall a :: 0 <= a < |v1| ==> r[a] == (if a < cut then v1[a] else v2[a]) + (if a == i then d else 0);
  }

  /** Clamping into a range that holds `v` moves no value farther from `v`. */
  lemma ClampStaysNear(x: int, v: int, lo: int, hi: int)
    requires lo <= v <= hi && -2 <= x - v <= 2
    ensures -2 <= BringToBound(x, lo, hi) - v <= 2
  {
  }

  /**
   * After `cross_mut` every actor sits on a processor at most 2 away from
   * the one some parent chose.
   */
  lemma CrossMutStaysNear(env: Env, cur: Position, best: Position, q: Position)
    requires env.Valid() && Mapped(env, cur) && Mapped(env, best)
    requires CrossMutPosition(env, cur, best, q)
    ensures forall a :: 0 <= a < env.noActors ==>
      -2 <= q.procMappings[a] - cur.procMappings[a] <= 2 || -2 <= q.procMappings[a] - best.procMappings[a] <= 2
  {
    var m0, o0, t0 :| CrossMutatedOf(cur.procMappings, best.procMappings, m0) &&
      CrossMutatedOf(cur.procModes, best.procModes, o0) &&
      CrossMutatedOf(cur.tdmaAlloc, best.tdmaAlloc, t0) && DecisionsRepaired(env, m0, o0, t0, q);
    CrossMutatedNear(cur.procMappings, best.procMappings, m0);
    forall a | 0 <= a < env.noActors
      ensures -2 <= q.procMappings[a] - cur.procMappings[a] <= 2 || -2 <= q.procMappings[a] - best.procMappings[a] <= 2
    {
      if -2 <= m0[a] - cur.procMappings[a] <= 2 {
        ClampStaysNear(m0[a], cur.procMappings[a], 0, env.noProcessors - 1);
      } else {
        ClampStaysNear(m0[a], best.procMappings[a], 0, env.noProcessors - 1);
      }
    }
  }

  /** The repaired offspring of `cross_mut`, whatever its schedules, is a CrossMutPosition. */
  lemma BredPosition(env: Env, cur: Position, best: Position, p: Position, q1: Position, q2: Position)
    requires env.Valid() && |p.procMappings| == env.noActors
    requires p == NewPosition(cur.multiObj, cur.weights).(procMappings := p.procMappings,
      procModes := p.procModes, tdmaAlloc := p.tdmaAlloc)
    requires CrossMutatedOf(cur.procMappings, best.procMappings, p.procMappings)
    requires CrossMutatedOf(cur.procModes, best.procModes, p.procModes)
    requires CrossMutatedOf(cur.tdmaAlloc, best.tdmaAlloc, p.tdmaAlloc)
    requires Repaired(env, p, q1)
    requires q2 == q1.(procSched := q2.procSched, sendSched := q2.sendSched, recSched := q2.recSched)
    ensures CrossMutPosition(env, cur, best, q2)
    ensures |q2.procModes| == |p.procModes|
  {
    assert DecisionsRepaired(env, p.procMappings, p.procModes, p.tdmaAlloc, q2);
  }

  /** The three decision vectors of `cross_mut`, crossed and mutated, on a new position. */
  method CrossMutDecisions(env: Env, cur: Position, best: Position) returns (p: Position)
    requires env.Valid() && env.noProcessors >= 1 && env.noActors >= 1
    requires Decided(env, cur) && Decided(env, best)
    ensures p == NewPosition(cur.multiObj, cur.weights).(procMappings := p.procMappings,
      procModes := p.procModes, tdmaAlloc := p.tdmaAlloc)
    ensures CrossMutatedOf(cur.procMappings, best.procMappings, p.procMappings)
    ensures CrossMutatedOf(cur.procModes, best.procModes, p.procModes)
    ensures CrossMutatedOf(cur.tdmaAlloc, best.tdmaAlloc, p.tdmaAlloc)
    ensures Decided(env, p)
    ensures env.noProcessors <= env.noTdmaSlots ==>
      TdmaEnds(env, ClampAll(p.procMappings, 0, env.noProcessors - 1), p.tdmaAlloc)
  {
    var m0 := CrossMutVector(cur.procMappings, best.procMappings);
    var o0 := CrossMutVector(cur.procModes, best.procModes);
    var t0 := CrossMutVector(cur.tdmaAlloc, best.tdmaAlloc);
    CrossMutatedLength(cur.procMappings, best.procMappings, m0);
    CrossMutatedLength(cur.procModes, best.procModes, o0);
    CrossMutatedLength(cur.tdmaAlloc, best.tdmaAlloc, t0);
    p := NewPosition(cur.multiObj, cur.weights).(procMappings := m0, procModes := o0, tdmaAlloc := t0);
    if env.noProcessors <= env.noTdmaSlots {
      RoomForAll(env, ClampAll(m0, 0, env.noProcessors - 1), t0);
    }
  }

  /** The three decision vectors of `crossover()`, crossed, on a new position. */
  method CrossDecisions(env: Env, cur: Position, best: Position) returns (p: Position)
    requires env.Valid() && env.noProcessors >= 1 && env.noActors >= 1
    requires Parent(env, cur) && Parent(env, best)
    ensures p == NewPosition(cur.multiObj, cur.weights).(procMappings := p.procMappings,
      procModes := p.procModes, tdmaAlloc := p.tdmaAlloc)
    ensures CrossedOf(cur.procMappings, best.procMappings, p.procMappings)
    ensures CrossedOf(cur.procModes, best.procModes, p.procModes)
    ensures CrossedOf(cur.tdmaAlloc, best.tdmaAlloc, p.tdmaAlloc)
    ensures Decided(env, p) && Mapped(env, p)
    ensures env.noProcessors <= env.noTdmaSlots ==> TdmaEnds(env, p.procMappings, p.tdmaAlloc)
  {
    var m0 := Crossover(cur.procMappings, best.procMappings);
    var o0 := Crossover(cur.procModes, best.procModes);
    var t0 := Crossover(cur.tdmaAlloc, best.tdmaAlloc);
    CrossedWithin(cur.procMappings, best.procMappings, m0, 0, env.noProcessors - 1);
    CrossedEntries(cur.procModes, best.procModes, o0);
    CrossedEntries(cur.tdmaAlloc, best.tdmaAlloc, t0);
    p := NewPosition(cur.multiObj, cur.weights).(procMappings := m0, procModes := o0, tdmaAlloc := t0);
    if env.noProcessors <= env.noTdmaSlots {
      RoomForAll(env, m0, t0);
    }
  }

  /** The repaired offspring of `crossover()` is a CrossedPosition. */
  lemma CrossedPositionOf(env: Env, cur: Position, best: Position, p: Position, c: Position, q: Position)
    requires env.Valid() && Mapped(env, p)
    requires p == NewPosition(cur.multiObj, cur.weights).(procMappings := p.procMappings,
      procModes := p.procModes, tdmaAlloc := p.tdmaAlloc)
    requires CrossedOf(cur.procMappings, best.procMappings, p.procMappings)
    requires CrossedOf(cur.procModes, best.procModes, p.procModes)
    requires CrossedOf(cur.tdmaAlloc, best.tdmaAlloc, p.tdmaAlloc)
    requires c == p.(procSched := c.procSched, sendSched := c.sendSched, recSched := c.recSched)
    requires Repaired(env, c, q)
    ensures CrossedPosition(env, cur, best, q)
    ensures |q.procModes| == |p.procModes|
  {
    assert DecisionsRepaired(env, p.procMappings, p.procModes, p.tdmaAlloc, q);
  }

  // ---------------------------------------------------------------------
  // The chromosome

  /**
   * A chromosome is an individual of the genetic algorithm; it adds the
   * two breeding steps, both guided by the best position seen so far.
   */
  class Chromosome {
    const ind: Individual

    /** `Chromosome(mapping, applications, multi_obj, o_w, penalty)` over an individual made by Individual.Create. */
    constructor (i: Individual)
      ensures ind == i
    {
      ind := i;
    }

    /** The copy constructor: a copy of the individual. */
    constructor CopyOf(other: Chromosome)
      ensures fresh(ind)
      ensures ind.env == other.ind.env && ind.multiObj == other.ind.multiObj
      ensures ind.objWeights == other.ind.objWeights
      ensures ind.currentPosition == other.ind.currentPosition
      ensures ind.bestGlobalPosition == other.ind.bestGlobalPosition && ind.noInvalidMoves == 0
    {
      ind := new Individual.CopyOf(other.ind);
    }

    /** `update()`: one `cross_mut`. */
    method Update() returns (res: Result<()>)
      requires ind.Valid() && ind.env.noProcessors >= 1 && ind.env.noActors >= 1
      requires Parent(ind.env, ind.currentPosition)
      requires Empty(ind.bestGlobalPosition) || Parent(ind.env, ind.bestGlobalPosition)
      modifies ind
      ensures ind.bestGlobalPosition == old(ind.bestGlobalPosition) && ind.noInvalidMoves == old(ind.noInvalidMoves)
      ensures Empty(ind.bestGlobalPosition) ==> res.Failure?
      ensures !Empty(ind.bestGlobalPosition) && ind.env.noProcessors <= ind.env.noTdmaSlots ==> res.Success?
      ensures res.Failure? ==> ind.currentPosition == old(ind.currentPosition)
      ensures res.Success? ==> Parent(ind.env, ind.currentPosition)
      ensures res.Success? ==>
        CrossMutPosition(ind.env, old(ind.currentPosition), ind.bestGlobalPosition, ind.currentPosition)
    {
      res := CrossMut();
    }

    /**
     * `cross_mut()`: each decision vector crossed with the best position's
     * and mutated, repaired, schedules built and crossed, their ranks
     * mutated, repaired again. Without a best position it fails (the
     * source throws); it also fails when the TDMA repair would not end.
     * The second repair changes no decision: the first already left them
     * in range.
     */
    method CrossMut() returns (res: Result<()>)
      requires ind.Valid() && ind.env.noProcessors >= 1 && ind.env.noActors >= 1
      requires Parent(ind.env, ind.currentPosition)
      requires Empty(ind.bestGlobalPosition) || Parent(ind.env, ind.bestGlobalPosition)
      modifies ind
      ensures ind.bestGlobalPosition == old(ind.bestGlobalPosition) && ind.noInvalidMoves == old(ind.noInvalidMoves)
      ensures Empty(ind.bestGlobalPosition) ==> res.Failure?
      ensures !Empty(ind.bestGlobalPosition) && ind.env.noProcessors <= ind.env.noTdmaSlots ==> res.Success?
      ensures res.Failure? ==> ind.currentPosition == old(ind.currentPosition)
      ensures res.Success? ==> Parent(ind.env, ind.currentPosition)
      ensures res.Success? ==>
        CrossMutPosition(ind.env, old(ind.currentPosition), ind.bestGlobalPosition, ind.currentPosition)
    {
      var env := ind.env;
      var cur := ind.currentPosition;
      var best := ind.bestGlobalPosition;
      if Empty(best) {
        return Failure("best_global_position is empty!");
      }
      var bred := Bred(cur, best);
      if bred.Failure? {
        return Failure(bred.error);
      }
      ind.currentPosition := bred.value;
      return Success(());
    }

    /** `cross_mut` up to the assignment of the new position. */
    method Bred(cur: Position, best: Position) returns (res: Result<Position>)
      requires ind.Valid() && ind.env.noProcessors >= 1 && ind.env.noActors >= 1
      requires Parent(ind.env, cur) && Parent(ind.env, best)
      ensures ind.env.noProcessors <= ind.env.noTdmaSlots ==> res.Success?
      ensures res.Success? ==> Parent(ind.env, res.value) && CrossMutPosition(ind.env, cur, best, res.value)
    {
      var env := ind.env;
      var r1, p := BredDecisions(cur, best);
      if r1.Failure? {
        return Failure(r1.error);
      }
      var q1 := r1.value;
      var d := BredSchedules(q1, cur, best);
      var q2 := RepairBred(p, q1, d);
      BredPosition(env, cur, best, p, q1, q2);
      return Success(q2);
    }

    /**
     * The decision part of `cross_mut`: the three vectors crossed with the
     * best position's and mutated, on a new position, then repaired. `p`
     * is the position before the repair.
     */
    method BredDecisions(cur: Position, best: Position) returns (res: Result<Position>, ghost p: Position)
      requires ind.Valid() && ind.env.noProcessors >= 1 && ind.env.noActors >= 1
      requires Decided(ind.env, cur) && Decided(ind.env, best)
      ensures p == NewPosition(cur.multiObj, cur.weights).(procMappings := p.procMappings,
        procModes := p.procModes, tdmaAlloc := p.tdmaAlloc)
      ensures CrossMutatedOf(cur.procMappings, best.procMappings, p.procMappings)
      ensures CrossMutatedOf(cur.procModes, best.procModes, p.procModes)
      ensures CrossMutatedOf(cur.tdmaAlloc, best.tdmaAlloc, p.tdmaAlloc)
      ensures Decided(ind.env, p)
      ensures res.Success? ==>
        TdmaEnds(ind.env, ClampAll(p.procMappings, 0, ind.env.noProcessors - 1), p.tdmaAlloc)
      ensures ind.env.noProcessors <= ind.env.noTdmaSlots ==> res.Success?
      ensures res.Success? ==> Repaired(ind.env, p, res.value) && Mapped(ind.env, res.value)
    {
      var env := ind.env;
      var bred := CrossMutDecisions(env, cur, best);
      p := bred;
      res := ind.Repair(bred);
    }

    /**
     * The schedule part of `cross_mut`: schedules built for the repaired
     * mapping, crossed with both parents', their ranks mutated.
     */
    method BredSchedules(q1: Position, cur: Position, best: Position) returns (d: Position)
      requires ind.Valid() && Mapped(ind.env, q1) && Encoded(ind.env, cur) && Encoded(ind.env, best)
      ensures d == q1.(procSched := d.procSched, sendSched := d.sendSched, recSched := d.recSched)
      ensures Mapped(ind.env, d) && ScheduleSets(ind.env, d)
    {
      var env := ind.env;
      var b := ind.BuildSchedules(q1);
      var c := CrossAllSchedules(env, b, cur, best);
      var d0 := MutateAllSchedules(c);
      RerankedSameSets(b.procSched, c.procSched);
      RerankedSameSets(b.sendSched, c.sendSched);
      RerankedSameSets(b.recSched, c.recSched);
      RankMutatedSameSets(c.procSched, d0.procSched);
      RankMutatedSameSets(c.sendSched, d0.sendSched);
      RankMutatedSameSets(c.recSched, d0.recSched);
      SameSetsKeepFit(env, b, c);
      SameSetsKeepFit(env, c, d0);
      d := d0;
    }

    /**
     * The second `repair` of `cross_mut`: it cannot fail, and it changes
     * the schedules only.
     */
    method RepairBred(ghost p: Position, q1: Position, d: Position) returns (q2: Position)
      requires ind.Valid() && ind.env.noProcessors >= 1 && |p.procMappings| == ind.env.noActors
      requires |p.procModes| >= ind.env.noProcessors && |p.tdmaAlloc| >= ind.env.noProcessors
      requires TdmaEnds(ind.env, ClampAll(p.procMappings, 0, ind.env.noProcessors - 1), p.tdmaAlloc)
      requires Repaired(ind.env, p, q1)
      requires d == q1.(procSched := d.procSched, sendSched := d.sendSched, recSched := d.recSched)
      requires Mapped(ind.env, d) && ScheduleSets(ind.env, d)
      ensures q2 == q1.(procSched := q2.procSched, sendSched := q2.sendSched, recSched := q2.recSched)
      ensures Encoded(ind.env, q2)
    {
      var env := ind.env;
      RepairedStable(env, p, q1);
      assert ClampAll(d.procMappings, 0, env.noProcessors - 1) == q1.procMappings && d.tdmaAlloc == q1.tdmaAlloc;
      var r2 := ind.Repair(d);
      q2 := r2.value;
      RepairAgain(env, p, q1, d, q2);
    }

    /**
     * `crossover()`: each decision vector crossed with the best position's,
     * schedules built for the crossed mapping and crossed, then repaired.
     * Crossing two valid mappings needs no clamping, so the schedules match
     * the repaired mapping.
     */
    method CrossWithBest() returns (res: Result<()>)
      requires ind.Valid() && ind.env.noProcessors >= 1 && ind.env.noActors >= 1
      requires Parent(ind.env, ind.currentPosition)
      requires Empty(ind.bestGlobalPosition) || Parent(ind.env, ind.bestGlobalPosition)
      modifies ind
      ensures ind.bestGlobalPosition == old(ind.bestGlobalPosition) && ind.noInvalidMoves == old(ind.noInvalidMoves)
      ensures Empty(ind.bestGlobalPosition) ==> res.Failure?
      ensures !Empty(ind.bestGlobalPosition) && ind.env.noProcessors <= ind.env.noTdmaSlots ==> res.Success?
      ensures res.Failure? ==> ind.currentPosition == old(ind.currentPosition)
      ensures res.Success? ==> Parent(ind.env, ind.currentPosition)
      ensures res.Success? ==>
        CrossedPosition(ind.env, old(ind.currentPosition), ind.bestGlobalPosition, ind.currentPosition)
    {
      var env := ind.env;
      var cur := ind.currentPosition;
      var best := ind.bestGlobalPosition;
      if Empty(best) {
        return Failure("best_global_position is empty!");
      }
      var crossed := Crossed(cur, best);
      if crossed.Failure? {
        return Failure(crossed.error);
      }
      ind.currentPosition := crossed.value;
      return Success(());
    }

    /** `crossover()` up to the assignment of the new position. */
    method Crossed(cur: Position, best: Position) returns (res: Result<Position>)
      requires ind.Valid() && ind.env.noProcessors >= 1 && ind.env.noActors >= 1
      requires Parent(ind.env, cur) && Parent(ind.env, best)
      ensures ind.env.noProcessors <= ind.env.noTdmaSlots ==> res.Success?
      ensures res.Success? ==> Parent(ind.env, res.value) && CrossedPosition(ind.env, cur, best, res.value)
    {
      var env := ind.env;
      var p := CrossDecisions(env, cur, best);
      var b := ind.BuildSchedules(p);
      var c := CrossAllSchedules(env, b, cur, best);
      RerankedSameSets(b.procSched, c.procSched);
      RerankedSameSets(b.sendSched, c.sendSched);
      RerankedSameSets(b.recSched, c.recSched);
      SameSetsKeepFit(env, b, c);
      ClampMapped(env, c);
      var r := ind.Repair(c);
      if r.Failure? {
        return Failure(r.error);
      }
      CrossedPositionOf(env, cur, best, p, c, r.value);
      return Success(r.value);
    }
  }
}
