// The generational search shared by the genetic algorithm and the
// particle swarm (metaheuristic/population.cpp, ga_population.cpp,
// swarm.cpp). The worker threads of the source run one after another:
// a worker is the index of its chunk of the population.
module Populations {
  import opened Wrappers
  import opened MetaTools
  import opened Positions
  import opened Archive

  // ---------------------------------------------------------------------
  // Sizing and the static split of the population among the workers

  /** `no_objectives`: one objective per application plus two. */
  function NoObjectives(noApps: nat): (m: nat)
    ensures m >= 2
  {
    noApps + 2
  }

  /**
   * The chunk of worker `t` starts at `t * k` with `k = n / threads`
   * (`individual_per_thread`).
   */
  function ChunkStart(t: nat, n: nat, threads: nat): nat
    requires threads >= 1
  {
    t * (n / threads)
  }

  /** It ends `k` later, except the last worker's, which runs on to `n`. */
  function ChunkEnd(t: nat, n: nat, threads: nat): nat
    requires threads >= 1
  {
    if t == threads - 1 then n else t * (n / threads) + n / threads
  }

  /** The worker whose chunk holds individual `i`. */
  function ChunkOf(i: nat, n: nat, threads: nat): (t: nat)
    requires threads >= 1
    ensures t < threads
  {
    var k := n / threads;
    if k == 0 then threads - 1 else if i / k < threads - 1 then i / k else threads - 1
  }

  lemma MulMonotone(a: int, b: int, k: nat)
    requires a <= b
    ensures a * k <= b * k
  {
    assert b * k - a * k == (b - a) * k;
  }

  /** `t * k <= i` exactly when `t` does not exceed the quotient `i / k`. */
  lemma BelowIffQuotient(t: nat, i: nat, k: nat)
    requires k > 0
    ensures t * k <= i <==> t <= i / k
  {
    var q := i / k;
    assert q * k <= i < q * k + k;
    if t <= q {
      MulMonotone(t, q, k);
    } else {
      MulMonotone(q + 1, t, k);
      assert (q + 1) * k == q * k + k;
    }
  }

  /** Every chunk lies inside the population. */
  lemma ChunkBounds(t: nat, n: nat, threads: nat)
    requires threads >= 1 && t < threads
    ensures ChunkStart(t, n, threads) <= ChunkEnd(t, n, threads) <= n
  {
    var k := n / threads;
    assert threads * k <= n;
    MulMonotone(t, threads - 1, k);
    assert (threads - 1) * k + k == threads * k;
  }

  /**
   * The chunks partition the population: individual `i` lies in the
   * chunk of worker `t` exactly when `t` is ChunkOf(i), so each individual
   * is handled by one worker and by one only.
   */
  lemma {:induction false} ChunkOfExactly(i: nat, t: nat, n: nat, threads: nat)
    requires threads >= 1 && i < n && t < threads
    ensures ChunkStart(t, n, threads) <= i < ChunkEnd(t, n, threads) <==> t == ChunkOf(i, n, threads)
  {
    var k := n / threads;
    assert threads * k <= n < threads * k + threads;
    if k == 0 {
      if t < threads - 1 {
        assert ChunkEnd(t, n, threads) == 0;
      }
    } else {
      BelowIffQuotient(t, i, k);
      BelowIffQuotient(t + 1, i, k);
      assert (t + 1) * k == t * k + k;
      if t == threads - 1 {
        BelowIffQuotient(threads - 1, i, k);
      }
    }
  }

  // ---------------------------------------------------------------------
  // The pairs of parents of the genetic algorithm

  /** `(int) sqrt(n)`: the integer square root. */
  method ISqrt(n: nat) returns (r: nat)
    ensures r * r <= n < (r + 1) * (r + 1)
  {
    r := 0;
    while (r + 1) * (r + 1) <= n
      invariant r * r <= n
      decreases n - r * r
    {
      r := r + 1;
    }
  }

  /** Row `a` of the pairs: `(a, 0), …, (a, t - 1)`. */
  function Row(a: nat, t: nat): seq<(int, int)>
  {
    seq(t, b => (a, b))
  }

  /** Rows `0 … i - 1`, row after row. */
  function Rows(i: nat, t: nat): seq<(int, int)>
  {
    if i == 0 then [] else Rows(i - 1, t) + Row(i - 1, t)
  }

  /**
   * The first `i` rows hold `i * t` pairs: each `(a, b)` with `a < i` and
   * `b < t` exactly once, and nothing else.
   */
  lemma {:induction false} RowsContents(i: nat, t: nat)
    ensures |Rows(i, t)| == i * t
    ensures forall a: int, b: int :: (a, b) in Rows(i, t) <==> 0 <= a < i && 0 <= b < t
    ensures forall p, q :: 0 <= p < q < |Rows(i, t)| ==> Rows(i, t)[p] != Rows(i, t)[q]
  {
    if i > 0 {
      RowsContents(i - 1, t);
      var prev := Rows(i - 1, t);
      var row := Row(i - 1, t);
      assert Rows(i, t) == prev + row;
      assert (i - 1) * t + t == i * t;
      forall a: int, b: int
        ensures (a, b) in Rows(i, t) <==> 0 <= a < i && 0 <= b < t
      {
        if 0 <= a < i && 0 <= b < t && a == i - 1 {
          assert row[b] == (a, b);
        }
      }
      forall p, q | 0 <= p < q < |Rows(i, t)|
        ensures Rows(i, t)[p] != Rows(i, t)[q]
      {
        if p < |prev| && q >= |prev| {
          assert prev[p] in prev;
          assert Rows(i, t)[q] == row[q - |prev|];
        }
      }
    }
  }

  /**
   * The constructor of `GA_Population`: `thresh = sqrt(n) + 1` and every
   * pair `(i, j)` with both below `thresh`, row after row.
   */
  method PossibleParents(n: nat) returns (thresh: nat, pp: seq<(int, int)>)
    ensures thresh >= 1 && (thresh - 1) * (thresh - 1) <= n < thresh * thresh
    ensures pp == Rows(thresh, thresh)
  {
    var r := ISqrt(n);
    thresh := r + 1;
    pp := [];
    var i := 0;
    while i < thresh
      invariant 0 <= i <= thresh && pp == Rows(i, thresh)
    {
      var j := 0;
      while j < thresh
        invariant 0 <= j <= thresh && pp == Rows(i, thresh) + Row(i, thresh)[..j]
      {
        assert Row(i, thresh)[..j + 1] == Row(i, thresh)[..j] + [(i, j)];
        pp := pp + [(i, j)];
        j := j + 1;
      }
      assert Row(i, thresh)[..thresh] == Row(i, thresh);
      i := i + 1;
    }
  }

  /**
   * With at least two individuals `sqrt(n) + 1` does not exceed `n`, so
   * every parent index drawn from the pairs names an individual.
   */
  lemma ThreshWithin(n: nat, thresh: nat)
    requires n >= 2 && thresh >= 1 && (thresh - 1) * (thresh - 1) <= n
    ensures thresh <= n
  {
    var r := thresh - 1;
    if r >= 2 {
      MulMonotone(2, r, r);
    }
  }

  /**
   * The parent selection of `sort_population`: `n` times, draw one of the
   * pairs not drawn yet. Drawing from an empty pool is not defined in the
   * source, so it needs at least `n` pairs.
   */
  method SelectParents(pp: seq<(int, int)>, n: nat) returns (parents: seq<(int, int)>, picked: seq<nat>)
    requires n <= |pp|
    ensures |parents| == n && |picked| == n
    ensures forall i :: 0 <= i < n ==> picked[i] < |pp| && parents[i] == pp[picked[i]]
    ensures forall i, j :: 0 <= i < j < n ==> picked[i] != picked[j]
  {
    var all: seq<nat> := seq(|pp|, k => k);
    parents := [];
    picked := [];
    var i := 0;
    while i < n
      invariant 0 <= i <= n && |parents| == i && |picked| == i && |all| == |pp| - i
      invariant forall k :: 0 <= k < |all| ==> all[k] < |pp|
      invariant forall p, q :: 0 <= p < q < |all| ==> all[p] != all[q]
      invariant forall k :: 0 <= k < i ==> picked[k] < |pp| && parents[k] == pp[picked[k]]
      invariant forall p, q :: 0 <= p < q < i ==> picked[p] != picked[q]
      invariant forall k, x :: 0 <= k < i && 0 <= x < |all| ==> picked[k] != all[x]
    {
      var rand := RandomIndx(|all| - 1);
      var indx := all[rand];
      parents := parents + [pp[indx]];
      picked := picked + [indx];
      all := all[..rand] + all[rand + 1..];
      i := i + 1;
    }
  }

  // ---------------------------------------------------------------------
  // The population

  datatype Strategy = Genetic | Swarm

  /**
   * What the search asks of an individual (a chromosome or a particle):
   * its current position, `calc_fitness`, `set_best_global`,
   * `avoid_stagnation`, `update` and the copy constructor, each giving the
   * individual it leaves behind.
   */
  datatype Ops<!I> = Ops(
    current: I -> Position,
    evaluate: I -> I,
    setBest: (I, Position) -> I,
    avoidStagnation: I -> I,
    update: I -> I,
    copy: I -> I)

  /** Evaluating any individual leaves a position with `m` objectives. */
  ghost predicate EvaluatesTo<I(!new)>(ops: Ops<I>, m: nat)
  {
    forall x: I :: Evaluated(ops.current(ops.evaluate(x)), m)
  }

  /** The last snapshot pushed to the history is the long-term memory. */
  predicate LatestSnapshot(hist: seq<seq<Position>>, mem: seq<Position>)
  {
    if hist == [] then mem == [] else hist[|hist| - 1] == mem
  }

  /** The current position of every individual, in population order. */
  function PositionsOf<I>(ops: Ops<I>, pop: seq<I>): (ps: seq<Position>)
    ensures |ps| == |pop| && forall i :: 0 <= i < |pop| ==> ps[i] == ops.current(pop[i])
  {
    seq(|pop|, i requires 0 <= i < |pop| => ops.current(pop[i]))
  }

  predicate AllEvaluated(ps: seq<Position>, m: nat)
  {
    forall i :: 0 <= i < |ps| ==> Evaluated(ps[i], m)
  }

  /**
   * The Pareto front after `update_pareto` is called on each of the first
   * `k` positions of `ps` in turn; it stays evaluated and free of
   * dominance.
   */
  function FrontFold(front: seq<Position>, ps: seq<Position>, k: nat, m: nat): (r: seq<Position>)
    requires k <= |ps| && Members(front, m) && NonDominated(front, m) && AllEvaluated(ps, m)
    ensures Members(r, m) && NonDominated(r, m)
    decreases k, 1
  {
    if k == 0 then front else FrontStep(front, ps, k, m)
  }

  /** The `k`-th call of that sequence, on the front the first `k - 1` calls left. */
  function FrontStep(front: seq<Position>, ps: seq<Position>, k: nat, m: nat): (r: seq<Position>)
    requires 0 < k <= |ps| && Members(front, m) && NonDominated(front, m) && AllEvaluated(ps, m)
    ensures Members(r, m) && NonDominated(r, m)
    decreases k, 0
  {
    var f := FrontFold(front, ps, k - 1, m);
    var p := ps[k - 1];
    if FrontDominates(f, p) then f
    else UpdateKeepsNonDominated(f, p); UpdatedFront(f, p)
  }

  /** A position the front accepts is in the front after the call. */
  lemma FrontFoldKeepsLast(front: seq<Position>, ps: seq<Position>, k: nat, m: nat)
    requires 0 < k <= |ps| && Members(front, m) && NonDominated(front, m) && AllEvaluated(ps, m)
    requires !FrontDominates(FrontFold(front, ps, k - 1, m), ps[k - 1])
    ensures ps[k - 1] in FrontFold(front, ps, k, m)
  {
    var f := FrontFold(front, ps, k - 1, m);
    assert FrontFold(front, ps, k, m) == UpdatedFront(f, ps[k - 1]);
  }

  /** Some call of that sequence changed the front. */
  predicate FrontImproves(front: seq<Position>, ps: seq<Position>, k: nat, m: nat)
    requires k <= |ps| && Members(front, m) && NonDominated(front, m) && AllEvaluated(ps, m)
    decreases k, 1
  {
    k > 0 && FrontImprovesBy(front, ps, k, m)
  }

  /** The first `k - 1` calls changed the front, or the `k`-th did. */
  predicate FrontImprovesBy(front: seq<Position>, ps: seq<Position>, k: nat, m: nat)
    requires 0 < k <= |ps| && Members(front, m) && NonDominated(front, m) && AllEvaluated(ps, m)
    decreases k, 0
  {
    FrontImproves(front, ps, k - 1, m) || !FrontDominates(FrontFold(front, ps, k - 1, m), ps[k - 1])
  }

  /** A memory after `update_memory` is called on each of the first `k` positions of `ps` in turn. */
  function MemoryFold(mem: seq<Position>, ps: seq<Position>, k: nat, maxSize: nat, m: nat): (r: seq<Position>)
    requires k <= |ps| && Members(mem, m) && AllEvaluated(ps, m)
    ensures Members(r, m) && (|mem| <= maxSize ==> |r| <= maxSize)
    decreases k, 1
  {
    if k == 0 then mem else MemoryStep(mem, ps, k, maxSize, m)
  }

  /** The `k`-th call of that sequence, on the memory the first `k - 1` calls left. */
  function MemoryStep(mem: seq<Position>, ps: seq<Position>, k: nat, maxSize: nat, m: nat): (r: seq<Position>)
    requires 0 < k <= |ps| && Members(mem, m) && AllEvaluated(ps, m)
    ensures Members(r, m) && (|mem| <= maxSize ==> |r| <= maxSize)
    decreases k, 0
  {
    MemoryAfter(MemoryFold(mem, ps, k - 1, maxSize, m), ps[k - 1], maxSize)
  }

  /** Some call of that sequence was accepted. */
  predicate MemoryImproves(mem: seq<Position>, ps: seq<Position>, k: nat, maxSize: nat, m: nat)
    requires k <= |ps| && Members(mem, m) && AllEvaluated(ps, m)
    decreases k, 1
  {
    k > 0 && MemoryImprovesBy(mem, ps, k, maxSize, m)
  }

  /** The first `k - 1` calls were accepted at least once, or the `k`-th was. */
  predicate MemoryImprovesBy(mem: seq<Position>, ps: seq<Position>, k: nat, maxSize: nat, m: nat)
    requires 0 < k <= |ps| && Members(mem, m) && AllEvaluated(ps, m)
    decreases k, 0
  {
    MemoryImproves(mem, ps, k - 1, maxSize, m) ||
    MemoryAccepts(MemoryFold(mem, ps, k - 1, maxSize, m), ps[k - 1], maxSize)
  }

  /** The snapshots pushed to the history: the memory after every accepted call. */
  function HistoryFold(mem: seq<Position>, ps: seq<Position>, k: nat, maxSize: nat, m: nat): (h: seq<seq<Position>>)
    requires k <= |ps| && Members(mem, m) && AllEvaluated(ps, m)
    ensures h == [] <==> !MemoryImproves(mem, ps, k, maxSize, m)
    ensures h != [] ==> h[|h| - 1] == MemoryFold(mem, ps, k, maxSize, m)
    decreases k, 1
  {
    if k == 0 then [] else HistoryStep(mem, ps, k, maxSize, m)
  }

  /** The snapshots of the first `k - 1` calls, and one more if the `k`-th was accepted. */
  function HistoryStep(mem: seq<Position>, ps: seq<Position>, k: nat, maxSize: nat, m: nat): (h: seq<seq<Position>>)
    requires 0 < k <= |ps| && Members(mem, m) && AllEvaluated(ps, m)
    ensures h == [] <==> !MemoryImproves(mem, ps, k, maxSize, m)
    ensures h != [] ==> h[|h| - 1] == MemoryFold(mem, ps, k, maxSize, m)
    decreases k, 0
  {
    var prior := HistoryFold(mem, ps, k - 1, maxSize, m);
    if MemoryAccepts(MemoryFold(mem, ps, k - 1, maxSize, m), ps[k - 1], maxSize)
    then prior + [MemoryFold(mem, ps, k, maxSize, m)]
    else prior
  }

  /**
   * A sequence of updates none of which the front accepts leaves it as it
   * was; once one is accepted the front is never empty again.
   */
  lemma {:induction false} FrontFoldSteady(front: seq<Position>, ps: seq<Position>, k: nat, m: nat)
    requires k <= |ps| && Members(front, m) && NonDominated(front, m) && AllEvaluated(ps, m)
    ensures !FrontImproves(front, ps, k, m) ==> FrontFold(front, ps, k, m) == front
    ensures FrontImproves(front, ps, k, m) ==> FrontFold(front, ps, k, m) != []
  {
    if k > 0 {
      FrontFoldSteady(front, ps, k - 1, m);
      assert FrontFold(front, ps, k, m) == FrontStep(front, ps, k, m);
      assert FrontImproves(front, ps, k, m) == FrontImprovesBy(front, ps, k, m);
    }
  }

  /** The same for a memory. */
  lemma {:induction false} MemoryFoldSteady(mem: seq<Position>, ps: seq<Position>, k: nat, maxSize: nat, m: nat)
    requires k <= |ps| && Members(mem, m) && AllEvaluated(ps, m)
    ensures !MemoryImproves(mem, ps, k, maxSize, m) ==> MemoryFold(mem, ps, k, maxSize, m) == mem
    ensures MemoryImproves(mem, ps, k, maxSize, m) ==> MemoryFold(mem, ps, k, maxSize, m) != []
  {
    if k > 0 {
      MemoryFoldSteady(mem, ps, k - 1, maxSize, m);
      var prior := MemoryFold(mem, ps, k - 1, maxSize, m);
      var p := ps[k - 1];
      assert MemoryFold(mem, ps, k, maxSize, m) == MemoryAfter(prior, p, maxSize);
      assert MemoryImproves(mem, ps, k, maxSize, m) == MemoryImprovesBy(mem, ps, k, maxSize, m);
      if MemoryAccepts(prior, p, maxSize) && !(|prior| < maxSize && !Invalid(p)) {
        var i :| 0 <= i < |prior| && Dominates(p, prior[i]);
        var t := prior + [p];
        var w := WorstFrom(t, 0, 1, |p.weights|);
        assert |t[..w] + t[w + 1..]| == |prior|;
      }
    }
  }

  /** What the folds ask of their starting archives and positions. */
  predicate FoldReady(ps: seq<Position>, m: nat, front0: seq<Position>, short0: seq<Position>, long0: seq<Position>)
  {
    AllEvaluated(ps, m) && Members(front0, m) && NonDominated(front0, m) && Members(short0, m) && Members(long0, m)
  }

  /**
   * The archives after the archiving step has taken the first `k`
   * positions of `ps` in turn, starting from `front0`, `short0`, `long0`
   * and `hist0`.
   */
  predicate Archived(multiObj: bool, m: nat, shortMax: nat, longMax: nat, ps: seq<Position>, k: nat,
                     front0: seq<Position>, short0: seq<Position>, long0: seq<Position>, hist0: seq<seq<Position>>,
                     front: seq<Position>, short: seq<Position>, long: seq<Position>, hist: seq<seq<Position>>,
                     improved: bool)
    requires k <= |ps| && FoldReady(ps, m, front0, short0, long0)
  {
    short == MemoryFold(short0, ps, k, shortMax, m) &&
    (multiObj ==>
      front == FrontFold(front0, ps, k, m) && improved == FrontImproves(front0, ps, k, m) &&
      long == long0 && hist == hist0) &&
    (!multiObj ==>
      front == front0 &&
      long == MemoryFold(long0, ps, k, longMax, m) &&
      hist == hist0 + HistoryFold(long0, ps, k, longMax, m) &&
      improved == MemoryImproves(long0, ps, k, longMax, m))
  }

  /** Before any position is archived the archives are the starting ones. */
  lemma ArchivedStart(multiObj: bool, m: nat, shortMax: nat, longMax: nat, ps: seq<Position>,
                      front0: seq<Position>, short0: seq<Position>, long0: seq<Position>, hist0: seq<seq<Position>>)
    requires FoldReady(ps, m, front0, short0, long0)
    ensures Archived(multiObj, m, shortMax, longMax, ps, 0, front0, short0, long0, hist0,
                     front0, short0, long0, hist0, false)
  {
    assert hist0 + [] == hist0;
  }

  /** Archiving one more position `ps[k]` as ArchivePosition does extends Archived by it. */
  lemma ArchivedStep(multiObj: bool, m: nat, shortMax: nat, longMax: nat, ps: seq<Position>, k: nat,
                     front0: seq<Position>, short0: seq<Position>, long0: seq<Position>, hist0: seq<seq<Position>>,
                     front: seq<Position>, short: seq<Position>, long: seq<Position>, hist: seq<seq<Position>>,
                     improved: bool,
                     front': seq<Position>, short': seq<Position>, long': seq<Position>, hist': seq<seq<Position>>,
                     accepted: bool)
    requires k < |ps| && FoldReady(ps, m, front0, short0, long0)
    requires Archived(multiObj, m, shortMax, longMax, ps, k, front0, short0, long0, hist0,
                      front, short, long, hist, improved)
    requires short' == MemoryAfter(short, ps[k], shortMax)
    requires multiObj ==>
      accepted == !FrontDominates(front, ps[k]) &&
      front' == (if accepted then UpdatedFront(front, ps[k]) else front) && long' == long && hist' == hist
    requires !multiObj ==>
      accepted == MemoryAccepts(long, ps[k], longMax) && long' == MemoryAfter(long, ps[k], longMax) &&
      hist' == hist + (if accepted then [long'] else []) && front' == front
    ensures Archived(multiObj, m, shortMax, longMax, ps, k + 1, front0, short0, long0, hist0,
                     front', short', long', hist', improved || accepted)
  {
  }

  class Population<I(0,!new)> {
    const strategy: Strategy
    const ops: Ops<I>
    const multiObj: bool
    const noObjectives: nat
    const particlesPerObjective: nat
    const noIndividuals: nat
    const noGenerations: nat
    const noThreads: nat
    const individualPerThread: nat
    const parF: ParetoFront
    const shortTermMemory: Memory
    const longTermMemory: Memory
    /** `thresh` and `possible_parents` of the genetic algorithm. */
    const parentThresh: nat
    const possibleParents: seq<(int, int)>
    var population: seq<I>
    var memoryHist: seq<seq<Position>>
    var stagnation: bool
    var noReinits: int
    var currentGeneration: int
    var lastUpdate: int
    var lastReinit: int
    var parents: seq<(int, int)>
    var oldPopulation: seq<I>
    var nextPopulation: seq<I>
    var oppositionSet: seq<I>
    /** The objective each particle was created for. */
    var objectives: seq<nat>

    /**
     * The archives hold evaluated positions, the Pareto front has no
     * dominated member, the memories stay within their size, the history's
     * last snapshot is the long-term memory, and a population of the
     * wrong size only exists before the first initialisation (when both
     * archives are still empty).
     */
    ghost predicate Valid()
      reads this, parF, shortTermMemory, longTermMemory
    {
      Configured() && ArchivesValid() &&
      (|population| == noIndividuals || (parF.pareto == [] && longTermMemory.mem == []))
    }

    /** The sizes, the objectives and the genetic algorithm's pairs of parents. */
    ghost predicate Configured()
      reads this`population, this`nextPopulation
    {
      noThreads >= 1 && individualPerThread == noIndividuals / noThreads &&
      noObjectives >= 2 && noIndividuals == noObjectives * particlesPerObjective &&
      EvaluatesTo(ops, noObjectives) &&
      (strategy == Genetic ==>
        |nextPopulation| == |population| &&
        possibleParents == Rows(parentThresh, parentThresh) &&
        parentThresh >= 1 && (parentThresh - 1) * (parentThresh - 1) <= noIndividuals &&
        noIndividuals < parentThresh * parentThresh)
    }

    /**
     * The archives hold evaluated positions within their sizes, the Pareto
     * front has no dominated member, and the history's last snapshot is
     * the long-term memory.
     */
    ghost predicate ArchivesValid()
      reads this`memoryHist, parF, shortTermMemory, longTermMemory
    {
      shortTermMemory != longTermMemory &&
      Members(parF.pareto, noObjectives) && NonDominated(parF.pareto, noObjectives) &&
      Members(shortTermMemory.mem, noObjectives) && |shortTermMemory.mem| <= shortTermMemory.maxSize &&
      Members(longTermMemory.mem, noObjectives) && |longTermMemory.mem| <= longTermMemory.maxSize &&
      (multiObj ==> longTermMemory.mem == [] && memoryHist == []) &&
      (!multiObj ==> parF.pareto == [] && LatestSnapshot(memoryHist, longTermMemory.mem))
    }

    /** Every drawn pair of parents names two individuals. */
    predicate ParentsReady()
      reads this
    {
      |parents| == noIndividuals &&
      forall i :: 0 <= i < |parents| ==>
        0 <= parents[i].0 < noIndividuals && 0 <= parents[i].1 < noIndividuals
    }

    /**
     * The constructors of `Population`, `GA_Population` and `Swarm`:
     * `noApps + 2` objectives, `particlePerObj` individuals per objective,
     * `threads` workers (`hardware_concurrency`) sharing them, no
     * reinitialisation yet; the genetic algorithm also builds its pairs of
     * parents.
     */
    constructor (kind: Strategy, o: Ops<I>, noApps: nat, particlePerObj: nat, generations: nat,
                 threads: nat, multi: bool)
      requires threads >= 1
      requires EvaluatesTo(o, NoObjectives(noApps))
      ensures Valid() && fresh(parF) && fresh(shortTermMemory) && fresh(longTermMemory)
      ensures strategy == kind && ops == o && multiObj == multi
      ensures noObjectives == noApps + 2 && noIndividuals == noObjectives * particlePerObj
      ensures noGenerations == generations && noThreads == threads
      ensures individualPerThread == noIndividuals / noThreads
      ensures noReinits == 0 && !stagnation
      ensures currentGeneration == 0 && lastUpdate == 0 && lastReinit == 0
      ensures population == [] && memoryHist == [] && parents == []
      ensures parF.pareto == [] && shortTermMemory.mem == [] && longTermMemory.mem == []
      ensures shortTermMemory.maxSize == 1 && longTermMemory.maxSize == 1
      ensures kind == Genetic ==> noIndividuals < |possibleParents|
    {
      strategy := kind;
      ops := o;
      multiObj := multi;
      var n := (noApps + 2) * particlePerObj;
      particlesPerObjective := particlePerObj;
      noObjectives := noApps + 2;
      noIndividuals := n;
      noGenerations := generations;
      noThreads := threads;
      individualPerThread := n / threads;
      parF := new ParetoFront();
      shortTermMemory := new Memory();
      longTermMemory := new Memory();
      var thresh := 1;
      var pp := [(0, 0)];
      if kind == Genetic {
        thresh, pp := PossibleParents(n);
        RowsContents(thresh, thresh);
      }
      parentThresh := thresh;
      possibleParents := pp;
      population := [];
      memoryHist := [];
      stagnation := false;
      noReinits := 0;
      currentGeneration := 0;
      lastUpdate := 0;
      lastReinit := 0;
      parents := [];
      oldPopulation := [];
      nextPopulation := [];
      oppositionSet := [];
      objectives := [];
    }

    /**
     * `calc_fitness(t)`: worker `t` evaluates the individuals of its
     * chunk and leaves every other one as it was.
     */
    method CalcFitness(t: nat)
      requires Valid() && t < noThreads && |population| == noIndividuals
      modifies this`population
      ensures Valid() && |population| == noIndividuals
      ensures forall i :: 0 <= i < noIndividuals ==>
        population[i] == if ChunkOf(i, noIndividuals, noThreads) == t
                         then ops.evaluate(old(population)[i]) else old(population)[i]
    {
      ChunkBounds(t, noIndividuals, noThreads);
      var startId := t * individualPerThread;
      var endId := startId + individualPerThread;
      if t == noThreads - 1 {
        endId := noIndividuals;
      }
      var i := startId;
      while i < endId
        invariant startId <= i <= endId && |population| == noIndividuals
        invariant forall j :: 0 <= j < noIndividuals ==>
          population[j] == if startId <= j < i then ops.evaluate(old(population)[j]) else old(population)[j]
      {
        population := population[i := ops.evaluate(population[i])];
        i := i + 1;
      }
      forall j | 0 <= j < noIndividuals
        ensures startId <= j < endId <==> ChunkOf(j, noIndividuals, noThreads) == t
      {
        ChunkOfExactly(j, t, noIndividuals, noThreads);
      }
    }

    /**
     * One position of the archiving step: it goes to the short-term memory
     * and to the Pareto front (multi-objective mode) or the long-term
     * memory, whose acceptance pushes a snapshot to the history.
     * `accepted` says whether the second archive took it.
     */
    method ArchivePosition(pos: Position) returns (accepted: bool)
      requires ArchivesValid() && Evaluated(pos, noObjectives)
      modifies this`memoryHist, parF, shortTermMemory, longTermMemory
      ensures ArchivesValid()
      ensures shortTermMemory.mem == MemoryAfter(old(shortTermMemory.mem), pos, shortTermMemory.maxSize)
      ensures multiObj ==>
        accepted == !FrontDominates(old(parF.pareto), pos) &&
        parF.pareto == (if accepted then UpdatedFront(old(parF.pareto), pos) else old(parF.pareto)) &&
        longTermMemory.mem == old(longTermMemory.mem) && memoryHist == old(memoryHist)
      ensures !multiObj ==>
        accepted == MemoryAccepts(old(longTermMemory.mem), pos, longTermMemory.maxSize) &&
        longTermMemory.mem == MemoryAfter(old(longTermMemory.mem), pos, longTermMemory.maxSize) &&
        memoryHist == old(memoryHist) + (if accepted then [longTermMemory.mem] else []) &&
        parF.pareto == old(parF.pareto)
      ensures accepted ==> parF.pareto != [] || longTermMemory.mem != []
    {
      var _ := shortTermMemory.UpdateMemory(pos);
      if multiObj {
        ghost var front := parF.pareto;
        accepted := parF.UpdatePareto(pos);
        if accepted {
          UpdateKeepsNonDominated(front, pos);
        }
      } else {
        accepted := longTermMemory.UpdateMemory(pos);
        if accepted {
          memoryHist := memoryHist + [longTermMemory.mem];
        }
      }
    }

    /**
     * Archives the position of individual `p` after the first `p` have
     * been archived, from the archives `front0`, `short0`, `long0` and
     * `hist0`.
     */
    method ArchiveNext(p: nat, ghost ps: seq<Position>, ghost front0: seq<Position>, ghost short0: seq<Position>,
                       ghost long0: seq<Position>, ghost hist0: seq<seq<Position>>, ghost improved: bool)
      returns (accepted: bool)
      requires p < |population| && ps == PositionsOf(ops, population) && ArchivesValid()
      requires FoldReady(ps, noObjectives, front0, short0, long0)
      requires Archived(multiObj, noObjectives, shortTermMemory.maxSize, longTermMemory.maxSize, ps, p,
                        front0, short0, long0, hist0,
                        parF.pareto, shortTermMemory.mem, longTermMemory.mem, memoryHist, improved)
      modifies this`memoryHist, parF, shortTermMemory, longTermMemory
      ensures ArchivesValid()
      ensures Archived(multiObj, noObjectives, shortTermMemory.maxSize, longTermMemory.maxSize, ps, p + 1,
                       front0, short0, long0, hist0,
                       parF.pareto, shortTermMemory.mem, longTermMemory.mem, memoryHist, improved || accepted)
    {
      var pos := ops.current(population[p]);
      ghost var front, short, long, hist := parF.pareto, shortTermMemory.mem, longTermMemory.mem, memoryHist;
      accepted := ArchivePosition(pos);
      ArchivedStep(multiObj, noObjectives, shortTermMemory.maxSize, longTermMemory.maxSize, ps, p,
                   front0, short0, long0, hist0, front, short, long, hist, improved,
                   parF.pareto, shortTermMemory.mem, longTermMemory.mem, memoryHist, accepted);
    }

    /**
     * The loop of the archiving step: every current position, in
     * population order, goes through ArchivePosition; `improved` says
     * whether the front or the long-term memory accepted any of them.
     */
    method ArchivePositions() returns (improved: bool)
      requires Valid() && |population| == noIndividuals
      requires AllEvaluated(PositionsOf(ops, population), noObjectives)
      modifies this`memoryHist, parF, shortTermMemory, longTermMemory
      ensures Valid()
      ensures FoldReady(PositionsOf(ops, population), noObjectives,
                        old(parF.pareto), old(shortTermMemory.mem), old(longTermMemory.mem))
      ensures Archived(multiObj, noObjectives, shortTermMemory.maxSize, longTermMemory.maxSize,
                       PositionsOf(ops, population), |population|,
                       old(parF.pareto), old(shortTermMemory.mem), old(longTermMemory.mem), old(memoryHist),
                       parF.pareto, shortTermMemory.mem, longTermMemory.mem, memoryHist, improved)
    {
      improved := false;
      ghost var ps := PositionsOf(ops, population);
      ghost var front0, short0, long0, hist0 := parF.pareto, shortTermMemory.mem, longTermMemory.mem, memoryHist;
      assert FoldReady(ps, noObjectives, front0, short0, long0);
      ArchivedStart(multiObj, noObjectives, shortTermMemory.maxSize, longTermMemory.maxSize, ps,
                    front0, short0, long0, hist0);
      var p := 0;
      while p < |population|
        invariant 0 <= p <= |population| && ArchivesValid()
        invariant FoldReady(ps, noObjectives, front0, short0, long0)
        invariant Archived(multiObj, noObjectives, shortTermMemory.maxSize, longTermMemory.maxSize, ps, p,
                           front0, short0, long0, hist0,
                           parF.pareto, shortTermMemory.mem, longTermMemory.mem, memoryHist, improved)
      {
        var u := ArchiveNext(p, ps, front0, short0, long0, hist0, improved);
        improved := improved || u;
        p := p + 1;
      }
    }

    /**
     * The archiving step of one generation `g` of `search`: every current
     * position goes to the short-term memory and, in multi-objective mode,
     * to the Pareto front, otherwise to the long-term memory, whose every
     * change is pushed to the history. The generation of the last
     * improvement becomes `g` exactly when an archive changed.
     */
    method ArchiveGeneration(g: nat, lastImprovement: nat) returns (lastImprovement': nat, ghost improved: bool)
      requires Valid() && |population| == noIndividuals
      requires forall i :: 0 <= i < |population| ==> Evaluated(ops.current(population[i]), noObjectives)
      modifies this`memoryHist, parF, shortTermMemory, longTermMemory
      ensures Valid()
      ensures lastImprovement' == if improved then g else lastImprovement
      ensures !improved ==> parF.pareto == old(parF.pareto) && longTermMemory.mem == old(longTermMemory.mem)
      ensures !improved ==> memoryHist == old(memoryHist)
      ensures !multiObj ==> |memoryHist| >= |old(memoryHist)| && memoryHist[..|old(memoryHist)|] == old(memoryHist)
      ensures improved && noIndividuals > 0 ==> parF.pareto != [] || longTermMemory.mem != []
      ensures var ps := PositionsOf(ops, population);
        shortTermMemory.mem == MemoryFold(old(shortTermMemory.mem), ps, |ps|, shortTermMemory.maxSize, noObjectives)
      ensures var ps := PositionsOf(ops, population);
        multiObj ==> parF.pareto == FrontFold(old(parF.pareto), ps, |ps|, noObjectives) &&
                     improved == FrontImproves(old(parF.pareto), ps, |ps|, noObjectives)
      ensures var ps := PositionsOf(ops, population);
        !multiObj ==>
          longTermMemory.mem == MemoryFold(old(longTermMemory.mem), ps, |ps|, longTermMemory.maxSize, noObjectives) &&
          memoryHist == old(memoryHist) + HistoryFold(old(longTermMemory.mem), ps, |ps|, longTermMemory.maxSize, noObjectives) &&
          improved == MemoryImproves(old(longTermMemory.mem), ps, |ps|, longTermMemory.maxSize, noObjectives)
    {
      ghost var ps := PositionsOf(ops, population);
      assert AllEvaluated(ps, noObjectives);
      var u := ArchivePositions();
      improved := u;
      lastImprovement' := if u then g else lastImprovement;
      FrontFoldSteady(old(parF.pareto), ps, |ps|, noObjectives);
      MemoryFoldSteady(old(longTermMemory.mem), ps, |ps|, longTermMemory.maxSize, noObjectives);
    }

    /**
     * `GA_Population::init()`: one more reinitialisation, recorded at the
     * current generation; `noIndividuals` new chromosomes, each placed in
     * the population, the old and the next population alike.
     */
    method GaInit()
      requires Valid() && strategy == Genetic
      modifies this
      ensures Valid() && |population| == noIndividuals
      ensures noReinits == old(noReinits) + 1 && lastReinit == currentGeneration
      ensures oldPopulation == population && nextPopulation == population
      ensures currentGeneration == old(currentGeneration) && lastUpdate == old(lastUpdate)
      ensures parents == old(parents) && memoryHist == old(memoryHist) && stagnation == old(stagnation)
    {
      var fresh_: seq<I> := [];
      var i := 0;
      while i < noIndividuals
        invariant 0 <= i <= noIndividuals && |fresh_| == i
      {
        var c: I := *;
        fresh_ := fresh_ + [c];
        i := i + 1;
      }
      noReinits := noReinits + 1;
      lastReinit := currentGeneration;
      population := fresh_;
      oldPopulation := fresh_;
      nextPopulation := fresh_;
    }

    /**
     * `Swarm::init()`: one more reinitialisation, recorded at the current
     * generation; particle `i` is made for objective `i % noObjectives` and
     * also placed in the opposition set.
     */
    method SwarmInit()
      requires Valid() && strategy == Swarm
      modifies this
      ensures Valid() && |population| == noIndividuals
      ensures noReinits == old(noReinits) + 1 && lastReinit == currentGeneration
      ensures oppositionSet == population && |objectives| == noIndividuals
      ensures forall i :: 0 <= i < noIndividuals ==> objectives[i] == i % noObjectives
      ensures currentGeneration == old(currentGeneration) && lastUpdate == old(lastUpdate)
      ensures parents == old(parents) && memoryHist == old(memoryHist) && stagnation == old(stagnation)
    {
      var particles: seq<I> := [];
      var objs: seq<nat> := [];
      var i := 0;
      while i < noIndividuals
        invariant 0 <= i <= noIndividuals && |particles| == i && |objs| == i
        invariant forall k :: 0 <= k < i ==> objs[k] == k % noObjectives
      {
        var p: I := *;
        particles := particles + [p];
        objs := objs + [i % noObjectives];
        i := i + 1;
      }
      noReinits := noReinits + 1;
      lastReinit := currentGeneration;
      population := particles;
      oppositionSet := particles;
      objectives := objs;
    }

    /** `init()`, dispatched on the strategy. */
    method Init()
      requires Valid()
      modifies this
      ensures Valid() && |population| == noIndividuals
      ensures noReinits == old(noReinits) + 1 && lastReinit == currentGeneration
      ensures currentGeneration == old(currentGeneration) && lastUpdate == old(lastUpdate)
      ensures parents == old(parents) && memoryHist == old(memoryHist) && stagnation == old(stagnation)
    {
      if strategy == Genetic {
        GaInit();
      } else {
        SwarmInit();
      }
    }

    /**
     * The child the genetic algorithm breeds for slot `i`: a copy of the
     * first parent, guided by the second parent's current position, then
     * crossed and mutated.
     */
    function Offspring(i: nat): I
      reads this
      requires ParentsReady() && |population| == noIndividuals && i < noIndividuals
    {
      var a := parents[i].0;
      var b := parents[i].1;
      ops.update(ops.setBest(ops.copy(population[a]), ops.current(population[b])))
    }

    /**
     * `GA_Population::update(t)`: worker `t` fills its chunk of the next
     * population with offspring; the population itself is untouched.
     */
    method GaUpdate(t: nat)
      requires Valid() && strategy == Genetic && ParentsReady()
      requires t < noThreads && |population| == noIndividuals
      modifies this`nextPopulation
      ensures Valid() && |nextPopulation| == noIndividuals
      ensures forall i :: 0 <= i < noIndividuals ==>
        nextPopulation[i] == if ChunkOf(i, noIndividuals, noThreads) == t
                             then Offspring(i) else old(nextPopulation)[i]
    {
      ChunkBounds(t, noIndividuals, noThreads);
      var startId := t * individualPerThread;
      var endId := startId + individualPerThread;
      if t == noThreads - 1 {
        endId := noIndividuals;
      }
      var i := startId;
      while i < endId
        invariant startId <= i <= endId && |nextPopulation| == noIndividuals
        invariant forall j :: 0 <= j < noIndividuals ==>
          nextPopulation[j] == if startId <= j < i then Offspring(j) else old(nextPopulation)[j]
      {
        var parent1 := ops.copy(population[parents[i].0]);
        var parent2 := population[parents[i].1];
        parent1 := ops.setBest(parent1, ops.current(parent2));
        parent1 := ops.update(parent1);
        nextPopulation := nextPopulation[i := parent1];
        i := i + 1;
      }
      forall j | 0 <= j < noIndividuals
        ensures startId <= j < endId <==> ChunkOf(j, noIndividuals, noThreads) == t
      {
        ChunkOfExactly(j, t, noIndividuals, noThreads);
      }
    }

    /** The guides of the swarm: the Pareto front, or the short-term memory. */
    function Guides(): seq<Position>
      reads this, parF, shortTermMemory
    {
      if multiObj then parF.pareto else shortTermMemory.mem
    }

    /** A particle moved toward `guide`, escaping stagnation first when flagged. */
    function Guided(x: I, guide: Position): I
      reads this
    {
      var b := ops.setBest(x, guide);
      ops.update(if stagnation then ops.avoidStagnation(b) else b)
    }

    /** `y` is `x` moved toward some guide, or `x` itself when there is none. */
    ghost predicate Moved(x: I, y: I)
      reads this, parF, shortTermMemory
    {
      if Guides() == [] then y == x
      else exists k :: 0 <= k < |Guides()| && y == Guided(x, Guides()[k])
    }

    /**
     * `Swarm::update(t)`: each particle of worker `t`'s chunk takes some
     * guide as its best global position and moves; with no guide it stays.
     * Particles of other chunks are untouched.
     */
    method SwarmUpdate(t: nat)
      requires Valid() && strategy == Swarm && t < noThreads && |population| == noIndividuals
      modifies this`population
      ensures Valid() && |population| == noIndividuals
      ensures forall i :: 0 <= i < noIndividuals && ChunkOf(i, noIndividuals, noThreads) != t ==>
        population[i] == old(population)[i]
      ensures forall i :: 0 <= i < noIndividuals && ChunkOf(i, noIndividuals, noThreads) == t ==>
        Moved(old(population)[i], population[i])
    {
      ChunkBounds(t, noIndividuals, noThreads);
      var startId := t * individualPerThread;
      var endId := startId + individualPerThread;
      if t == noThreads - 1 {
        endId := noIndividuals;
      }
      var i := startId;
      while i < endId
        invariant startId <= i <= endId && |population| == noIndividuals
        invariant forall j :: 0 <= j < noIndividuals && !(startId <= j < i) ==>
          population[j] == old(population)[j]
        invariant forall j :: startId <= j < i ==>
          Moved(old(population)[j], population[j])
      {
        if multiObj && parF.pareto != [] {
          var parIndx := RandomIndx(|parF.pareto| - 1);
          var x := ops.setBest(population[i], parF.pareto[parIndx]);
          if stagnation {
            x := ops.avoidStagnation(x);
          }
          population := population[i := ops.update(x)];
          assert population[i] == Guided(old(population)[i], Guides()[parIndx]);
        }
        if !multiObj && shortTermMemory.mem != [] {
          var memIndx := RandomIndx(|shortTermMemory.mem| - 1);
          var x := ops.setBest(population[i], shortTermMemory.mem[memIndx]);
          if stagnation {
            x := ops.avoidStagnation(x);
          }
          population := population[i := ops.update(x)];
          assert population[i] == Guided(old(population)[i], Guides()[memIndx]);
        }
        i := i + 1;
      }
      forall j | 0 <= j < noIndividuals
        ensures startId <= j < endId <==> ChunkOf(j, noIndividuals, noThreads) == t
      {
        ChunkOfExactly(j, t, noIndividuals, noThreads);
      }
    }

    /** `update(t)`, dispatched on the strategy. */
    method Update(t: nat)
      requires Valid() && t < noThreads && |population| == noIndividuals
      requires strategy == Genetic ==> ParentsReady()
      modifies this`population, this`nextPopulation
      ensures Valid() && |population| == noIndividuals
      ensures strategy == Genetic ==> population == old(population) && |nextPopulation| == noIndividuals
      ensures strategy == Genetic ==> forall i :: 0 <= i < noIndividuals ==>
        nextPopulation[i] == if ChunkOf(i, noIndividuals, noThreads) == t then Offspring(i) else old(nextPopulation)[i]
      ensures strategy == Swarm ==> forall i :: 0 <= i < noIndividuals ==>
        if ChunkOf(i, noIndividuals, noThreads) == t then Moved(old(population)[i], population[i])
        else population[i] == old(population)[i]
    {
      if strategy == Genetic {
        GaUpdate(t);
      } else {
        SwarmUpdate(t);
      }
    }

    /**
     * The fitness phase of `search`: every worker runs `calc_fitness` on
     * its chunk, so every individual is evaluated exactly once.
     */
    method EvaluateAll()
      requires Valid() && |population| == noIndividuals
      modifies this`population
      ensures Valid() && |population| == noIndividuals
      ensures forall i :: 0 <= i < noIndividuals ==> population[i] == ops.evaluate(old(population)[i])
    {
      var t := 0;
      while t < noThreads
        invariant 0 <= t <= noThreads && Valid() && |population| == noIndividuals
        invariant forall i :: 0 <= i < noIndividuals ==>
          population[i] == if ChunkOf(i, noIndividuals, noThreads) < t
                           then ops.evaluate(old(population)[i]) else old(population)[i]
      {
        CalcFitness(t);
        t := t + 1;
      }
    }

    /**
     * The update phase of `search`: every worker runs `update` on its
     * chunk. The genetic algorithm fills the whole next population with
     * offspring; every particle of the swarm moves once.
     */
    method UpdateAll()
      requires Valid() && |population| == noIndividuals
      requires strategy == Genetic ==> ParentsReady()
      modifies this`population, this`nextPopulation
      ensures Valid() && |population| == noIndividuals
      ensures strategy == Genetic ==> population == old(population)
      ensures strategy == Genetic ==> |nextPopulation| == noIndividuals
      ensures strategy == Genetic ==> forall i :: 0 <= i < noIndividuals ==> nextPopulation[i] == Offspring(i)
      ensures strategy == Swarm ==> forall i :: 0 <= i < noIndividuals ==>
        Moved(old(population)[i], population[i])
    {
      var t := 0;
      while t < noThreads
        invariant 0 <= t <= noThreads && Valid() && |population| == noIndividuals
        invariant strategy == Genetic ==> population == old(population) && |nextPopulation| == noIndividuals
        invariant strategy == Genetic ==> forall i :: 0 <= i < noIndividuals && ChunkOf(i, noIndividuals, noThreads) < t ==>
          nextPopulation[i] == Offspring(i)
        invariant strategy == Swarm ==> forall i :: 0 <= i < noIndividuals ==>
          if ChunkOf(i, noIndividuals, noThreads) < t then Moved(old(population)[i], population[i])
          else population[i] == old(population)[i]
      {
        Update(t);
        t := t + 1;
      }
    }

    /**
     * `termination()` of both strategies: the generation counter moves on
     * by one, and the search stops once it is more than `noGenerations`
     * past the last update.
     */
    method Termination() returns (stop: bool)
      modifies this`currentGeneration
      ensures currentGeneration == old(currentGeneration) + 1
      ensures stop <==> currentGeneration - lastUpdate > noGenerations
    {
      currentGeneration := currentGeneration + 1;
      stop := currentGeneration - lastUpdate > noGenerations;
    }

    /** `new_population()`: the next population replaces the current one. */
    method NewPopulation()
      requires Valid() && strategy == Genetic
      modifies this`population
      ensures population == old(nextPopulation) && Valid()
    {
      population := nextPopulation;
    }

    /**
     * The parent selection of `sort_population()`: `noIndividuals`
     * distinct pairs drawn from the possible parents, each naming two
     * individuals.
     */
    method SortPopulation()
      requires Valid() && strategy == Genetic
      modifies this`parents
      ensures Valid() && ParentsReady()
      ensures forall i :: 0 <= i < |parents| ==> parents[i] in possibleParents
      ensures forall i, j :: 0 <= i < j < |parents| ==> parents[i] != parents[j]
    {
      RowsContents(parentThresh, parentThresh);
      assert noIndividuals < parentThresh * parentThresh;
      var picked;
      parents, picked := SelectParents(possibleParents, noIndividuals);
      if noIndividuals > 0 {
        MulMonotone(1, particlesPerObjective, noObjectives);
        ThreshWithin(noIndividuals, parentThresh);
      }
      forall i | 0 <= i < |parents|
        ensures parents[i] in possibleParents
      {
        assert possibleParents[picked[i]] in possibleParents;
      }
      forall i | 0 <= i < |parents|
        ensures 0 <= parents[i].0 < noIndividuals && 0 <= parents[i].1 < noIndividuals
      {
        var a, b := parents[i].0, parents[i].1;
        assert possibleParents[picked[i]] == (a, b);
        assert (a, b) in Rows(parentThresh, parentThresh);
      }
    }

    /**
     * The start of a generation: a converged population is
     * re-initialised and the short-term memory cleared; a population
     * whose archives are both empty (before the first generation) is
     * initialised.
     */
    method Restart(converged: bool)
      requires Valid()
      modifies this, shortTermMemory
      ensures Valid() && |population| == noIndividuals
      ensures currentGeneration == old(currentGeneration) && lastUpdate == old(lastUpdate)
      ensures shortTermMemory.mem == if converged then [] else old(shortTermMemory.mem)
      ensures noReinits == old(noReinits) + (if converged then 1 else 0) +
                           (if parF.pareto == [] && longTermMemory.mem == [] then 1 else 0)
    {
      if converged {
        Init();
        shortTermMemory.mem := [];
      }
      if parF.IsEmpty() && longTermMemory.IsEmpty() {
        Init();
      }
    }

    /**
     * The update step of a generation, with the genetic algorithm's parent
     * selection before it and the replacement of the population by the
     * offspring after it: every individual of the next genetic population
     * is bred from the freshly drawn parents; every particle moves once.
     */
    method Breed()
      requires Valid() && |population| == noIndividuals
      modifies this`parents, this`population, this`nextPopulation
      ensures Valid() && |population| == noIndividuals
      ensures strategy == Genetic ==>
        ParentsReady() && population == nextPopulation &&
        forall i :: 0 <= i < noIndividuals ==>
          population[i] == ops.update(ops.setBest(ops.copy(old(population)[parents[i].0]),
                                                  ops.current(old(population)[parents[i].1])))
      ensures strategy == Swarm ==> forall i :: 0 <= i < noIndividuals ==>
        Moved(old(population)[i], population[i])
    {
      if strategy == Genetic {
        SortPopulation();
      }
      UpdateAll();
      if strategy == Genetic {
        NewPopulation();
      }
    }

    /**
     * The search as written never calls `sort_population`: a genetic
     * population keeps the empty `parents` its constructor leaves (Init,
     * EvaluateAll and ArchiveGeneration do not touch them), so the first
     * update step reads `parents[i]` past the end for every individual `i`.
     */
    lemma EmptyParentsOutOfRange(i: nat)
      requires strategy == Genetic && parents == [] && i < noIndividuals
      ensures !ParentsReady() && i >= |parents|
    {
    }

    /**
     * The second half of a generation: archive the evaluated population,
     * then run the update step while `g` is within `noGenerations` of the
     * last improvement.
     */
    method Advance(g: nat, lastImprovement: nat) returns (lastImprovement': nat)
      requires Valid() && |population| == noIndividuals
      requires forall i :: 0 <= i < |population| ==> Evaluated(ops.current(population[i]), noObjectives)
      modifies this`memoryHist, this`parents, this`population, this`nextPopulation,
               parF, shortTermMemory, longTermMemory
      ensures Valid() && |population| == noIndividuals
      ensures strategy == Genetic && g + 1 - lastImprovement' < noGenerations ==>
        ParentsReady() && population == nextPopulation
      ensures lastImprovement' == g || lastImprovement' == lastImprovement
      ensures noIndividuals > 0 ==> parF.pareto != [] || longTermMemory.mem != [] || lastImprovement' == lastImprovement
    {
      ghost var improved;
      lastImprovement', improved := ArchiveGeneration(g, lastImprovement);
      if g + 1 - lastImprovement' < noGenerations {
        Breed();
      }
    }

    /**
     * One pass of the loop of `search()` for generation `g`: re-initialise
     * on convergence (also clearing the short-term memory) and whenever
     * both archives are empty, evaluate the population, archive it, and
     * update it while `g` is within `noGenerations` of the last
     * improvement. `converged` is the answer of `is_converged()`.
     * For the genetic algorithm the update step is the corrected one: it
     * draws the parents (`sort_population`) before breeding and installs
     * the offspring (`new_population`) after it, neither of which the code
     * as written ever calls (see EmptyParentsOutOfRange).
     */
    method Generation(g: nat, lastImprovement: nat, converged: bool) returns (lastImprovement': nat)
      requires Valid()
      modifies this, parF, shortTermMemory, longTermMemory
      ensures Valid() && |population| == noIndividuals
      ensures strategy == Genetic && g + 1 - lastImprovement' < noGenerations ==>
        ParentsReady() && population == nextPopulation
      ensures currentGeneration == old(currentGeneration) && lastUpdate == old(lastUpdate)
      ensures lastImprovement' == g || lastImprovement' == lastImprovement
      ensures noIndividuals > 0 ==> parF.pareto != [] || longTermMemory.mem != [] || lastImprovement' == lastImprovement
    {
      Restart(converged);
      EvaluateAll();
      lastImprovement' := Advance(g, lastImprovement);
    }

    /**
     * `search()`. The improvement found by archiving is recorded in a
     * local variable only, while `termination()` reads the member
     * `lastUpdate`, which the search never changes: so the run lasts
     * exactly until the generation counter passes
     * `lastUpdate + noGenerations`, however the archives evolve.
     * `converged(g, population)` plays `is_converged()`.
     */
    method Search(converged: (nat, seq<I>) -> bool) returns (generations: nat, lastImprovement: nat)
      requires Valid()
      modifies this, parF, shortTermMemory, longTermMemory
      ensures Valid()
      ensures lastUpdate == old(lastUpdate)
      ensures generations == if old(currentGeneration) + 1 > lastUpdate + noGenerations then 0
                             else lastUpdate + noGenerations - old(currentGeneration)
      ensures currentGeneration == old(currentGeneration) + generations + 1
      ensures lastImprovement <= generations && (generations > 0 ==> lastImprovement < generations)
    {
      var g: nat := 0;
      lastImprovement := 0;
      var stop := Termination();
      while !stop
        invariant Valid()
        invariant lastUpdate == old(lastUpdate)
        invariant currentGeneration == old(currentGeneration) + g + 1
        invariant stop <==> currentGeneration - lastUpdate > noGenerations
        invariant g > 0 ==> currentGeneration - lastUpdate <= noGenerations + 1
        invariant lastImprovement <= g && (g > 0 ==> lastImprovement < g)
        decreases lastUpdate + noGenerations - currentGeneration
      {
        lastImprovement := Generation(g, lastImprovement, converged(g, population));
        g := g + 1;
        stop := Termination();
      }
      generations := g;
    }
  }
}
