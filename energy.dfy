// calc_energy (system/design.cpp): each processor's utilization is the
// rounded-up share of its period its actors' WCETs take, scaled by the
// platform's maximum utilization; the energy weighs each processor's
// utilization by the power of its mode.
module Energy {
  import opened DesignData
  import opened MetaTools

  /** The WCETs of the actors below `n` mapped to processor `q` (`sum_wcet_proc[q]`). */
  function SumWcet(pm: seq<int>, wcet: seq<int>, n: nat, q: int): int
    requires n <= |pm| && n <= |wcet|
  {
    if n == 0 then 0 else SumWcet(pm, wcet, n - 1, q) + (if pm[n - 1] == q then wcet[n - 1] else 0)
  }

  /**
   * `proc_periods[q]` after the actors below `n`: the period of the
   * application of the highest-numbered of them on `q`, 0 when there is none.
   */
  function ProcPeriod(pm: seq<int>, apps: seq<int>, periods: seq<int>, n: nat, q: int): int
    requires n <= |pm| && n <= |apps| && forall i :: 0 <= i < n ==> 0 <= apps[i] < |periods|
  {
    if n == 0 then 0
    else if pm[n - 1] == q then periods[apps[n - 1]]
    else ProcPeriod(pm, apps, periods, n - 1, q)
  }

  /** `utilizations[q]`: `ceil(max_utilization * sum / period)` for a positive period, 0 otherwise. */
  function Utilization(maxUtil: real, sum: int, period: int): (u: int)
    ensures period > 0 ==> maxUtil * sum as real / period as real <= u as real
    ensures period > 0 ==> (u as real) < maxUtil * sum as real / period as real + 1.0
    ensures period <= 0 ==> u == 0
  {
    if period > 0 then Ceil(Share(maxUtil, sum, period)) else 0
  }

  /** The scaled share of the period the WCETs take. */
  function Share(maxUtil: real, sum: int, period: int): real
    requires period > 0
  {
    maxUtil * sum as real / period as real
  }

  /** What a design's calc_energy reads. */
  predicate EnergyInput(p: Problem, pm: seq<int>, modes: seq<int>, wcet: seq<int>, periods: seq<int>)
  {
    |pm| == |p.graphOf| && |wcet| == |pm| && |modes| == p.noProcessors &&
    (forall i :: 0 <= i < |pm| ==> 0 <= pm[i] < p.noProcessors) &&
    (forall i :: 0 <= i < |pm| ==> 0 <= p.graphOf[i] < |periods|)
  }

  /** Processor `q`'s utilization. */
  function ProcUtilization(p: Problem, pm: seq<int>, wcet: seq<int>, periods: seq<int>, q: int): int
    requires |pm| == |p.graphOf| && |wcet| == |pm| && forall i :: 0 <= i < |pm| ==> 0 <= p.graphOf[i] < |periods|
  {
    Utilization(p.maxUtilization, SumWcet(pm, wcet, |pm|, q), ProcPeriod(pm, p.graphOf, periods, |pm|, q))
  }

  /** The energy of the processors below `n`: utilization times the power of the processor's mode. */
  function EnergyUpTo(p: Problem, pm: seq<int>, modes: seq<int>, wcet: seq<int>, periods: seq<int>, n: nat): int
    requires EnergyInput(p, pm, modes, wcet, periods) && n <= p.noProcessors
  {
    if n == 0 then 0
    else
      EnergyUpTo(p, pm, modes, wcet, periods, n - 1) +
        ProcUtilization(p, pm, wcet, periods, n - 1) * p.power(n - 1, modes[n - 1])
  }

  // ---------------------------------------------------------------------
  // The loops of calc_energy

  /** calc_energy's first loop: the WCETs summed per processor. */
  method SumWcetLoop(p: Problem, pm: seq<int>, wcet: seq<int>) returns (sums: seq<int>)
    requires |wcet| == |pm| && forall i :: 0 <= i < |pm| ==> 0 <= pm[i] < p.noProcessors
    ensures |sums| == p.noProcessors && forall q :: 0 <= q < p.noProcessors ==> sums[q] == SumWcet(pm, wcet, |pm|, q)
  {
    sums := seq(p.noProcessors, _ => 0);
    for i := 0 to |pm|
      invariant |sums| == p.noProcessors && forall q :: 0 <= q < p.noProcessors ==> sums[q] == SumWcet(pm, wcet, i, q)
    {
      var procId := pm[i];
      sums := sums[procId := sums[procId] + wcet[i]];
    }
  }

  /** calc_energy's second loop: each processor takes the period of its actors' applications, the last actor's winning. */
  method ProcPeriodLoop(p: Problem, pm: seq<int>, periods: seq<int>) returns (procPeriods: seq<int>)
    requires |pm| == |p.graphOf| && forall i :: 0 <= i < |pm| ==> 0 <= pm[i] < p.noProcessors
    requires forall i :: 0 <= i < |pm| ==> 0 <= p.graphOf[i] < |periods|
    ensures |procPeriods| == p.noProcessors
    ensures forall q :: 0 <= q < p.noProcessors ==> procPeriods[q] == ProcPeriod(pm, p.graphOf, periods, |pm|, q)
  {
    procPeriods := seq(p.noProcessors, _ => 0);
    for i := 0 to |pm|
      invariant |procPeriods| == p.noProcessors
      invariant forall q :: 0 <= q < p.noProcessors ==> procPeriods[q] == ProcPeriod(pm, p.graphOf, periods, i, q)
    {
      procPeriods := procPeriods[pm[i] := periods[p.graphOf[i]]];
    }
  }

  /**
   * calc_energy: the utilization of every processor and the energy, the
   * sum of each utilization times the power of the processor's mode.
   */
  method CalcEnergy(p: Problem, pm: seq<int>, modes: seq<int>, wcet: seq<int>, periods: seq<int>)
    returns (energy: int, utilizations: seq<int>)
    requires EnergyInput(p, pm, modes, wcet, periods)
    ensures |utilizations| == p.noProcessors
    ensures forall q :: 0 <= q < p.noProcessors ==> utilizations[q] == ProcUtilization(p, pm, wcet, periods, q)
    ensures energy == EnergyUpTo(p, pm, modes, wcet, periods, p.noProcessors)
  {
    var sums := SumWcetLoop(p, pm, wcet);
    utilizations := seq(p.noProcessors, _ => 0);
    energy := 0;
    var procPeriods := ProcPeriodLoop(p, pm, periods);
    for i := 0 to p.noProcessors
      invariant |utilizations| == p.noProcessors
      invariant forall q :: 0 <= q < i ==> utilizations[q] == ProcUtilization(p, pm, wcet, periods, q)
      invariant forall q :: i <= q < p.noProcessors ==> utilizations[q] == 0
      invariant energy == EnergyUpTo(p, pm, modes, wcet, periods, i)
    {
      if procPeriods[i] > 0 {
        utilizations := utilizations[i := Ceil(Share(p.maxUtilization, sums[i], procPeriods[i]))];
      }
      energy := energy + utilizations[i] * p.power(i, modes[i]);
    }
  }

  // ---------------------------------------------------------------------
  // Properties

  /** A processor without actors sums no WCET and has no period. */
  lemma {:induction false} NoActorsNothing(pm: seq<int>, apps: seq<int>, wcet: seq<int>, periods: seq<int>, n: nat, q: int)
    requires n <= |pm| && n <= |apps| && n <= |wcet| && forall i :: 0 <= i < n ==> 0 <= apps[i] < |periods|
    requires forall i :: 0 <= i < n ==> pm[i] != q
    ensures SumWcet(pm, wcet, n, q) == 0 && ProcPeriod(pm, apps, periods, n, q) == 0
  {
    if n > 0 {
      NoActorsNothing(pm, apps, wcet, periods, n - 1, q);
    }
  }

  /** A processor with no actors contributes nothing to the energy. */
  lemma NoActorsNoEnergy(p: Problem, pm: seq<int>, modes: seq<int>, wcet: seq<int>, periods: seq<int>, q: nat)
    requires EnergyInput(p, pm, modes, wcet, periods) && q < p.noProcessors
    requires forall i :: 0 <= i < |pm| ==> pm[i] != q
    ensures ProcUtilization(p, pm, wcet, periods, q) == 0
    ensures EnergyUpTo(p, pm, modes, wcet, periods, q + 1) == EnergyUpTo(p, pm, modes, wcet, periods, q)
  {
    NoActorsNothing(pm, p.graphOf, wcet, periods, |pm|, q);
  }

  /**
   * The period a processor takes is that of the application of its
   * highest-numbered actor.
   */
  lemma {:induction false} ProcPeriodIsLast(pm: seq<int>, apps: seq<int>, periods: seq<int>, n: nat, q: int, i: nat)
    requires n <= |pm| && n <= |apps| && forall j :: 0 <= j < n ==> 0 <= apps[j] < |periods|
    requires i < n && pm[i] == q && forall j :: i < j < n ==> pm[j] != q
    ensures ProcPeriod(pm, apps, periods, n, q) == periods[apps[i]]
  {
    if i < n - 1 {
      ProcPeriodIsLast(pm, apps, periods, n - 1, q, i);
    }
  }

  /**
   * The actors on `q` and those elsewhere share the total WCET, so with
   * non-negative WCETs a processor's sum lies between 0 and the total.
   */
  lemma {:induction false} SumWcetBounds(pm: seq<int>, wcet: seq<int>, n: nat, q: int)
    requires n <= |pm| && n <= |wcet| && forall i :: 0 <= i < n ==> wcet[i] >= 0
    ensures SumWcet(pm, wcet, n, q) + SumOthers(pm, wcet, n, q) == Total(wcet, n)
    ensures 0 <= SumWcet(pm, wcet, n, q) <= Total(wcet, n)
  {
    if n > 0 {
      SumWcetBounds(pm, wcet, n - 1, q);
    }
  }

  /** The WCETs of the actors below `n` not on `q`. */
  function SumOthers(pm: seq<int>, wcet: seq<int>, n: nat, q: int): int
    requires n <= |pm| && n <= |wcet|
  {
    if n == 0 then 0 else SumOthers(pm, wcet, n - 1, q) + (if pm[n - 1] != q then wcet[n - 1] else 0)
  }

  /** The WCETs of the actors below `n`. */
  function Total(wcet: seq<int>, n: nat): int
    requires n <= |wcet|
  {
    if n == 0 then 0 else Total(wcet, n - 1) + wcet[n - 1]
  }

  /**
   * With non-negative WCETs, utilization bound and powers, every
   * processor's utilization and the energy are non-negative.
   */
  lemma {:induction false} EnergyNonNegative(p: Problem, pm: seq<int>, modes: seq<int>, wcet: seq<int>, periods: seq<int>, n: nat)
    requires EnergyInput(p, pm, modes, wcet, periods) && n <= p.noProcessors
    requires p.maxUtilization >= 0.0 && forall i :: 0 <= i < |wcet| ==> wcet[i] >= 0
    requires forall q :: 0 <= q < n ==> p.power(q, modes[q]) >= 0
    ensures EnergyUpTo(p, pm, modes, wcet, periods, n) >= 0
  {
    if n > 0 {
      EnergyNonNegative(p, pm, modes, wcet, periods, n - 1);
      var q := n - 1;
      SumWcetBounds(pm, wcet, |pm|, q);
      var sum := SumWcet(pm, wcet, |pm|, q);
      var period := ProcPeriod(pm, p.graphOf, periods, |pm|, q);
      if period > 0 {
        assert p.maxUtilization * sum as real >= 0.0;
        assert p.maxUtilization * sum as real / period as real >= 0.0;
      }
      assert ProcUtilization(p, pm, wcet, periods, q) >= 0;
    }
  }
}
