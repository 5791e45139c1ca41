// class Design (system/design.cpp): one candidate solution's decisions,
// checked and turned into the vectors of the performance analysis, with
// get_periods and get_energy.
module Designs {
  import opened Wrappers
  import opened DesignData
  import opened Msag
  import opened CoMapping
  import opened Periods
  import opened Energy

  /** The vector sizes check_inputs demands. */
  predicate InputsFit(p: Problem, pm: seq<int>, modes: seq<int>, next: seq<int>, sn: seq<int>, rn: seq<int>)
  {
    |pm| == |p.graphOf| && |modes| == p.noProcessors && |next| == |p.graphOf| + p.noProcessors &&
    |sn| == |p.channels| + p.noProcessors && |rn| == |p.channels| + p.noProcessors
  }

  /**
   * check_inputs: throws, with the source's message, on the first vector
   * whose size does not match the applications and the platform.
   */
  method CheckInputs(p: Problem, pm: seq<int>, modes: seq<int>, next: seq<int>, sn: seq<int>, rn: seq<int>)
    returns (r: Result<bool>)
    ensures r.Success? <==> InputsFit(p, pm, modes, next, sn, rn)
    ensures r.Failure? && |pm| != |p.graphOf| ==> r.error == "proc_mappings.size() != no_actors"
  {
    if |pm| != |p.graphOf| {
      return Failure("proc_mappings.size() != no_actors");
    }
    if |modes| != p.noProcessors {
      return Failure("proc_modes.size() != no_processors");
    }
    if |next| != |p.graphOf| + p.noProcessors {
      return Failure("next.size() != no_actors + no_processors");
    }
    if |sn| != |p.channels| + p.noProcessors {
      return Failure("no_channels + no_processors");
    }
    if |rn| != |p.channels| + p.noProcessors {
      return Failure("no_channels + no_processors");
    }
    return Success(true);
  }

  /**
   * What the callers of the constructors guarantee: a valid problem on at
   * least one processor, decisions naming processors, one TDMA allocation
   * per processor, buffer sizes per channel, and successor arrays that
   * index into themselves.
   */
  predicate CallerGuarantees(p: Problem, pm: seq<int>, next: seq<int>, sn: seq<int>, rn: seq<int>,
                             tdma: seq<int>, sb: seq<int>, rb: seq<int>)
  {
    ProblemValid(p) && p.noProcessors >= 1 && |tdma| == p.noProcessors &&
    |sb| == |p.channels| && |rb| == |p.channels| &&
    (forall i :: 0 <= i < |pm| ==> 0 <= pm[i] < p.noProcessors) &&
    (forall i :: 0 <= i < |next| ==> 0 <= next[i] < |next|) &&
    (forall i :: 0 <= i < |sn| ==> 0 <= sn[i] < |sn|) &&
    (forall i :: 0 <= i < |rn| ==> 0 <= rn[i] < |rn|)
  }

  class Design {
    const p: Problem
    const procMappings: seq<int>
    const procModes: seq<int>
    const next: seq<int>
    const sendingNext: seq<int>
    const receivingNext: seq<int>
    const tdmaAlloc: seq<int>
    const recbufferSz: seq<int>
    const appIndex: seq<int>
    const sendingTime: seq<int>
    const sendingLatency: seq<int>
    const receivingTime: seq<int>
    const sendbufferSz: seq<int>
    const memCons: seq<int>
    const wcet: seq<int>
    var periods: seq<int>
    var energy: int

    /** The fields hold checked decisions and the vectors init_vectors derived from them. */
    predicate Valid()
      reads this
    {
      CallerGuarantees(p, procMappings, next, sendingNext, receivingNext, tdmaAlloc, sendbufferSz, recbufferSz) &&
      InputsFit(p, procMappings, procModes, next, sendingNext, receivingNext) &&
      appIndex == AppIndexOf(p.graphOf) &&
      |sendingTime| == |sendingLatency| == |receivingTime| == |p.channels| && |wcet| == |procMappings|
    }

    /** The design stores exactly these decisions and these derived vectors. */
    ghost predicate Stores(p': Problem, pm: seq<int>, modes: seq<int>, next': seq<int>, sn: seq<int>, rn: seq<int>,
                     tdma: seq<int>, rb: seq<int>, ai: seq<int>, v: Vectors)
      reads this
    {
      p == p' && procMappings == pm && procModes == modes && next == next' &&
      sendingNext == sn && receivingNext == rn && tdmaAlloc == tdma && recbufferSz == rb &&
      appIndex == ai && sendingTime == v.sendingTime && sendingLatency == v.sendingLatency &&
      receivingTime == v.receivingTime && sendbufferSz == v.sendbufferSz && memCons == v.memCons &&
      wcet == v.wcet
    }

    /** The design's view of the MSAG's inputs. */
    function Input(): MsagInput
      reads this
    {
      MsagInput(|p.graphOf|, p.noProcessors, p.channels, sendingTime, sendingLatency, receivingTime,
                sendbufferSz, recbufferSz, wcet, next, sendingNext, receivingNext)
    }

    /** A valid design's vectors fit the MSAG construction. */
    lemma InputFits()
      requires Valid()
      ensures Fits(p.graphOf, Input())
    {
    }

    constructor (p: Problem, pm: seq<int>, modes: seq<int>, next: seq<int>, sn: seq<int>, rn: seq<int>,
                 tdma: seq<int>, rb: seq<int>, ai: seq<int>, v: Vectors)
      requires CallerGuarantees(p, pm, next, sn, rn, tdma, v.sendbufferSz, rb)
      requires InputsFit(p, pm, modes, next, sn, rn) && ai == AppIndexOf(p.graphOf)
      requires |v.sendingTime| == |v.sendingLatency| == |v.receivingTime| == |p.channels| && |v.wcet| == |pm|
      ensures Valid() && this.p == p && procMappings == pm && procModes == modes && this.next == next
      ensures sendingNext == sn && receivingNext == rn && tdmaAlloc == tdma && recbufferSz == rb
      ensures appIndex == ai && sendingTime == v.sendingTime && sendingLatency == v.sendingLatency
      ensures receivingTime == v.receivingTime && sendbufferSz == v.sendbufferSz && memCons == v.memCons
      ensures wcet == v.wcet && periods == [] && energy == 0
    {
      this.p := p;
      procMappings := pm;
      procModes := modes;
      this.next := next;
      sendingNext := sn;
      receivingNext := rn;
      tdmaAlloc := tdma;
      recbufferSz := rb;
      appIndex := ai;
      sendingTime := v.sendingTime;
      sendingLatency := v.sendingLatency;
      receivingTime := v.receivingTime;
      sendbufferSz := v.sendbufferSz;
      memCons := v.memCons;
      wcet := v.wcet;
      periods := [];
      energy := 0;
    }

    /**
     * get_periods: calc_periods, kept in `periods`: each application
     * gets the cycle ratio of the MSAG edges of the applications
     * transitively co-mapped with it, so co-mapped applications get the
     * same period. On an MSAG that cannot be built the
     * source loops for ever; here it fails and `periods` stays all zero.
     */
    method GetPeriods() returns (r: Result<seq<int>>)
      requires Valid()
      modifies this
      ensures Valid() && energy == old(energy)
      ensures r.Success? <==> BuildMsag(Input()).Success?
      ensures r.Success? ==> periods == r.value && SamePeriods(p.graphOf, Input(), periods)
      ensures r.Success? ==> PeriodsOfComponents(p.graphOf, Input(), p.mcr, BuildMsag(Input()).value.edges, periods)
      ensures r.Failure? ==> periods == seq(NoApps(p.graphOf), _ => 0)
    {
      InputFits();
      periods := seq(NoApps(p.graphOf), _ => 0);
      r := PeriodsShared(p.graphOf, Input(), p.mcr);
      if r.Success? {
        periods := r.value;
      }
    }

    /**
     * get_energy: calc_energy on the periods of the last get_periods, kept
     * in `energy`.
     */
    method GetEnergy() returns (e: int)
      requires Valid() && |periods| == NoApps(p.graphOf)
      modifies this
      ensures Valid() && periods == old(periods) && energy == e
      ensures EnergyInput(p, procMappings, procModes, wcet, periods)
      ensures e == EnergyUpTo(p, procMappings, procModes, wcet, periods, p.noProcessors)
    {
      forall i | 0 <= i < |procMappings|
        ensures 0 <= p.graphOf[i] < |periods|
      {
        AppRange(p.graphOf, i);
      }
      var utilizations;
      energy, utilizations := CalcEnergy(p, procMappings, procModes, wcet, periods);
      e := energy;
    }
  }

  /**
   * The ten-argument constructor: check_inputs, the appIndex loop, then
   * init_vectors. It fails when check_inputs throws or an actor's WCET is
   * negative.
   */
  method NewDesign(p: Problem, pm: seq<int>, modes: seq<int>, next: seq<int>, sn: seq<int>, rn: seq<int>,
                   tdma: seq<int>, sb: seq<int>, rb: seq<int>) returns (r: Result<Design>)
    requires CallerGuarantees(p, pm, next, sn, rn, tdma, sb, rb)
    ensures r.Success? <==> (InputsFit(p, pm, modes, next, sn, rn) &&
                             forall a :: 0 <= a < |pm| ==> WcetOf(p, pm, modes, a) >= 0)
    ensures r.Success? ==> (fresh(r.value) && r.value.Valid() && r.value.procMappings == pm &&
                            r.value.recbufferSz == rb && r.value.periods == [] && r.value.energy == 0 &&
                            r.value.appIndex == AppIndexOf(p.graphOf))
    ensures r.Success? ==> (exists v :: VectorsOf(p, pm, modes, tdma, sb, v) &&
                                      r.value.Stores(p, pm, modes, next, sn, rn, tdma, rb, AppIndexOf(p.graphOf), v))
  {
    var ok :- CheckInputs(p, pm, modes, next, sn, rn);
    var ai := AppIndexLoop(p.graphOf);
    var v :- InitVectors(p, pm, modes, tdma, sb);
    var d := new Design(p, pm, modes, next, sn, rn, tdma, rb, ai, v);
    return Success(d);
  }

  /** `n` buffer sizes, all `x`. */
  function Filled(n: nat, x: int): (b: seq<int>)
    ensures |b| == n && forall i :: 0 <= i < n ==> b[i] == x
  {
    seq(n, _ => x)
  }

  /**
   * The eight-argument constructor: as the other, with every send buffer
   * 10 and every receive buffer 1.
   */
  method NewDesignDefaultBuffers(p: Problem, pm: seq<int>, modes: seq<int>, next: seq<int>, sn: seq<int>,
                                 rn: seq<int>, tdma: seq<int>) returns (r: Result<Design>)
    requires CallerGuarantees(p, pm, next, sn, rn, tdma, Filled(|p.channels|, 10), Filled(|p.channels|, 1))
    ensures r.Success? <==> (InputsFit(p, pm, modes, next, sn, rn) &&
                             forall a :: 0 <= a < |pm| ==> WcetOf(p, pm, modes, a) >= 0)
    ensures r.Success? ==> fresh(r.value) && r.value.Valid() && r.value.periods == [] && r.value.energy == 0
    ensures r.Success? ==> (exists v :: VectorsOf(p, pm, modes, tdma, Filled(|p.channels|, 10), v) &&
                                      r.value.Stores(p, pm, modes, next, sn, rn, tdma, Filled(|p.channels|, 1),
                                                     AppIndexOf(p.graphOf), v))
  {
    r := NewDesign(p, pm, modes, next, sn, rn, tdma, Filled(|p.channels|, 10), Filled(|p.channels|, 1));
  }
}
