// One candidate of the search together with the operations that build,
// repair and evaluate its encoding (metaheuristic/individual.cpp).
module Individuals {
  import opened Wrappers
  import opened MetaTools
  import opened Schedules
  import opened Positions
  import opened TdmaSlots
  import opened SuccessorArrays

  /**
   * What an individual reads from its applications and platform: the
   * counts, each channel's source and destination actor, the number of
   * modes of every processor and the actor dependency relation.
   */
  datatype Env = Env(
    noEntities: nat,
    noActors: nat,
    noChannels: nat,
    noProcessors: nat,
    noTdmaSlots: nat,
    source: seq<int>,
    destination: seq<int>,
    modes: seq<int>,
    dependsOn: (int, int) -> bool)
  {
    predicate Valid()
    {
      |source| == noChannels && |destination| == noChannels && |modes| == noProcessors &&
      (forall i :: 0 <= i < noChannels ==> 0 <= source[i] < noActors && 0 <= destination[i] < noActors) &&
      (forall i :: 0 <= i < noProcessors ==> modes[i] >= 1)
    }
  }

  // ---------------------------------------------------------------------
  // Shape of an encoding

  /** Every actor is mapped to an existing processor. */
  predicate Mapped(env: Env, p: Position)
  {
    |p.procMappings| == env.noActors &&
    forall a :: 0 <= a < |p.procMappings| ==> 0 <= p.procMappings[a] < env.noProcessors
  }

  /** The processor of each channel's source (or destination) actor. */
  function EndpointProcs(m: seq<int>, ends: seq<int>): (r: seq<int>)
    requires forall i :: 0 <= i < |ends| ==> 0 <= ends[i] < |m|
    ensures |r| == |ends| && forall i :: 0 <= i < |ends| ==> r[i] == m[ends[i]]
  {
    seq(|ends|, i requires 0 <= i < |ends| => m[ends[i]])
  }

  /** The element-wise clamp that `bring_v_to_bound` computes. */
  function ClampAll(v: seq<int>, l: int, u: int): (r: seq<int>)
    ensures |r| == |v| && forall i :: 0 <= i < |v| ==> r[i] == BringToBound(v[i], l, u)
  {
    seq(|v|, i requires 0 <= i < |v| => BringToBound(v[i], l, u))
  }

  lemma ClampMapped(env: Env, p: Position)
    requires Mapped(env, p)
    ensures ClampAll(p.procMappings, 0, env.noProcessors - 1) == p.procMappings
  {
  }

  /**
   * The schedules as `build_schedules` lays them out: one per processor in
   * each list; processor `q`'s actor schedule holds exactly the actors
   * mapped to `q`, ascending, closed by dummy `q + no_actors`; its sending
   * (receiving) schedule holds the channels whose source (destination)
   * actor is on `q`, closed by dummy `q + no_channels`.
   */
  predicate ScheduleSets(env: Env, p: Position)
    requires env.Valid() && |p.procMappings| == env.noActors
  {
    var m := p.procMappings;
    |p.procSched| == env.noProcessors && |p.sendSched| == env.noProcessors &&
    |p.recSched| == env.noProcessors &&
    forall q :: 0 <= q < env.noProcessors ==>
      p.procSched[q].WellFormed() && p.procSched[q].elements == IndicesOf(m, q) &&
      p.procSched[q].dummy == q + env.noActors &&
      p.sendSched[q].WellFormed() && p.sendSched[q].elements == IndicesOf(EndpointProcs(m, env.source), q) &&
      p.sendSched[q].dummy == q + env.noChannels &&
      p.recSched[q].WellFormed() && p.recSched[q].elements == IndicesOf(EndpointProcs(m, env.destination), q) &&
      p.recSched[q].dummy == q + env.noChannels
  }

  /** A freshly created position: no schedules yet. */
  predicate NoSchedules(p: Position)
  {
    p.procSched == [] && p.sendSched == [] && p.recSched == []
  }

  /** The schedules either do not exist yet or match the mapping. */
  predicate SchedulesFit(env: Env, p: Position)
    requires env.Valid()
  {
    NoSchedules(p) || (Mapped(env, p) && ScheduleSets(env, p))
  }

  /** The same schedules, element for element and dummy for dummy; ranks may differ. */
  predicate SameSets(before: seq<Sched>, after: seq<Sched>)
  {
    |after| == |before| &&
    forall k :: 0 <= k < |before| ==>
      after[k].elements == before[k].elements && after[k].dummy == before[k].dummy &&
      after[k].WellFormed()
  }

  // ---------------------------------------------------------------------
  // TDMA allocation

  /** Channel `i` connects two different processors and one of them is `q`. */
  predicate CrossesAt(env: Env, m: seq<int>, i: int, q: int)
    requires env.Valid() && |m| == env.noActors && 0 <= i < env.noChannels
  {
    m[env.source[i]] != m[env.destination[i]] &&
    (m[env.source[i]] == q || m[env.destination[i]] == q)
  }

  /** How many of the first `k` channels cross into or out of processor `q`. */
  function CrossCount(env: Env, m: seq<int>, q: int, k: nat): nat
    requires env.Valid() && |m| == env.noActors && k <= env.noChannels
  {
    if k == 0 then 0
    else CrossCount(env, m, q, k - 1) + (if CrossesAt(env, m, k - 1, q) then 1 else 0)
  }

  lemma {:induction false} CrossCountZero(env: Env, m: seq<int>, q: int, k: nat)
    requires env.Valid() && |m| == env.noActors && k <= env.noChannels
    ensures CrossCount(env, m, q, k) == 0 <==> forall i :: 0 <= i < k ==> !CrossesAt(env, m, i, q)
  {
    if k > 0 {
      CrossCountZero(env, m, q, k - 1);
    }
  }

  /**
   * The allocation as it enters the reduction loop: clamped into
   * [0, no_tdma_slots]; then a processor without cross-processor channels
   * gets 0 and one with such channels gets at least 1.
   */
  function Seeded(env: Env, m: seq<int>, t: seq<int>): (s: seq<int>)
    requires env.Valid() && |m| == env.noActors
    ensures |s| == |t| && NonNegative(s)
  {
    seq(|t|, q requires 0 <= q < |t| =>
      var c := BringToBound(t[q], 0, env.noTdmaSlots);
      if q < env.noProcessors then
        (if CrossCount(env, m, q, env.noChannels) == 0 then 0 else if c == 0 then 1 else c)
      else c)
  }

  /** The reduction loop of `repair_tdma` ends. */
  predicate TdmaEnds(env: Env, m: seq<int>, t: seq<int>)
    requires env.Valid() && |m| == env.noActors
  {
    var s := Seeded(env, m, t);
    SumInt(s) <= env.noTdmaSlots || Positives(s) <= env.noTdmaSlots
  }

  /** `after` is what `repair_tdma` leaves when it ends. */
  predicate TdmaRepaired(env: Env, m: seq<int>, before: seq<int>, after: seq<int>)
    requires env.Valid() && |m| == env.noActors
  {
    var s := Seeded(env, m, before);
    Thinned(s, after) &&
    (SumInt(s) <= env.noTdmaSlots ==> after == s) &&
    (SumInt(s) > env.noTdmaSlots ==> SumInt(after) == env.noTdmaSlots)
  }

  /** How many of the first `k` processors have a cross-processor channel. */
  function NeedCount(env: Env, m: seq<int>, k: nat): nat
    requires env.Valid() && |m| == env.noActors
  {
    if k == 0 then 0
    else NeedCount(env, m, k - 1) + (if CrossCount(env, m, k - 1, env.noChannels) > 0 then 1 else 0)
  }

  lemma {:induction false} SeededHolders(env: Env, m: seq<int>, t: seq<int>, k: nat)
    requires env.Valid() && |m| == env.noActors && k <= |t| && k <= env.noProcessors
    ensures Positives(Seeded(env, m, t)[..k]) == NeedCount(env, m, k)
  {
    if k > 0 {
      var s := Seeded(env, m, t);
      assert s[..k][..k - 1] == s[..k - 1];
      SeededHolders(env, m, t, k - 1);
    }
  }

  lemma {:induction false} HolderCounted(s: seq<int>, q: int)
    requires NonNegative(s) && 0 <= q < |s| && s[q] > 0
    ensures Positives(s) >= 1
  {
    if q < |s| - 1 {
      HolderCounted(s[..|s| - 1], q);
    }
  }

  /**
   * What a finished TDMA repair guarantees: a processor without
   * cross-processor channels holds no slot, one with such channels holds
   * at least one, every processor holds at most `no_tdma_slots`, and the
   * total fits the interconnect.
   */
  lemma TdmaRepairedMeaning(env: Env, m: seq<int>, before: seq<int>, after: seq<int>)
    requires env.Valid() && |m| == env.noActors && |before| >= env.noProcessors
    requires TdmaEnds(env, m, before) && TdmaRepaired(env, m, before, after)
    ensures |after| == |before|
    ensures forall q :: 0 <= q < env.noProcessors && CrossCount(env, m, q, env.noChannels) == 0 ==> after[q] == 0
    ensures forall q :: 0 <= q < env.noProcessors && CrossCount(env, m, q, env.noChannels) > 0 ==> after[q] >= 1
    ensures forall q :: 0 <= q < |after| ==> 0 <= after[q] <= env.noTdmaSlots
    ensures SumInt(after) <= env.noTdmaSlots
  {
    var s := Seeded(env, m, before);
    PositivesAtMostSum(s);
    forall q | 0 <= q < |after|
      ensures 0 <= after[q] <= env.noTdmaSlots
    {
      if s[q] > 0 {
        HolderCounted(s, q);
      }
    }
    ThinnedKeepsHolders(s, after);
    PositivesAtMostSum(after);
  }

  /**
   * With one allocation entry per processor, the reduction loop ends if
   * and only if the processors that need a slot fit into the slots.
   */
  lemma TdmaEndsIffRoom(env: Env, m: seq<int>, t: seq<int>)
    requires env.Valid() && |m| == env.noActors && |t| == env.noProcessors
    ensures TdmaEnds(env, m, t) <==> NeedCount(env, m, env.noProcessors) <= env.noTdmaSlots
  {
    var s := Seeded(env, m, t);
    SeededHolders(env, m, t, |t|);
    assert s[..|t|] == s;
    PositivesAtMostSum(s);
  }

  // ---------------------------------------------------------------------
  // Schedule helpers

  /** `set_rank(bring_v_to_bound(rank, 0, size-1))`: clamp, then remove duplicates. */
  method NormaliseRanks(v: Sched) returns (s: Schedule)
    requires v.WellFormed()
    ensures fresh(s) && s.Valid()
    ensures s.elements == v.elements && s.dummy == v.dummy
    ensures IsRankPermutation(s.rank, |s.elements|)
  {
    s := new Schedule.Copy(v);
    var clamped := BringVToBound(s.rank, 0, |s.rank| - 1);
    assert InRange(clamped, |clamped|);
    var ok := s.SetRanks(clamped);
  }

  /** Channels `i` (ascending) whose endpoint actor `ends[i]` is mapped to `proc`. */
  method ChannelsOn(m: seq<int>, ends: seq<int>, proc: int) returns (channels: seq<int>)
    requires forall i :: 0 <= i < |ends| ==> 0 <= ends[i] < |m|
    ensures channels == IndicesOf(EndpointProcs(m, ends), proc)
  {
    ghost var e := EndpointProcs(m, ends);
    channels := [];
    var i := 0;
    while i < |ends|
      invariant 0 <= i <= |ends|
      invariant channels == IndicesOf(e[..i], proc)
    {
      assert e[..i + 1][..i] == e[..i];
      if m[ends[i]] == proc {
        channels := channels + [i];
      }
      i := i + 1;
    }
    assert e[..i] == e;
  }

  /** The schedules still fit a position whose mapping changed only if it was not valid. */
  lemma FitKept(env: Env, p: Position, q: Position)
    requires env.Valid() && SchedulesFit(env, p)
    requires q.procSched == p.procSched && q.sendSched == p.sendSched && q.recSched == p.recSched
    requires Mapped(env, p) ==> q.procMappings == p.procMappings
    ensures SchedulesFit(env, q)
  {
    if !NoSchedules(p) {
      assert ScheduleSets(env, q);
    }
  }

  /** What a finished `repair` leaves, given the position it started from. */
  ghost predicate Repaired(env: Env, p: Position, q: Position)
    requires env.Valid() && |p.procMappings| == env.noActors
  {
    var m := ClampAll(p.procMappings, 0, env.noProcessors - 1);
    q.procMappings == m &&
    |q.procModes| == |p.procModes| &&
    (forall i :: 0 <= i < |p.procModes| ==>
      q.procModes[i] == if i < env.noProcessors then BringToBound(p.procModes[i], 0, env.modes[i] - 1)
                        else p.procModes[i]) &&
    TdmaRepaired(env, m, p.tdmaAlloc, q.tdmaAlloc) &&
    SameSets(p.procSched, q.procSched) && Ranked(q.procSched) &&
    SameSets(p.sendSched, q.sendSched) && Ranked(q.sendSched) &&
    SameSets(p.recSched, q.recSched) && Ranked(q.recSched) &&
    q == p.(procMappings := q.procMappings, procModes := q.procModes, tdmaAlloc := q.tdmaAlloc,
            procSched := q.procSched, sendSched := q.sendSched, recSched := q.recSched)
  }

  /** The mode loop of `repair`: processor `i`'s mode into 0 .. modes[i]-1; later entries stay. */
  method ClampModes(procModes: seq<int>, modes: seq<int>) returns (out: seq<int>)
    requires |procModes| >= |modes|
    ensures |out| == |procModes|
    ensures forall i :: 0 <= i < |out| ==>
      out[i] == if i < |modes| then BringToBound(procModes[i], 0, modes[i] - 1) else procModes[i]
  {
    out := procModes;
    var i := 0;
    while i < |modes|
      invariant 0 <= i <= |modes| && |out| == |procModes|
      invariant forall k :: 0 <= k < |out| ==>
        out[k] == if k < i then BringToBound(procModes[k], 0, modes[k] - 1) else procModes[k]
    {
      out := out[i := BringToBound(out[i], 0, modes[i] - 1)];
      i := i + 1;
    }
  }

  /** The passes of `repair`, composed: each changes its own fields only. */
  lemma RepairedBySteps(env: Env, p: Position, p1: Position, t: Position, q: Position)
    requires env.Valid() && env.noProcessors >= 1 && |p.procMappings| == env.noActors
    requires |p.procModes| >= env.noProcessors
    requires p1 == p.(procMappings := ClampAll(p.procMappings, 0, env.noProcessors - 1), procModes := p1.procModes)
    requires |p1.procModes| == |p.procModes|
    requires forall i :: 0 <= i < |p1.procModes| ==>
      p1.procModes[i] == if i < |env.modes| then BringToBound(p.procModes[i], 0, env.modes[i] - 1) else p.procModes[i]
    requires t == p1.(tdmaAlloc := t.tdmaAlloc) && TdmaRepaired(env, p1.procMappings, p1.tdmaAlloc, t.tdmaAlloc)
    requires q == t.(procSched := q.procSched, sendSched := q.sendSched, recSched := q.recSched)
    requires SameSets(t.procSched, q.procSched) && Ranked(q.procSched)
    requires SameSets(t.sendSched, q.sendSched) && Ranked(q.sendSched)
    requires SameSets(t.recSched, q.recSched) && Ranked(q.recSched)
    ensures Repaired(env, p, q)
  {
  }

  /** Rank changes leave the layout of the schedules intact. */
  lemma SameSetsKeepFit(env: Env, p: Position, q: Position)
    requires env.Valid() && SchedulesFit(env, p)
    requires q.procMappings == p.procMappings
    requires SameSets(p.procSched, q.procSched) && SameSets(p.sendSched, q.sendSched)
    requires SameSets(p.recSched, q.recSched)
    ensures SchedulesFit(env, q)
  {
    if !NoSchedules(p) {
      assert ScheduleSets(env, q);
    }
  }

  // ---------------------------------------------------------------------
  // Fitness

  /** What the design reports for an encoding: periods, energy and memory slack. */
  datatype Evaluation = Evaluation(periods: seq<int>, energy: int, slackMemory: seq<int>)

  /** The encoding handed to the design. */
  datatype DesignInput = DesignInput(
    procMappings: seq<int>,
    procModes: seq<int>,
    next: seq<int>,
    sendingNext: seq<int>,
    receivingNext: seq<int>,
    tdmaAlloc: seq<int>)

  /** The number of memory violations: negative slack entries. */
  function CountNegative(s: seq<int>): nat
  {
    if s == [] then 0 else CountNegative(s[..|s| - 1]) + (if s[|s| - 1] < 0 then 1 else 0)
  }

  /**
   * The fitness layout: the periods first, then the energy at `size-2`
   * and the number of memory violations at `size-1`; entries the periods
   * do not reach stay 0.
   */
  function FitnessVector(noEntities: nat, ev: Evaluation): (f: seq<int>)
    requires |ev.periods| <= noEntities + 2
    ensures |f| == noEntities + 2
    ensures f[noEntities] == ev.energy && f[noEntities + 1] == CountNegative(ev.slackMemory)
    ensures forall i :: 0 <= i < noEntities ==> f[i] == if i < |ev.periods| then ev.periods[i] else 0
  {
    seq(noEntities + 2, i requires 0 <= i < noEntities + 2 =>
      if i == noEntities + 1 then CountNegative(ev.slackMemory)
      else if i == noEntities then ev.energy
      else if i < |ev.periods| then ev.periods[i]
      else 0)
  }

  /** The loops of `calc_fitness` that lay out the fitness vector. */
  method BuildFitness(noEntities: nat, ev: Evaluation) returns (fitness: seq<int>)
    requires |ev.periods| <= noEntities + 2
    ensures fitness == FitnessVector(noEntities, ev)
  {
    var prs := ev.periods;
    fitness := seq(noEntities + 2, _ => 0);
    var i := 0;
    while i < |prs|
      invariant 0 <= i <= |prs| && |fitness| == noEntities + 2
      invariant forall k :: 0 <= k < |fitness| ==> fitness[k] == if k < i then prs[k] else 0
    {
      fitness := fitness[i := prs[i]];
      i := i + 1;
    }
    fitness := fitness[|fitness| - 2 := ev.energy];
    var noMemViolations := CountViolations(ev.slackMemory);
    fitness := fitness[|fitness| - 1 := noMemViolations];
  }

  /** The memory-violation loop of `calc_fitness`. */
  method CountViolations(slack: seq<int>) returns (count: nat)
    ensures count == CountNegative(slack)
  {
    count := 0;
    var i := 0;
    while i < |slack|
      invariant 0 <= i <= |slack| && count == CountNegative(slack[..i])
    {
      assert slack[..i + 1][..i] == slack[..i];
      if slack[i] < 0 {
        count := count + 1;
      }
      i := i + 1;
    }
    assert slack[..i] == slack;
  }

  /** Positions the individual works with: mapped, schedules laid out and ranked. */
  predicate Encoded(env: Env, p: Position)
    requires env.Valid()
  {
    Mapped(env, p) && ScheduleSets(env, p) &&
    Ranked(p.procSched) && Ranked(p.sendSched) && Ranked(p.recSched)
  }

  /** Encoded schedules meet what `get_next` needs of them. */
  lemma EncodedElementsBelow(env: Env, p: Position)
    requires env.Valid() && Encoded(env, p)
    ensures AllWellFormed(p.procSched) && ElementsBelow(p.procSched, env.noActors + env.noProcessors)
    ensures AllWellFormed(p.sendSched) && ElementsBelow(p.sendSched, env.noChannels + env.noProcessors)
    ensures AllWellFormed(p.recSched) && ElementsBelow(p.recSched, env.noChannels + env.noProcessors)
  {
    var m := p.procMappings;
    forall q, i | 0 <= q < env.noProcessors && 0 <= i < |p.sendSched[q].elements|
      ensures 0 <= p.sendSched[q].elements[i] < env.noChannels
    {
      assert p.sendSched[q].elements[i] in IndicesOf(EndpointProcs(m, env.source), q);
    }
    forall q, i | 0 <= q < env.noProcessors && 0 <= i < |p.recSched[q].elements|
      ensures 0 <= p.recSched[q].elements[i] < env.noChannels
    {
      assert p.recSched[q].elements[i] in IndicesOf(EndpointProcs(m, env.destination), q);
    }
    forall q, i | 0 <= q < env.noProcessors && 0 <= i < |p.procSched[q].elements|
      ensures 0 <= p.procSched[q].elements[i] < env.noActors
    {
      assert p.procSched[q].elements[i] in IndicesOf(m, q);
    }
  }

  /** The design input `calc_fitness` builds from an encoded position. */
  function InputOf(env: Env, p: Position): DesignInput
    requires env.Valid() && Encoded(env, p) && env.noProcessors >= 1
  {
    RankedLookupsSucceed(p.procSched);
    RankedLookupsSucceed(p.sendSched);
    RankedLookupsSucceed(p.recSched);
    DesignInput(p.procMappings, p.procModes, NextArray(p.procSched, env.noActors),
      NextArray(p.sendSched, env.noChannels), NextArray(p.recSched, env.noChannels), p.tdmaAlloc)
  }

  // ---------------------------------------------------------------------
  // Repairing twice

  /** At most one needing processor per processor. */
  lemma {:induction false} NeedCountAtMost(env: Env, m: seq<int>, k: nat)
    requires env.Valid() && |m| == env.noActors
    ensures NeedCount(env, m, k) <= k
  {
    if k > 0 {
      NeedCountAtMost(env, m, k - 1);
    }
  }

  /** With no more processors than slots, the reduction loop always ends. */
  lemma RoomForAll(env: Env, m: seq<int>, t: seq<int>)
    requires env.Valid() && |m| == env.noActors && |t| == env.noProcessors
    requires env.noProcessors <= env.noTdmaSlots
    ensures TdmaEnds(env, m, t)
  {
    NeedCountAtMost(env, m, env.noProcessors);
    TdmaEndsIffRoom(env, m, t);
  }

  /** A repaired allocation enters the reduction loop unchanged. */
  lemma SeededRepaired(env: Env, m: seq<int>, before: seq<int>, after: seq<int>)
    requires env.Valid() && |m| == env.noActors && |before| >= env.noProcessors
    requires TdmaEnds(env, m, before) && TdmaRepaired(env, m, before, after)
    ensures Seeded(env, m, after) == after
    ensures TdmaEnds(env, m, after) && TdmaRepaired(env, m, after, after)
  {
    TdmaRepairedMeaning(env, m, before, after);
    var s := Seeded(env, m, after);
    forall q | 0 <= q < |after|
      ensures s[q] == after[q]
    {
    }
  }

  /**
   * A repaired position is mapped, its mapping is its own clamp, and a
   * second `repair`'s reduction loop ends.
   */
  lemma RepairedStable(env: Env, p: Position, q: Position)
    requires env.Valid() && env.noProcessors >= 1 && |p.procMappings| == env.noActors
    requires |p.tdmaAlloc| >= env.noProcessors
    requires TdmaEnds(env, ClampAll(p.procMappings, 0, env.noProcessors - 1), p.tdmaAlloc)
    requires Repaired(env, p, q)
    ensures Mapped(env, q) && ClampAll(q.procMappings, 0, env.noProcessors - 1) == q.procMappings
    ensures TdmaEnds(env, q.procMappings, q.tdmaAlloc)
  {
    SeededRepaired(env, q.procMappings, p.tdmaAlloc, q.tdmaAlloc);
  }

  /**
   * A second `repair` of a repaired position, whatever happened to its
   * schedules in between, changes neither the mapping, nor the modes, nor
   * the TDMA allocation.
   */
  lemma RepairAgain(env: Env, p: Position, q: Position, u: Position, r: Position)
    requires env.Valid() && env.noProcessors >= 1 && |p.procMappings| == env.noActors
    requires |p.procModes| >= env.noProcessors && |p.tdmaAlloc| >= env.noProcessors
    requires TdmaEnds(env, ClampAll(p.procMappings, 0, env.noProcessors - 1), p.tdmaAlloc)
    requires Repaired(env, p, q)
    requires u.procMappings == q.procMappings && u.procModes == q.procModes && u.tdmaAlloc == q.tdmaAlloc
    requires Repaired(env, u, r)
    ensures r.procMappings == q.procMappings && r.procModes == q.procModes && r.tdmaAlloc == q.tdmaAlloc
  {
    RepairedStable(env, p, q);
    TdmaRepairedMeaning(env, q.procMappings, p.tdmaAlloc, q.tdmaAlloc);
    SeededRepaired(env, q.procMappings, p.tdmaAlloc, q.tdmaAlloc);
    forall i | 0 <= i < |q.procModes|
      ensures r.procModes[i] == q.procModes[i]
    {
    }
  }

  // ---------------------------------------------------------------------
  // Random initial positions

  /**
   * What `init_random` draws: every actor on a processor, every processor
   * in one of its modes, and, as written, every TDMA entry from the
   * processor distribution 0 .. no_processors-1 (the slot distribution
   * the source declares is never used).
   */
  predicate Drawn(env: Env, d: Position)
    requires env.Valid()
  {
    Mapped(env, d) &&
    |d.procModes| == env.noProcessors &&
    (forall i :: 0 <= i < env.noProcessors ==> 0 <= d.procModes[i] < env.modes[i]) &&
    |d.tdmaAlloc| == env.noProcessors &&
    (forall i :: 0 <= i < env.noProcessors ==> 0 <= d.tdmaAlloc[i] < env.noProcessors)
  }

  /** `std::generate` with a uniform distribution over 0 .. max. */
  method Generate(n: nat, max: int) returns (v: seq<int>)
    requires max >= 0
    ensures |v| == n && forall i :: 0 <= i < n ==> 0 <= v[i] <= max
  {
    v := [];
    while |v| < n
      invariant |v| <= n && forall i :: 0 <= i < |v| ==> 0 <= v[i] <= max
    {
      var x := RandomInt(0, max);
      v := v + [x];
    }
  }

  /** The mode loop of `init_random`: processor `i` draws from 0 .. modes[i]-1. */
  method DrawModes(modes: seq<int>) returns (v: seq<int>)
    requires forall i :: 0 <= i < |modes| ==> modes[i] >= 1
    ensures |v| == |modes| && forall i :: 0 <= i < |modes| ==> 0 <= v[i] < modes[i]
  {
    v := seq(|modes|, _ => 0);
    var i := 0;
    while i < |modes|
      invariant 0 <= i <= |modes| && |v| == |modes|
      invariant forall k :: 0 <= k < |modes| ==> 0 <= v[k] < modes[k]
    {
      var x := RandomInt(0, modes[i] - 1);
      v := v[i := x];
      i := i + 1;
    }
  }

  // ---------------------------------------------------------------------
  // The individual

  class Individual {
    const env: Env
    const multiObj: bool
    const objWeights: seq<real>
    var currentPosition: Position
    var bestGlobalPosition: Position
    var noInvalidMoves: int

    ghost predicate Valid()
      reads this
    {
      env.Valid() && |objWeights| == env.noEntities + 2
    }

    /**
     * `Individual(mapping, applications, multi_obj, o_w)` up to the call of
     * `init_random`: both positions new, no invalid moves. The weight check
     * of the source is made by Create.
     */
    constructor (env0: Env, multiObj0: bool, w: seq<real>)
      requires env0.Valid() && |w| == env0.noEntities + 2
      ensures Valid() && env == env0 && multiObj == multiObj0 && objWeights == w
      ensures currentPosition == NewPosition(multiObj0, w) && bestGlobalPosition == NewPosition(multiObj0, w)
      ensures noInvalidMoves == 0
    {
      env := env0;
      multiObj := multiObj0;
      objWeights := w;
      currentPosition := NewPosition(multiObj0, w);
      bestGlobalPosition := NewPosition(multiObj0, w);
      noInvalidMoves := 0;
    }

    /**
     * The whole constructor: rejected unless there is one weight per
     * application plus two; otherwise the individual starts from a random
     * position. Creation fails only where the source's TDMA reduction
     * would not end, which cannot happen with at least as many slots as
     * processors.
     */
    static method Create(env0: Env, multiObj0: bool, w: seq<real>) returns (res: Result<Individual>)
      requires env0.Valid() && env0.noProcessors >= 1
      ensures |w| != env0.noEntities + 2 ==> res.Failure?
      ensures |w| == env0.noEntities + 2 && env0.noProcessors <= env0.noTdmaSlots ==> res.Success?
      ensures res.Success? ==> fresh(res.value) && res.value.Valid() && res.value.env == env0
      ensures res.Success? ==> Encoded(env0, res.value.currentPosition) && res.value.noInvalidMoves == 0
      ensures res.Success? ==> res.value.bestGlobalPosition == NewPosition(multiObj0, w)
    {
      if |w| != env0.noEntities + 2 {
        return Failure("obj_weights needed: no_entities + 2");
      }
      var ind := new Individual(env0, multiObj0, w);
      var ok, drawn := ind.InitRandom();
      if !ok {
        if env0.noProcessors <= env0.noTdmaSlots {
          RoomForAll(env0, drawn.procMappings, drawn.tdmaAlloc);
        }
        return Failure("TDMA slot reduction does not end");
      }
      return Success(ind);
    }

    /** The copy constructor: both positions copied, the invalid-move counter restarts. */
    constructor CopyOf(other: Individual)
      ensures env == other.env && multiObj == other.multiObj && objWeights == other.objWeights
      ensures currentPosition == other.currentPosition && bestGlobalPosition == other.bestGlobalPosition
      ensures noInvalidMoves == 0
    {
      env := other.env;
      multiObj := other.multiObj;
      objWeights := other.objWeights;
      currentPosition := other.currentPosition;
      bestGlobalPosition := other.bestGlobalPosition;
      noInvalidMoves := 0;
    }

    /**
     * `init_random`: draws a position as Drawn describes, lays out its
     * schedules, gives it a zero fitness per objective and repairs it.
     * `ok` is false exactly where the repair's TDMA reduction would not
     * end; the position is then left as it was.
     */
    method InitRandom() returns (ok: bool, ghost drawn: Position)
      requires Valid() && env.noProcessors >= 1
      modifies this
      ensures Drawn(env, drawn)
      ensures ok <==> TdmaEnds(env, drawn.procMappings, drawn.tdmaAlloc)
      ensures noInvalidMoves == 0 && bestGlobalPosition == old(bestGlobalPosition)
      ensures !ok ==> currentPosition == old(currentPosition)
      ensures ok ==> Encoded(env, currentPosition) && currentPosition.fitness == seq(env.noEntities + 2, _ => 0)
      ensures ok ==> currentPosition.procMappings == drawn.procMappings && currentPosition.procModes == drawn.procModes
      ensures ok ==> TdmaRepaired(env, drawn.procMappings, drawn.tdmaAlloc, currentPosition.tdmaAlloc)
      ensures ok ==> currentPosition == old(currentPosition).(procMappings := currentPosition.procMappings,
        procModes := currentPosition.procModes, tdmaAlloc := currentPosition.tdmaAlloc,
        fitness := currentPosition.fitness, procSched := currentPosition.procSched,
        sendSched := currentPosition.sendSched, recSched := currentPosition.recSched)
    {
      noInvalidMoves := 0;
      var m := Generate(env.noActors, env.noProcessors - 1);
      var t := Generate(env.noProcessors, env.noProcessors - 1);
      var modes := DrawModes(env.modes);
      var p := currentPosition.(procMappings := m, procModes := modes, tdmaAlloc := t, fitness := [],
        procSched := [], sendSched := [], recSched := []);
      drawn := p;
      p := BuildSchedules(p);
      p := p.(fitness := seq(env.noEntities + 2, _ => 0));
      ClampMapped(env, p);
      var r := Repair(p);
      if r.Failure? {
        return false, drawn;
      }
      currentPosition := r.value;
      return true, drawn;
    }

    /** `set_best_global`: the guide position; nothing else changes. */
    method SetBestGlobal(p: Position)
      modifies this
      ensures bestGlobalPosition == p
      ensures currentPosition == old(currentPosition) && noInvalidMoves == old(noInvalidMoves)
    {
      bestGlobalPosition := p;
    }

    /** `dominate(other)`: whether this current position dominates the other's. */
    method Dominate(other: Individual) returns (r: bool)
      requires Comparable(currentPosition, other.currentPosition)
      ensures r == Dominates(currentPosition, other.currentPosition)
    {
      r := Positions.Dominate(currentPosition, other.currentPosition);
    }

    /** `get_channel_by_src`: the channels whose source actor is on `proc`, ascending. */
    method GetChannelBySrc(p: Position, proc: int) returns (channels: seq<int>)
      requires env.Valid() && |p.procMappings| == env.noActors
      ensures channels == IndicesOf(EndpointProcs(p.procMappings, env.source), proc)
    {
      channels := ChannelsOn(p.procMappings, env.source, proc);
    }

    /** `get_channel_by_dst`: the channels whose destination actor is on `proc`, ascending. */
    method GetChannelByDst(p: Position, proc: int) returns (channels: seq<int>)
      requires env.Valid() && |p.procMappings| == env.noActors
      ensures channels == IndicesOf(EndpointProcs(p.procMappings, env.destination), proc)
    {
      channels := ChannelsOn(p.procMappings, env.destination, proc);
    }

    /**
     * `build_schedules`: fresh schedules (random ranks) for every
     * processor, laid out as ScheduleSets describes; nothing else changes.
     */
    method BuildSchedules(p: Position) returns (q: Position)
      requires env.Valid() && |p.procMappings| == env.noActors
      ensures q == p.(procSched := q.procSched, sendSched := q.sendSched, recSched := q.recSched)
      ensures ScheduleSets(env, q)
      ensures Ranked(q.procSched) && Ranked(q.sendSched) && Ranked(q.recSched)
    {
      var ps: seq<Sched> := [];
      var ss: seq<Sched> := [];
      var rs: seq<Sched> := [];
      var i := 0;
      while i < env.noProcessors
        invariant 0 <= i <= env.noProcessors
        invariant |ps| == i && |ss| == i && |rs| == i
        invariant Ranked(ps) && Ranked(ss) && Ranked(rs)
        invariant forall k :: 0 <= k < i ==>
          ps[k].WellFormed() && ps[k].elements == IndicesOf(p.procMappings, k) &&
          ps[k].dummy == k + env.noActors &&
          ss[k].WellFormed() && ss[k].elements == IndicesOf(EndpointProcs(p.procMappings, env.source), k) &&
          ss[k].dummy == k + env.noChannels &&
          rs[k].WellFormed() && rs[k].elements == IndicesOf(EndpointProcs(p.procMappings, env.destination), k) &&
          rs[k].dummy == k + env.noChannels
      {
        var actors := GetActorsByProc(p, i);
        var a := new Schedule(actors, i + env.noActors);
        var out := GetChannelBySrc(p, i);
        var s := new Schedule(out, i + env.noChannels);
        var inc := GetChannelByDst(p, i);
        var r := new Schedule(inc, i + env.noChannels);
        ps := ps + [a.Value()];
        ss := ss + [s.Value()];
        rs := rs + [r.Value()];
        i := i + 1;
      }
      q := p.(procSched := ps, sendSched := ss, recSched := rs);
    }

    /**
     * `repair_tdma`: clamp, seed, then reduce. None when the reduction
     * loop would never end (see TdmaEndsIffRoom).
     */
    method RepairTdma(p: Position) returns (res: Result<Position>)
      requires env.Valid() && Mapped(env, p) && |p.tdmaAlloc| >= env.noProcessors
      ensures res.Success? <==> TdmaEnds(env, p.procMappings, p.tdmaAlloc)
      ensures res.Success? ==> res.value == p.(tdmaAlloc := res.value.tdmaAlloc)
      ensures res.Success? ==> TdmaRepaired(env, p.procMappings, p.tdmaAlloc, res.value.tdmaAlloc)
    {
      var m := p.procMappings;
      var t := BringVToBound(p.tdmaAlloc, 0, env.noTdmaSlots);
      var inout := seq(env.noProcessors, _ => 0);
      var i := 0;
      while i < env.noChannels
        invariant 0 <= i <= env.noChannels && |inout| == env.noProcessors
        invariant forall q :: 0 <= q < env.noProcessors ==> inout[q] == CrossCount(env, m, q, i)
      {
        var procSrc := m[env.source[i]];
        var procDst := m[env.destination[i]];
        if procSrc != procDst {
          inout := inout[procSrc := inout[procSrc] + 1];
          inout := inout[procDst := inout[procDst] + 1];
        }
        i := i + 1;
      }
      ghost var s := Seeded(env, m, p.tdmaAlloc);
      i := 0;
      while i < |inout|
        invariant 0 <= i <= |inout| && |t| == |p.tdmaAlloc|
        invariant forall q :: 0 <= q < i ==> t[q] == s[q]
        invariant forall q :: i <= q < |t| ==> t[q] == BringToBound(p.tdmaAlloc[q], 0, env.noTdmaSlots)
      {
        if inout[i] == 0 {
          t := t[i := 0];
        } else if t[i] == 0 {
          t := t[i := t[i] + 1];
        }
        i := i + 1;
      }
      assert t == s;
      var reduced := ReduceSlots(t, env.noTdmaSlots);
      if reduced.None? {
        return Failure("the TDMA reduction loop does not terminate");
      }
      return Success(p.(tdmaAlloc := reduced.value));
    }

    /**
     * `repair_sched`: normalise every actor schedule's ranks, then for
     * each pair i <= j of real actors whose ranks contradict a dependency
     * (rank of `a` above rank of `b` while `a` depends on `b`), swap their
     * ranks on a coin flip. Elements never change and the ranks end as a
     * permutation; a contradicting pair may survive.
     */
    method RepairSched(p: Position) returns (q: Position)
      requires AllWellFormed(p.procSched)
      ensures q == p.(procSched := q.procSched)
      ensures SameSets(p.procSched, q.procSched) && Ranked(q.procSched)
    {
      var out := p.procSched;
      var proc := 0;
      while proc < |out|
        invariant 0 <= proc <= |out|
        invariant SameSets(p.procSched, out)
        invariant forall k :: 0 <= k < proc ==> IsRankPermutation(out[k].rank, |out[k].elements|)
      {
        var s := NormaliseRanks(out[proc]);
        var n := |s.elements|;
        var i := 0;
        while i < n
          invariant s.Valid() && s.elements == out[proc].elements && s.dummy == out[proc].dummy
          invariant IsRankPermutation(s.rank, n)
        {
          var a := s.elements[i];
          var j := i;
          while j < n
            invariant s.Valid() && s.elements == out[proc].elements && s.dummy == out[proc].dummy
            invariant IsRankPermutation(s.rank, n)
          {
            var b := s.elements[j];
            var rankA := s.GetRankById(i);
            var rankB := s.GetRankById(j);
            if a < env.noActors && b < env.noActors && rankA.value > rankB.value && env.dependsOn(a, b) {
              var coin := RandomBool();
              if coin {
                s.SwitchRanks(i, j);
              }
            }
            j := j + 1;
          }
          i := i + 1;
        }
        out := out[proc := s.Value()];
        proc := proc + 1;
      }
      q := p.(procSched := out);
    }

    /**
     * `repair_send_sched`: normalise every sending schedule's ranks, then
     * for each ordered pair of channels swap their ranks on a coin flip
     * when both feed the same actor and the order contradicts a
     * dependency, or when the source actors run in the opposite order.
     */
    method RepairSendSched(p: Position) returns (q: Position)
      requires env.Valid() && SchedulesFit(env, p)
      ensures q == p.(sendSched := q.sendSched)
      ensures SameSets(p.sendSched, q.sendSched) && Ranked(q.sendSched)
    {
      var out := p.sendSched;
      var proc := 0;
      while proc < |out|
        invariant 0 <= proc <= |out|
        invariant SameSets(p.sendSched, out)
        invariant forall k :: 0 <= k < proc ==> IsRankPermutation(out[k].rank, |out[k].elements|)
      {
        var s := NormaliseRanks(out[proc]);
        ghost var chans := IndicesOf(EndpointProcs(p.procMappings, env.source), proc);
        assert s.elements == chans;
        var n := |s.elements|;
        var i := 0;
        while i < n
          invariant s.Valid() && s.elements == out[proc].elements && s.dummy == out[proc].dummy
          invariant IsRankPermutation(s.rank, n)
        {
          var a := s.elements[i];
          var j := 0;
          while j < n
            invariant s.Valid() && s.elements == out[proc].elements && s.dummy == out[proc].dummy
            invariant IsRankPermutation(s.rank, n)
          {
            var b := s.elements[j];
            if a < env.noChannels && b < env.noChannels {
              assert a in chans && b in chans;
              var dstB := env.destination[b];
              var dstA := env.destination[a];
              var srcB := env.source[b];
              var srcA := env.source[a];
              var rankA := s.GetRankById(i);
              var rankB := s.GetRankById(j);
              var procA := p.procMappings[srcA];
              var procB := p.procMappings[srcB];
              var rankSrcA := RankByElement(p.procSched[procA], srcA);
              var rankSrcB := RankByElement(p.procSched[procB], srcB);
              if (dstA == dstB && rankA.value < rankB.value && env.dependsOn(dstA, dstB)) ||
                 (rankSrcA.value < rankSrcB.value && rankA.value > rankB.value)
              {
                var coin := RandomBool();
                if coin {
                  s.SwitchRanks(i, j);
                }
              }
            }
            j := j + 1;
          }
          i := i + 1;
        }
        out := out[proc := s.Value()];
        proc := proc + 1;
      }
      q := p.(sendSched := out);
    }

    /**
     * `repair_rec_sched`: normalise every receiving schedule's ranks, then
     * for each ordered pair of channels whose source actors share a
     * processor, swap their receive ranks on a coin flip when they are
     * received in the opposite order from the one they are sent in.
     */
    method RepairRecSched(p: Position) returns (q: Position)
      requires env.Valid() && SchedulesFit(env, p)
      ensures q == p.(recSched := q.recSched)
      ensures SameSets(p.recSched, q.recSched) && Ranked(q.recSched)
    {
      var out := p.recSched;
      var proc := 0;
      while proc < |out|
        invariant 0 <= proc <= |out|
        invariant SameSets(p.recSched, out)
        invariant forall k :: 0 <= k < proc ==> IsRankPermutation(out[k].rank, |out[k].elements|)
      {
        var s := NormaliseRanks(out[proc]);
        ghost var chans := IndicesOf(EndpointProcs(p.procMappings, env.destination), proc);
        assert s.elements == chans;
        var n := |s.elements|;
        var i := 0;
        while i < n
          invariant s.Valid() && s.elements == out[proc].elements && s.dummy == out[proc].dummy
          invariant IsRankPermutation(s.rank, n)
        {
          var a := s.elements[i];
          var j := 0;
          while j < n
            invariant s.Valid() && s.elements == out[proc].elements && s.dummy == out[proc].dummy
            invariant IsRankPermutation(s.rank, n)
          {
            var b := s.elements[j];
            if a < env.noChannels && b < env.noChannels {
              assert a in chans && b in chans;
              var srcB := env.source[b];
              var srcA := env.source[a];
              var procA := p.procMappings[srcA];
              var procB := p.procMappings[srcB];
              if procA == procB {
                assert a in IndicesOf(EndpointProcs(p.procMappings, env.source), procA);
                assert b in IndicesOf(EndpointProcs(p.procMappings, env.source), procB);
                var rankSrcA := RankByElement(p.sendSched[procA], a);
                var rankSrcB := RankByElement(p.sendSched[procB], b);
                var rankA := s.GetRankById(i);
                var rankB := s.GetRankById(j);
                if rankSrcA.value < rankSrcB.value && rankA.value > rankB.value {
                  var coin := RandomBool();
                  if coin {
                    s.SwitchRanks(i, j);
                  }
                }
              }
            }
            j := j + 1;
          }
          i := i + 1;
        }
        out := out[proc := s.Value()];
        proc := proc + 1;
      }
      q := p.(recSched := out);
    }

    /**
     * `repair`: clamp the mapping into the processors and each mode into
     * the processor's modes, then repair the TDMA allocation and the three
     * schedule lists. Fails exactly when the TDMA reduction would not end.
     */
    method Repair(p: Position) returns (res: Result<Position>)
      requires env.Valid() && env.noProcessors >= 1 && |p.procMappings| == env.noActors
      requires |p.procModes| >= env.noProcessors && |p.tdmaAlloc| >= env.noProcessors
      requires SchedulesFit(env, p)
      ensures res.Success? <==>
        TdmaEnds(env, ClampAll(p.procMappings, 0, env.noProcessors - 1), p.tdmaAlloc)
      ensures res.Success? ==> Repaired(env, p, res.value)
      ensures res.Success? ==> Mapped(env, res.value) && SchedulesFit(env, res.value)
    {
      var m := BringVToBound(p.procMappings, 0, env.noProcessors - 1);
      assert m == ClampAll(p.procMappings, 0, env.noProcessors - 1);
      if Mapped(env, p) {
        ClampMapped(env, p);
      }
      var modes := ClampModes(p.procModes, env.modes);
      var p1 := p.(procMappings := m, procModes := modes);
      var t := RepairTdma(p1);
      if t.Failure? {
        return t;
      }
      FitKept(env, p, t.value);
      var q := RepairSchedules(t.value);
      RepairedBySteps(env, p, p1, t.value, q);
      return Success(q);
    }

    /** The three schedule passes at the end of `repair`. */
    method RepairSchedules(p: Position) returns (q: Position)
      requires env.Valid() && SchedulesFit(env, p)
      ensures q == p.(procSched := q.procSched, sendSched := q.sendSched, recSched := q.recSched)
      ensures SameSets(p.procSched, q.procSched) && Ranked(q.procSched)
      ensures SameSets(p.sendSched, q.sendSched) && Ranked(q.sendSched)
      ensures SameSets(p.recSched, q.recSched) && Ranked(q.recSched)
      ensures SchedulesFit(env, q)
    {
      var p2 := RepairSched(p);
      SameSetsKeepFit(env, p, p2);
      var p3 := RepairSendSched(p2);
      SameSetsKeepFit(env, p2, p3);
      q := RepairRecSched(p3);
      SameSetsKeepFit(env, p3, q);
    }

    /** `get_next`, built by the loops of the source (see NextArray). */
    method GetNext(l: seq<Sched>, n: nat) returns (res: Result<seq<int>>)
      requires AllWellFormed(l) && |l| == env.noProcessors && |l| >= 1
      requires ElementsBelow(l, n + |l|)
      ensures res.Success? <==> LookupsSucceed(l)
      ensures res.Success? ==> res.value == NextArray(l, n)
    {
      var written := WriteElements(l, n + env.noProcessors);
      if written.Failure? {
        return Failure(written.error);
      }
      var (next, low) := written.value;
      var linked := LinkDummies(next, low, n);
      LinkedIsNextArray(l, n, next, low, linked);
      return Success(linked);
    }

    /**
     * `calc_fitness`, with the design analysis given as `evaluate`: a
     * failing successor lookup or design analysis leaves everything as it
     * was (the source rethrows); otherwise the fitness takes the layout of
     * FitnessVector and the invalid-move counter grows while the first
     * entry is not positive and drops to 0 otherwise.
     */
    method CalcFitness(evaluate: DesignInput -> Result<Evaluation>) returns (ok: bool)
      requires Valid() && env.noProcessors >= 1 && Encoded(env, currentPosition)
      requires evaluate(InputOf(env, currentPosition)).Success? ==>
        |evaluate(InputOf(env, currentPosition)).value.periods| <= env.noEntities + 2
      modifies this
      ensures ok <==> evaluate(InputOf(env, old(currentPosition))).Success?
      ensures !ok ==> currentPosition == old(currentPosition) && noInvalidMoves == old(noInvalidMoves)
      ensures ok ==> (currentPosition ==
        old(currentPosition).(fitness := FitnessVector(env.noEntities, evaluate(InputOf(env, old(currentPosition))).value)))
      ensures ok ==> noInvalidMoves == if currentPosition.fitness[0] <= 0 then old(noInvalidMoves) + 1 else 0
      ensures bestGlobalPosition == old(bestGlobalPosition)
    {
      RankedLookupsSucceed(currentPosition.procSched);
      RankedLookupsSucceed(currentPosition.sendSched);
      RankedLookupsSucceed(currentPosition.recSched);
      EncodedElementsBelow(env, currentPosition);
      var next := GetNext(currentPosition.procSched, env.noActors);
      var sendNext := GetNext(currentPosition.sendSched, env.noChannels);
      var recNext := GetNext(currentPosition.recSched, env.noChannels);
      var design := evaluate(DesignInput(currentPosition.procMappings, currentPosition.procModes,
        next.value, sendNext.value, recNext.value, currentPosition.tdmaAlloc));
      if design.Failure? {
        return false;
      }
      var fitness := BuildFitness(env.noEntities, design.value);
      currentPosition := currentPosition.(fitness := fitness);
      if currentPosition.fitness[0] <= 0 {
        noInvalidMoves := noInvalidMoves + 1;
      } else {
        noInvalidMoves := 0;
      }
      return true;
    }
  }
}
