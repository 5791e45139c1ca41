// What a design reads from the applications and the platform mapping,
// and the vectors its constructor derives from a candidate solution
// (system/design.cpp: the constructors, check_inputs, init_vectors).
module DesignData {
  import opened Wrappers

  /** An SDF channel: its endpoints, initial tokens and message size. */
  datatype Channel = Channel(source: int, destination: int, initTokens: int, messageSize: int)

  /**
   * An edge of the mapping and scheduling aware graph (MSAG): its delay
   * (edge_weight) and tokens (edge_weight2). `home` is the vertex whose
   * component graph receives the edge when each group of co-mapped
   * applications gets a graph of its own.
   */
  datatype Edge = Edge(src: int, dst: int, delay: int, tokens: int, home: int)

  /**
   * The applications and the mapping as a design sees them. The tables of
   * the platform mapping are functions: `transferTime(ch, slots)` is
   * `wcTransferTimes(ch)[slots]`, `blockingTime(slots)` is
   * `wcBlockingTimes()[slots]`, `wcetOf(actor, proc, mode)` is `getWCET`,
   * `power(proc, mode)` is `getPowerCons(proc)[mode]`, and `mcr` is the
   * maximum cycle ratio of a graph given by its edges.
   */
  datatype Problem = Problem(
    noApps: nat,
    graphOf: seq<int>,
    sdfApps: nat,
    channels: seq<Channel>,
    noProcessors: nat,
    transferTime: (int, int) -> int,
    blockingTime: int -> int,
    memCode: (int, int) -> int,
    memData: (int, int) -> int,
    wcetOf: (int, int, int) -> int,
    power: (int, int) -> int,
    maxUtilization: real,
    mcr: seq<Edge> -> int)

  /**
   * The applications' actors are numbered application by application,
   * starting with application 0, so `sdfApps` is one more than the last
   * actor's application; every channel joins two actors of one application.
   */
  predicate ProblemValid(p: Problem)
  {
    Grouped(p.graphOf) && p.sdfApps == p.graphOf[|p.graphOf| - 1] + 1 &&
    forall i :: 0 <= i < |p.channels| ==>
      0 <= p.channels[i].source < |p.graphOf| && 0 <= p.channels[i].destination < |p.graphOf| &&
      p.graphOf[p.channels[i].source] == p.graphOf[p.channels[i].destination]
  }

  // ---------------------------------------------------------------------
  // appIndex

  /**
   * The actors `x < n` after which the application number goes up by
   * exactly one, in increasing order.
   */
  function Boundaries(g: seq<int>, n: nat): seq<int>
    requires n < |g|
  {
    if n == 0 then []
    else Boundaries(g, n - 1) + (if g[n - 1] + 1 == g[n] then [n - 1] else [])
  }

  /** `appIndex`: those boundaries, then the last actor. */
  function AppIndexOf(g: seq<int>): seq<int>
    requires |g| >= 1
  {
    Boundaries(g, |g| - 1) + [|g| - 1]
  }

  predicate StrictlyIncreasing(s: seq<int>)
  {
    forall i, j :: 0 <= i < j < |s| ==> s[i] < s[j]
  }

  lemma {:induction false} BoundariesFacts(g: seq<int>, n: nat)
    requires n < |g|
    ensures StrictlyIncreasing(Boundaries(g, n))
    ensures forall x :: x in Boundaries(g, n) ==> 0 <= x < n && g[x] + 1 == g[x + 1]
    ensures forall x :: 0 <= x < n && g[x] + 1 == g[x + 1] ==> x in Boundaries(g, n)
  {
    if n > 0 {
      BoundariesFacts(g, n - 1);
      var b := Boundaries(g, n - 1);
      var tail := if g[n - 1] + 1 == g[n] then [n - 1] else [];
      var r := Boundaries(g, n);
      assert r == b + tail;
      forall x | 0 <= x < n && g[x] + 1 == g[x + 1]
        ensures x in r
      {
        if x < n - 1 {
          assert x in b;
        } else {
          assert x in tail;
        }
      }
      forall i, j | 0 <= i < j < |r|
        ensures r[i] < r[j]
      {
        assert r[i] == b[i] && b[i] in b;
        if j < |b| {
          assert r[j] == b[j];
        } else {
          assert r[j] == tail[j - |b|] == n - 1;
        }
      }
    }
  }

  /**
   * `appIndex` ascends, ends with the last actor, and holds exactly the
   * actors followed by an actor of the next application number.
   */
  lemma AppIndexContents(g: seq<int>)
    requires |g| >= 1
    ensures StrictlyIncreasing(AppIndexOf(g)) && AppIndexOf(g)[|AppIndexOf(g)| - 1] == |g| - 1
    ensures forall x :: x in AppIndexOf(g) ==> (0 <= x < |g| - 1 && g[x] + 1 == g[x + 1]) || x == |g| - 1
    ensures forall x :: 0 <= x < |g| - 1 && g[x] + 1 == g[x + 1] ==> x in AppIndexOf(g)
  {
    BoundariesFacts(g, |g| - 1);
    var b := Boundaries(g, |g| - 1);
    var a := AppIndexOf(g);
    assert a == b + [|g| - 1];
    forall x | 0 <= x < |g| - 1 && g[x] + 1 == g[x + 1]
      ensures x in a
    {
      assert x in b;
    }
    forall i, j | 0 <= i < j < |a|
      ensures a[i] < a[j]
    {
      assert a[i] == b[i] && b[i] in b;
      if j < |b| {
        assert a[j] == b[j];
      }
    }
  }

  /**
   * Actors grouped by application: the first belongs to application 0 and
   * each next actor to the same application or the next one.
   */
  predicate Grouped(g: seq<int>)
  {
    |g| >= 1 && g[0] == 0 &&
    forall i :: 0 <= i < |g| - 1 ==> g[i + 1] == g[i] || g[i + 1] == g[i] + 1
  }

  lemma {:induction false} GroupedMonotone(g: seq<int>, i: nat, j: nat)
    requires Grouped(g) && i <= j < |g|
    ensures g[i] <= g[j] <= g[i] + (j - i)
    decreases j - i
  {
    if i < j {
      GroupedMonotone(g, i, j - 1);
    }
  }

  /** On grouped actors, the k-th boundary is the last actor of application k. */
  lemma {:induction false} BoundariesAreLastActors(g: seq<int>, n: nat)
    requires Grouped(g) && n < |g|
    ensures |Boundaries(g, n)| == g[n]
    ensures forall k :: 0 <= k < |Boundaries(g, n)| ==>
      var b := Boundaries(g, n)[k]; 0 <= b < n && g[b] == k && g[b + 1] == k + 1
  {
    if n > 0 {
      BoundariesAreLastActors(g, n - 1);
      GroupedMonotone(g, 0, n - 1);
    }
  }

  /**
   * On grouped actors, `appIndex[k]` is the last actor of application `k`
   * (the last actor of all, or one followed by application `k + 1`), and
   * there is one entry per application.
   */
  lemma AppIndexLastActors(g: seq<int>)
    requires Grouped(g)
    ensures |AppIndexOf(g)| == g[|g| - 1] + 1
    ensures forall k :: 0 <= k < |AppIndexOf(g)| ==>
      var b := AppIndexOf(g)[k];
      0 <= b < |g| && g[b] == k && (b == |g| - 1 || g[b + 1] == k + 1)
  {
    BoundariesAreLastActors(g, |g| - 1);
    var a := AppIndexOf(g);
    var bs := Boundaries(g, |g| - 1);
    forall k | 0 <= k < |a|
      ensures 0 <= a[k] < |g| && g[a[k]] == k && (a[k] == |g| - 1 || g[a[k] + 1] == k + 1)
    {
      if k < |bs| {
        assert a[k] == bs[k];
      }
    }
  }

  /** `getApp`'s search: the first entry not below `x`, or -1. */
  function FirstAtLeast(s: seq<int>, x: int): (k: int)
    ensures -1 <= k < |s|
    ensures k >= 0 ==> x <= s[k] && forall j :: 0 <= j < k ==> s[j] < x
    ensures k == -1 ==> forall j :: 0 <= j < |s| ==> s[j] < x
  {
    if s == [] then -1
    else if x <= s[0] then 0
    else var r := FirstAtLeast(s[1..], x); if r == -1 then -1 else r + 1
  }

  /** The search stops at the first entry not below `x`. */
  lemma {:induction false} FirstAtLeastAt(s: seq<int>, x: int, k: nat)
    requires k < |s| && x <= s[k] && forall j :: 0 <= j < k ==> s[j] < x
    ensures FirstAtLeast(s, x) == k
  {
    if k > 0 {
      FirstAtLeastAt(s[1..], x, k - 1);
    }
  }

  /** One entry of `appIndex` on grouped actors. */
  lemma AppIndexEntry(g: seq<int>, k: nat)
    requires Grouped(g) && k <= g[|g| - 1]
    ensures k < |AppIndexOf(g)|
    ensures var b := AppIndexOf(g)[k];
      0 <= b < |g| && g[b] == k && (b == |g| - 1 || g[b + 1] == k + 1)
  {
    AppIndexLastActors(g);
  }

  /** Entries of `appIndex` before the actor's application lie before the actor. */
  lemma EarlierEntriesBelow(g: seq<int>, x: nat, j: nat)
    requires Grouped(g) && x < |g| && j < g[x]
    ensures j < |AppIndexOf(g)| && AppIndexOf(g)[j] < x
  {
    GroupedMonotone(g, x, |g| - 1);
    AppIndexEntry(g, j);
    var b := AppIndexOf(g)[j];
    if b >= x {
      GroupedMonotone(g, x, b);
    }
  }

  /** On grouped actors, the search of `appIndex` finds the actor's own application. */
  lemma AppOfActor(g: seq<int>, x: nat)
    requires Grouped(g) && x < |g|
    ensures FirstAtLeast(AppIndexOf(g), x) == g[x]
  {
    var a := AppIndexOf(g);
    var k := g[x];
    GroupedMonotone(g, x, |g| - 1);
    GroupedMonotone(g, 0, x);
    AppIndexEntry(g, k);
    var b := a[k];
    if b < x {
      GroupedMonotone(g, b + 1, x);
    }
    forall j | 0 <= j < k
      ensures a[j] < x
    {
      EarlierEntriesBelow(g, x, j);
    }
    FirstAtLeastAt(a, x, k);
  }

  // ---------------------------------------------------------------------
  // init_vectors

  /**
   * Every actor is mapped to one of the platform's processors, each
   * processor has a mode and a TDMA allocation, and each channel a send
   * and a receive buffer size.
   */
  predicate DecisionsInRange(p: Problem, procMappings: seq<int>, procModes: seq<int>, tdmaAlloc: seq<int>,
                             sendbufferSz: seq<int>)
  {
    ProblemValid(p) &&
    |procMappings| == |p.graphOf| && |procModes| == p.noProcessors && |tdmaAlloc| == p.noProcessors &&
    |sendbufferSz| == |p.channels| &&
    forall i :: 0 <= i < |procMappings| ==> 0 <= procMappings[i] < p.noProcessors
  }

  /** Channel `i` crosses processors. */
  predicate Cross(p: Problem, pm: seq<int>, i: nat)
    requires ProblemValid(p) && |pm| == |p.graphOf| && i < |p.channels|
  {
    pm[p.channels[i].source] != pm[p.channels[i].destination]
  }

  /** `sendingTime[i]`: the transfer time for the source processor's slots, 0 on one processor. */
  function SendingTimeOf(p: Problem, pm: seq<int>, tdma: seq<int>, i: nat): int
    requires ProblemValid(p) && |pm| == |p.graphOf| && i < |p.channels|
    requires forall a :: 0 <= a < |pm| ==> 0 <= pm[a] < |tdma|
  {
    if Cross(p, pm, i) then p.transferTime(i, tdma[pm[p.channels[i].source]]) else 0
  }

  /** `sendingLatency[i]`: the blocking time for the source processor's slots, 0 on one processor. */
  function SendingLatencyOf(p: Problem, pm: seq<int>, tdma: seq<int>, i: nat): int
    requires ProblemValid(p) && |pm| == |p.graphOf| && i < |p.channels|
    requires forall a :: 0 <= a < |pm| ==> 0 <= pm[a] < |tdma|
  {
    if Cross(p, pm, i) then p.blockingTime(tdma[pm[p.channels[i].source]]) else 0
  }

  /** The send buffer after init_vectors: emptied for a channel on one processor. */
  function SendBufferOf(p: Problem, pm: seq<int>, buf: seq<int>, i: nat): int
    requires ProblemValid(p) && |pm| == |p.graphOf| && i < |p.channels| && |buf| == |p.channels|
  {
    if Cross(p, pm, i) then buf[i] else 0
  }

  /** The memory channel `i` charges to processor `proc`: its message size when an endpoint is there. */
  function ChannelCharge(p: Problem, pm: seq<int>, i: nat, proc: int): int
    requires ProblemValid(p) && |pm| == |p.graphOf| && i < |p.channels|
  {
    var ch := p.channels[i];
    if pm[ch.source] == proc || pm[ch.destination] == proc then ch.messageSize else 0
  }

  /** The memory the first `n` channels charge to `proc`. */
  function ChannelMem(p: Problem, pm: seq<int>, n: nat, proc: int): int
    requires ProblemValid(p) && |pm| == |p.graphOf| && n <= |p.channels|
  {
    if n == 0 then 0 else ChannelMem(p, pm, n - 1, proc) + ChannelCharge(p, pm, n - 1, proc)
  }

  /** The code and data memory of the first `n` actors mapped to `proc`. */
  function ActorMem(p: Problem, pm: seq<int>, n: nat, proc: int): int
    requires n <= |pm|
  {
    if n == 0 then 0
    else
      ActorMem(p, pm, n - 1, proc) +
      (if pm[n - 1] == proc then p.memCode(n - 1, proc) + p.memData(n - 1, proc) else 0)
  }

  /** Processor `proc`'s memory consumption: its channels' messages and its actors' code and data. */
  function MemConsOf(p: Problem, pm: seq<int>, proc: int): int
    requires ProblemValid(p) && |pm| == |p.graphOf|
  {
    ChannelMem(p, pm, |p.channels|, proc) + ActorMem(p, pm, |pm|, proc)
  }

  /** `wcet[i]`: the actor's WCET on its processor in that processor's mode. */
  function WcetOf(p: Problem, pm: seq<int>, modes: seq<int>, i: nat): int
    requires i < |pm| && 0 <= pm[i] < |modes|
  {
    p.wcetOf(i, pm[i], modes[pm[i]])
  }

  /** The charges of channel `i` to the processors below `n`. */
  function ChargeTotal(p: Problem, pm: seq<int>, i: nat, n: nat): int
    requires ProblemValid(p) && |pm| == |p.graphOf| && i < |p.channels|
  {
    if n == 0 then 0 else ChargeTotal(p, pm, i, n - 1) + ChannelCharge(p, pm, i, n - 1)
  }

  lemma {:induction false} ChargeTotalCount(p: Problem, pm: seq<int>, i: nat, n: nat)
    requires ProblemValid(p) && |pm| == |p.graphOf| && i < |p.channels|
    ensures var ch := p.channels[i]; var s := pm[ch.source]; var d := pm[ch.destination];
      ChargeTotal(p, pm, i, n) ==
        ((if 0 <= s < n then 1 else 0) + (if 0 <= d < n && d != s then 1 else 0)) * ch.messageSize
  {
    if n > 0 {
      ChargeTotalCount(p, pm, i, n - 1);
    }
  }

  /**
   * Summed over the processors, a channel between two processors is
   * charged twice and a channel on one processor once.
   */
  lemma ChannelChargedPerEndpoint(p: Problem, pm: seq<int>, i: nat)
    requires ProblemValid(p) && |pm| == |p.graphOf| && i < |p.channels|
    requires forall a :: 0 <= a < |pm| ==> 0 <= pm[a] < p.noProcessors
    ensures ChargeTotal(p, pm, i, p.noProcessors) ==
      (if Cross(p, pm, i) then 2 else 1) * p.channels[i].messageSize
  {
    ChargeTotalCount(p, pm, i, p.noProcessors);
  }

  // ---------------------------------------------------------------------
  // The constructor's loops

  /** The constructor's `appIndex` loop. */
  method AppIndexLoop(g: seq<int>) returns (a: seq<int>)
    requires |g| >= 1
    ensures a == AppIndexOf(g)
  {
    a := [];
    var ii := 0;
    while ii < |g| - 1
      invariant 0 <= ii <= |g| - 1
      invariant a == Boundaries(g, ii)
    {
      if g[ii] + 1 == g[ii + 1] {
        a := a + [ii];
      }
      ii := ii + 1;
    }
    a := a + [|g| - 1];
  }

  /** The per-channel and per-actor vectors init_vectors fills. */
  datatype Vectors = Vectors(sendingTime: seq<int>, sendingLatency: seq<int>, receivingTime: seq<int>,
                             sendbufferSz: seq<int>, memCons: seq<int>, wcet: seq<int>)

  /** What init_vectors computes, entry by entry. */
  predicate VectorsOf(p: Problem, pm: seq<int>, modes: seq<int>, tdma: seq<int>, buf: seq<int>, v: Vectors)
    requires DecisionsInRange(p, pm, modes, tdma, buf)
  {
    |v.sendingTime| == |p.channels| && |v.sendingLatency| == |p.channels| &&
    |v.receivingTime| == |p.channels| && |v.sendbufferSz| == |p.channels| &&
    |v.memCons| == p.noProcessors && |v.wcet| == |pm| &&
    (forall i :: 0 <= i < |p.channels| ==>
      v.sendingTime[i] == SendingTimeOf(p, pm, tdma, i) && v.sendingLatency[i] == SendingLatencyOf(p, pm, tdma, i) &&
      v.receivingTime[i] == 0 && v.sendbufferSz[i] == SendBufferOf(p, pm, buf, i)) &&
    (forall q :: 0 <= q < p.noProcessors ==> v.memCons[q] == MemConsOf(p, pm, q)) &&
    (forall a :: 0 <= a < |pm| ==> v.wcet[a] == WcetOf(p, pm, modes, a))
  }

  /** One channel's charges: its message size on each processor holding one of its endpoints. */
  lemma ChargeStep(p: Problem, pm: seq<int>, i: nat, ps: int, pd: int, mem0: seq<int>, mem: seq<int>)
    requires ProblemValid(p) && |pm| == |p.graphOf| && i < |p.channels|
    requires ps == pm[p.channels[i].source] && pd == pm[p.channels[i].destination]
    requires 0 <= ps < |mem0| && 0 <= pd < |mem0|
    requires forall q :: 0 <= q < |mem0| ==> mem0[q] == ChannelMem(p, pm, i, q)
    requires ps != pd ==>
      mem == mem0[ps := mem0[ps] + p.channels[i].messageSize][pd := mem0[pd] + p.channels[i].messageSize]
    requires ps == pd ==> mem == mem0[ps := mem0[ps] + p.channels[i].messageSize]
    ensures forall q :: 0 <= q < |mem| ==> mem[q] == ChannelMem(p, pm, i + 1, q)
  {
  }

  /** The channel vectors after the first `i` channels. */
  predicate TimesUpTo(p: Problem, pm: seq<int>, tdma: seq<int>, buf: seq<int>, i: nat,
                      st: seq<int>, sl: seq<int>, rt: seq<int>, sb: seq<int>)
    requires ProblemValid(p) && |pm| == |p.graphOf| && i <= |p.channels| && |buf| == |p.channels|
    requires forall a :: 0 <= a < |pm| ==> 0 <= pm[a] < |tdma|
  {
    |st| == |sl| == |rt| == i && |sb| == |p.channels| &&
    (forall j :: 0 <= j < i ==>
      st[j] == SendingTimeOf(p, pm, tdma, j) && sl[j] == SendingLatencyOf(p, pm, tdma, j) &&
      rt[j] == 0 && sb[j] == SendBufferOf(p, pm, buf, j)) &&
    sb[i..] == buf[i..]
  }

  lemma TimesStep(p: Problem, pm: seq<int>, tdma: seq<int>, buf: seq<int>, i: nat,
                  st: seq<int>, sl: seq<int>, rt: seq<int>, sb: seq<int>,
                  st': seq<int>, sl': seq<int>, rt': seq<int>, sb': seq<int>)
    requires ProblemValid(p) && |pm| == |p.graphOf| && i < |p.channels| && |buf| == |p.channels|
    requires forall a :: 0 <= a < |pm| ==> 0 <= pm[a] < |tdma|
    requires TimesUpTo(p, pm, tdma, buf, i, st, sl, rt, sb)
    requires st' == st + [SendingTimeOf(p, pm, tdma, i)] && sl' == sl + [SendingLatencyOf(p, pm, tdma, i)]
    requires rt' == rt + [0] && |sb'| == |sb| && sb'[i] == SendBufferOf(p, pm, buf, i)
    requires forall j :: 0 <= j < |sb| && j != i ==> sb'[j] == sb[j]
    ensures TimesUpTo(p, pm, tdma, buf, i + 1, st', sl', rt', sb')
  {
    assert sb'[i + 1..] == buf[i + 1..] by {
      assert sb[i + 1..] == buf[i + 1..];
    }
  }

  /** The memory the first `i` channels charge to each processor. */
  predicate MemUpTo(p: Problem, pm: seq<int>, i: nat, mem: seq<int>)
    requires ProblemValid(p) && |pm| == |p.graphOf| && i <= |p.channels|
  {
    |mem| == p.noProcessors && forall q :: 0 <= q < p.noProcessors ==> mem[q] == ChannelMem(p, pm, i, q)
  }

  /** init_vectors' channel loop: times, buffers and the channels' memory. */
  method ChannelVectors(p: Problem, pm: seq<int>, modes: seq<int>, tdma: seq<int>, buf: seq<int>)
    returns (st: seq<int>, sl: seq<int>, rt: seq<int>, sb: seq<int>, mem: seq<int>)
    requires DecisionsInRange(p, pm, modes, tdma, buf)
    ensures |st| == |sl| == |rt| == |sb| == |p.channels| && |mem| == p.noProcessors
    ensures forall i :: 0 <= i < |p.channels| ==>
      st[i] == SendingTimeOf(p, pm, tdma, i) && sl[i] == SendingLatencyOf(p, pm, tdma, i) &&
      rt[i] == 0 && sb[i] == SendBufferOf(p, pm, buf, i)
    ensures forall q :: 0 <= q < p.noProcessors ==> mem[q] == ChannelMem(p, pm, |p.channels|, q)
  {
    st, sl, rt, sb := [], [], [], buf;
    mem := seq(p.noProcessors, _ => 0);
    for i := 0 to |p.channels|
      invariant |st| == |sl| == |rt| == i && |sb| == |p.channels| && |mem| == p.noProcessors
      invariant TimesUpTo(p, pm, tdma, buf, i, st, sl, rt, sb)
      invariant MemUpTo(p, pm, i, mem)
    {
      var ch := p.channels[i];
      var ps, pd := pm[ch.source], pm[ch.destination];
      var mem0, st0, sl0, rt0, sb0 := mem, st, sl, rt, sb;
      if ps != pd {
        st := st + [p.transferTime(i, tdma[ps])];
        sl := sl + [p.blockingTime(tdma[ps])];
        mem := mem[ps := mem[ps] + ch.messageSize];
        mem := mem[pd := mem[pd] + ch.messageSize];
      } else {
        st := st + [0];
        sl := sl + [0];
        sb := sb[i := 0];
        mem := mem[ps := mem[ps] + ch.messageSize];
      }
      ChargeStep(p, pm, i, ps, pd, mem0, mem);
      rt := rt + [0];
      TimesStep(p, pm, tdma, buf, i, st0, sl0, rt0, sb0, st, sl, rt, sb);
    }
  }

  /**
   * init_vectors: the channel loop, then the actors' memory and WCETs.
   * A negative WCET throws.
   */
  method InitVectors(p: Problem, pm: seq<int>, modes: seq<int>, tdma: seq<int>, buf: seq<int>)
    returns (r: Result<Vectors>)
    requires DecisionsInRange(p, pm, modes, tdma, buf)
    ensures r.Success? <==> forall a :: 0 <= a < |pm| ==> WcetOf(p, pm, modes, a) >= 0
    ensures r.Success? ==> VectorsOf(p, pm, modes, tdma, buf, r.value)
  {
    var st, sl, rt, sb, mem := ChannelVectors(p, pm, modes, tdma, buf);
    var wcet := seq(|pm|, _ => 0);
    for i := 0 to |pm|
      invariant |mem| == p.noProcessors && |wcet| == |pm|
      invariant forall q :: 0 <= q < p.noProcessors ==>
        mem[q] == ChannelMem(p, pm, |p.channels|, q) + ActorMem(p, pm, i, q)
      invariant forall a :: 0 <= a < i ==> wcet[a] == WcetOf(p, pm, modes, a) && wcet[a] >= 0
    {
      var proc := pm[i];
      mem := mem[proc := mem[proc] + p.memCode(i, proc) + p.memData(i, proc)];
      wcet := wcet[i := p.wcetOf(i, proc, modes[proc])];
      if wcet[i] < 0 {
        assert WcetOf(p, pm, modes, i) < 0;
        return Failure("wcet[i] < 0");
      }
    }
    r := Success(Vectors(st, sl, rt, sb, mem, wcet));
  }
}
