// constructMSAG (system/design.cpp) as the loops that build the graph,
// each proved to compute the functions of module Msag. A graph is built
// as values: the vertices' self-loops (rewritten in place when a
// channel's delays are known) and the list of the other edges, each
// tagged with the vertex whose graph receives it.
module MsagBuild {
  import opened Wrappers
  import opened DesignData
  import opened Msag
  import Schedules
  import SuccessorArrays

  /**
   * The first pass: `n_msagActors` and `channelMapping`, three entries
   * per channel on the interconnect.
   */
  method CountVertices(m: MsagInput) returns (size: nat, cm: seq<int>)
    requires Shaped(m)
    ensures cm == Mapping(m) && size == Size(m)
  {
    size := m.noActors;
    cm := [];
    var i := 0;
    while i < |m.sendingTime|
      invariant 0 <= i <= |m.sendingTime|
      invariant cm == MappingOf(m.sendingTime, i) && size == m.noActors + |cm|
    {
      if m.sendingTime[i] > 0 {
        size := size + 3;
        cm := cm + [i];
        cm := cm + [i];
        cm := cm + [i];
        assert cm == MappingOf(m.sendingTime, i) + [i, i, i];
      }
      i := i + 1;
    }
  }

  /** Every vertex with its self-loop: an actor's carries its WCET, a communication vertex's 0 for now. */
  method AddVertices(m: MsagInput, size: nat) returns (loops: seq<Edge>)
    requires Shaped(m) && size == Size(m)
    ensures loops == InitialLoops(m)
  {
    loops := [];
    var n := 0;
    while n < size
      invariant 0 <= n <= size && |loops| == n
      invariant forall v :: 0 <= v < n ==>
        loops[v] == Edge(v, v, if v < m.noActors then m.wcet[v] else 0, 1, v)
    {
      if n < m.noActors {
        loops := loops + [Edge(n, n, m.wcet[n], 1, n)];
      } else {
        loops := loops + [Edge(n, n, 0, 1, n)];
      }
      n := n + 1;
    }
    var init := InitialLoops(m);
    forall v | 0 <= v < size
      ensures loops[v] == init[v]
    {
    }
  }

  /**
   * Step 1: per channel on the interconnect, the delays of its three
   * vertices' self-loops, its six edges and the destination's receive
   * vertex; per channel on one processor with initial tokens, the edge
   * from its source to its destination.
   */
  method ChannelsStep(m: MsagInput, cm: seq<int>, loops0: seq<Edge>)
    returns (loops: seq<Edge>, added: seq<Edge>, ra: seq<int>)
    requires Shaped(m) && cm == Mapping(m) && loops0 == InitialLoops(m)
    ensures loops + added == Step1Edges(m, |m.channels|)
    ensures ra == Receivers(m, |m.channels|)
  {
    loops, added := loops0, [];
    ra := seq(m.noActors, _ => -1);
    var channelCount := 0;
    var i := 0;
    while i < |m.sendingTime|
      invariant 0 <= i <= |m.channels|
      invariant channelCount == 3 * |Interconnect(m.sendingTime, i)|
      invariant loops == Step1Loops(m, i) && added == Step1Added(m, i) && ra == Receivers(m, i)
    {
      var ch := m.channels[i];
      Step1Next(m, i);
      if m.sendingTime[i] > 0 {
        loops, added, ra := InterconnectChannel(m, cm, loops, added, ra, i, channelCount);
        channelCount := channelCount + 3;
      } else if m.sendingTime[i] == 0 {
        if ch.initTokens > 0 {
          added := added + [Edge(ch.source, ch.destination, m.wcet[ch.destination], ch.initTokens, ch.source)];
        }
      }
      i := i + 1;
    }
    assert i == |m.channels|;
  }

  /** How step 1 over the channels below `i + 1` extends step 1 over those below `i`. */
  lemma Step1Next(m: MsagInput, i: nat)
    requires Shaped(m) && i < |m.channels|
    ensures Interconnect(m.sendingTime, i + 1) ==
      Interconnect(m.sendingTime, i) + (if m.sendingTime[i] > 0 then [i] else [])
    ensures Step1Added(m, i + 1) == Step1Added(m, i) + ChannelEdges(m, i)
    ensures m.sendingTime[i] > 0 ==>
      Step1Loops(m, i + 1) ==
        SetLoops(Step1Loops(m, i), BlockOf(m, i), m.sendingLatency[i], m.sendingTime[i], m.receivingTime[i]) &&
      Receivers(m, i + 1) == NextReceiver(m, Receivers(m, i), i, RecActor(Mapping(m), m.noActors, i))
    ensures m.sendingTime[i] <= 0 ==> Step1Loops(m, i + 1) == Step1Loops(m, i) && Receivers(m, i + 1) == Receivers(m, i)
  {
  }

  /** Step 1a for interconnect channel `i`, whose vertices start at `noActors + channelCount`. */
  method InterconnectChannel(m: MsagInput, cm: seq<int>, loops0: seq<Edge>, added0: seq<Edge>, ra0: seq<int>,
                             i: nat, channelCount: nat)
    returns (loops: seq<Edge>, added: seq<Edge>, ra: seq<int>)
    requires Shaped(m) && cm == Mapping(m) && i < |m.channels| && m.sendingTime[i] > 0
    requires channelCount == 3 * |Interconnect(m.sendingTime, i)| && |loops0| == Size(m) && ReceiversOk(m, ra0)
    ensures loops == SetLoops(loops0, BlockOf(m, i), m.sendingLatency[i], m.sendingTime[i], m.receivingTime[i])
    ensures added == added0 + InterconnectEdges(m, i, |Interconnect(m.sendingTime, i)|)
    ensures ra == NextReceiver(m, ra0, i, RecActor(cm, m.noActors, i))
  {
    ChannelVertices(m.sendingTime, m.noActors, i);
    var ch := m.channels[i];
    var blk := m.noActors + channelCount;
    assert blk == BlockOf(m, i);
    var snd := blk + 1;
    var rec := snd + 1;
    loops, added := loops0, added0;
    added := added + [Edge(ch.source, blk, m.sendingLatency[i], 0, ch.source)];
    loops := loops[blk := loops[blk].(delay := m.sendingLatency[i])];
    added := added + [Edge(blk, ch.source, m.wcet[ch.source], m.sendbufferSz[i], blk)];
    added := added + [Edge(blk, snd, m.sendingTime[i], 0, blk)];
    loops := loops[snd := loops[snd].(delay := m.sendingTime[i])];
    added := added + [Edge(snd, blk, m.sendingLatency[i], 1, snd)];
    added := added + [Edge(snd, rec, m.receivingTime[i], ch.initTokens, snd)];
    loops := loops[rec := loops[rec].(delay := m.receivingTime[i])];
    ra := RecordReceiver(m, cm, ra0, i, rec);
    added := added + [Edge(rec, snd, m.sendingTime[i], m.recbufferSz[i] - ch.initTokens, rec)];
  }

  /** Step 1a's update of `receivingActors` for channel `i`, whose receive vertex is `rec`. */
  method RecordReceiver(m: MsagInput, cm: seq<int>, ra0: seq<int>, i: nat, rec: int) returns (ra: seq<int>)
    requires Shaped(m) && cm == Mapping(m) && i < |m.channels| && ReceiversOk(m, ra0)
    requires m.sendingTime[i] > 0 && rec == RecActor(cm, m.noActors, i)
    ensures ra == NextReceiver(m, ra0, i, rec)
  {
    ChannelVertices(m.sendingTime, m.noActors, i);
    ra := ra0;
    var d := m.channels[i].destination;
    if ra[d] == -1 {
      ra := ra[d := rec];
    } else {
      var curRecActorCh := cm[ra[d] - m.noActors];
      if m.receivingNext[curRecActorCh] < |m.channels| {
        if m.channels[m.receivingNext[curRecActorCh]].destination != d {
          ra := ra[d := rec];
        }
      } else {
        ra := ra[d := rec];
      }
      if m.receivingNext[cm[rec - m.noActors]] == ra[d] {
        ra := ra[d := rec];
      }
    }
  }

  /**
   * The search loop of the sending-order pass for the channel `x0`: the
   * next interconnect channel along `sendingNext` and whether the edge
   * closes the processor's cycle. The loop runs at most `SendFuel` rounds;
   * where the source would go round forever it fails.
   */
  method FindNextSend(m: MsagInput, x0: nat) returns (r: Result<(int, int)>)
    requires Shaped(m) && x0 < |m.channels|
    ensures r == SendWalk(m, x0, 0, SendFuel(m))
  {
    var c := |m.channels|;
    var x := x0;
    var tokens := 0;
    var fuel := SendFuel(m);
    var nextFound := false;
    var nextCh := 0;
    while !nextFound
      invariant 0 <= x < c
      invariant !nextFound ==> SendWalk(m, x, tokens, fuel) == SendWalk(m, x0, 0, SendFuel(m))
      invariant nextFound ==> Success((nextCh, tokens)) == SendWalk(m, x0, 0, SendFuel(m))
      decreases fuel, !nextFound
    {
      if fuel == 0 {
        return Failure("the sending order does not reach an interconnect channel");
      }
      nextCh := m.sendingNext[x];
      if nextCh >= c {
        ghost var dummy := DummyOf(nextCh, c, m.noProcessors);
        if nextCh > c {
          nextCh := c + (nextCh - c - 1) % m.noProcessors;
        } else {
          nextCh := c + m.noProcessors - 1;
        }
        assert nextCh == dummy;
        tokens := 1;
        nextCh := m.sendingNext[nextCh];
        if nextCh >= c {
          assert SendWalk(m, x, tokens, fuel) == Failure("sendingTime read past the channels");
          return Failure("sendingTime read past the channels");
        }
        if m.sendingTime[nextCh] > 0 {
          nextFound := true;
        } else {
          x := nextCh;
        }
      } else {
        if m.sendingTime[nextCh] > 0 {
          nextFound := true;
          if tokens != 1 {
            tokens := 0;
          }
        } else {
          x := nextCh;
        }
      }
      fuel := fuel - 1;
    }
    r := Success((nextCh, tokens));
  }

  /**
   * The search loop of the receiving-order pass for the channel `x0`: the
   * next interconnect channel into the same destination along
   * `receivingNext`, or -1.
   */
  method FindNextReceive(m: MsagInput, x0: nat) returns (r: Result<int>)
    requires Shaped(m) && x0 < |m.channels|
    ensures r == RecWalk(m, x0, m.channels[x0].destination, RecFuel(m))
  {
    var c := |m.channels|;
    var dst := m.channels[x0].destination;
    var x := x0;
    var fuel := RecFuel(m);
    var nextFound := false;
    var nextCh := 0;
    while !nextFound
      invariant 0 <= x < c
      invariant !nextFound ==> RecWalk(m, x, dst, fuel) == RecWalk(m, x0, dst, RecFuel(m))
      invariant nextFound ==> Success(nextCh) == RecWalk(m, x0, dst, RecFuel(m))
      decreases fuel, !nextFound
    {
      if fuel == 0 {
        return Failure("the receiving order does not end");
      }
      nextCh := m.receivingNext[x];
      if nextCh >= c {
        nextCh := -1;
        nextFound := true;
      } else if m.channels[nextCh].destination != dst {
        nextCh := -1;
        nextFound := true;
      } else if m.sendingTime[nextCh] > 0 {
        nextFound := true;
      } else {
        x := nextCh;
      }
      fuel := fuel - 1;
    }
    r := Success(nextCh);
  }

  /** The edge (if any) the sending-order pass adds for the send vertex at `channelMapping` entry `i`. */
  method SendEdgeAt(m: MsagInput, cm: seq<int>, k: nat, i: nat) returns (r: Result<seq<Edge>>)
    requires Shaped(m) && cm == Mapping(m) && i == 3 * k + 1 < |cm|
    ensures k < |Ic(m)| && r == SendEdge(m, k)
  {
    MappingAt(m, k, 1);
    var w := FindNextSend(m, cm[i]);
    if w.Failure? {
      return Failure(w.error);
    }
    var nextCh := w.value.0;
    var tokens := w.value.1;
    if cm[i] != nextCh {
      var blockActor := BlockActor(cm, m.noActors, nextCh);
      r := Success([Edge(i + m.noActors, blockActor, m.sendingLatency[nextCh], tokens, blockActor)]);
    } else {
      r := Success([]);
    }
  }

  /** The sending-order pass over the send vertices (every third entry of `channelMapping` from 1). */
  method SendPass(m: MsagInput, cm: seq<int>) returns (r: Result<seq<Edge>>)
    requires Shaped(m) && cm == Mapping(m)
    ensures r == SendPhase(m, |Ic(m)|)
  {
    MappingLength(m);
    var es := [];
    var i := 1;
    var k := 0;
    while i < |cm|
      invariant i == 3 * k + 1 && k <= |Ic(m)|
      invariant SendPhase(m, k) == Success(es)
    {
      var e := SendEdgeAt(m, cm, k, i);
      SendPhaseNext(m, k);
      if e.Failure? {
        SendPhaseFails(m, k + 1, |Ic(m)|);
        return Failure(e.error);
      }
      es := es + e.value;
      i, k := i + 3, k + 1;
    }
    r := Success(es);
  }

  /** The edge the receiving-order pass adds for the receive vertex at `channelMapping` entry `i`. */
  method RecEdgeAt(m: MsagInput, cm: seq<int>, k: nat, i: nat) returns (r: Result<Edge>)
    requires Shaped(m) && cm == Mapping(m) && i == 3 * k + 2 < |cm|
    ensures k < |Ic(m)| && r == RecEdge(m, k)
  {
    MappingAt(m, k, 2);
    var w := FindNextReceive(m, cm[i]);
    if w.Failure? {
      return Failure(w.error);
    }
    var nextCh := w.value;
    var tmp := i + m.noActors;
    var dst := m.channels[cm[i]].destination;
    if nextCh == -1 {
      r := Success(Edge(tmp, dst, m.wcet[dst], 0, tmp));
    } else {
      r := Success(Edge(tmp, RecActor(cm, m.noActors, nextCh), m.receivingTime[nextCh], 0, tmp));
    }
  }

  /** The receiving-order pass over the receive vertices (every third entry of `channelMapping` from 2). */
  method ReceivePass(m: MsagInput, cm: seq<int>) returns (r: Result<seq<Edge>>)
    requires Shaped(m) && cm == Mapping(m)
    ensures r == RecPhase(m, |Ic(m)|)
  {
    MappingLength(m);
    var es := [];
    var i := 2;
    var k := 0;
    while i < |cm|
      invariant i == 3 * k + 2 && k <= |Ic(m)|
      invariant RecPhase(m, k) == Success(es)
    {
      var e := RecEdgeAt(m, cm, k, i);
      RecPhaseNext(m, k);
      if e.Failure? {
        RecPhaseFails(m, k + 1, |Ic(m)|);
        return Failure(e.error);
      }
      es := es + [e.value];
      i, k := i + 3, k + 1;
    }
    r := Success(es);
  }

  /**
   * Steps 2 and 3 for actor `i`: its edge to its decided successor, or,
   * last on its processor, to the processor's first actor with one token;
   * an actor with a receive vertex is entered through it.
   */
  method NextEdgeAt(m: MsagInput, cm: seq<int>, ra: seq<int>, i: nat) returns (r: Result<Edge>)
    requires Shaped(m) && cm == Mapping(m) && ReceiversOk(m, ra) && i < m.noActors
    ensures r == NextEdge(m, ra, i)
  {
    var a, tokens := 0, 0;
    if m.next[i] < m.noActors {
      a := m.next[i];
    } else {
      var firstActor := m.next[i];
      if firstActor > m.noActors {
        firstActor := m.noActors + (firstActor - m.noActors - 1) % m.noProcessors;
      } else {
        firstActor := m.noActors + m.noProcessors - 1;
      }
      firstActor := m.next[firstActor];
      if firstActor >= m.noActors {
        return Failure("receivingActors read past the actors");
      }
      a, tokens := firstActor, 1;
    }
    r := Success(IntoActor(m, ra, i, a, tokens));
  }

  /** Steps 2 and 3 over all actors. */
  method NextPass(m: MsagInput, cm: seq<int>, ra: seq<int>) returns (r: Result<seq<Edge>>)
    requires Shaped(m) && cm == Mapping(m) && ReceiversOk(m, ra)
    ensures r == NextPhase(m, ra, m.noActors)
  {
    var es := [];
    var i := 0;
    while i < m.noActors
      invariant 0 <= i <= m.noActors
      invariant NextPhase(m, ra, i) == Success(es)
    {
      var e := NextEdgeAt(m, cm, ra, i);
      if e.Failure? {
        NextPhaseFails(m, ra, i + 1, m.noActors);
        return Failure(e.error);
      }
      es := es + [e.value];
      i := i + 1;
    }
    r := Success(es);
  }

  lemma SendPhaseNext(m: MsagInput, k: nat)
    requires Shaped(m) && k < |Ic(m)| && SendPhase(m, k).Success?
    ensures SendEdge(m, k).Failure? ==> SendPhase(m, k + 1) == Failure(SendEdge(m, k).error)
    ensures SendEdge(m, k).Success? ==> SendPhase(m, k + 1) == Success(SendPhase(m, k).value + SendEdge(m, k).value)
  {
  }

  lemma RecPhaseNext(m: MsagInput, k: nat)
    requires Shaped(m) && k < |Ic(m)| && RecPhase(m, k).Success?
    ensures RecEdge(m, k).Failure? ==> RecPhase(m, k + 1) == Failure(RecEdge(m, k).error)
    ensures RecEdge(m, k).Success? ==> RecPhase(m, k + 1) == Success(RecPhase(m, k).value + [RecEdge(m, k).value])
  {
  }

  lemma {:induction false} SendPhaseFails(m: MsagInput, n: nat, n': nat)
    requires Shaped(m) && n <= n' <= |Ic(m)| && SendPhase(m, n).Failure?
    ensures SendPhase(m, n') == SendPhase(m, n)
    decreases n' - n
  {
    if n < n' {
      SendPhaseFails(m, n, n' - 1);
    }
  }

  lemma {:induction false} RecPhaseFails(m: MsagInput, n: nat, n': nat)
    requires Shaped(m) && n <= n' <= |Ic(m)| && RecPhase(m, n).Failure?
    ensures RecPhase(m, n') == RecPhase(m, n)
    decreases n' - n
  {
    if n < n' {
      RecPhaseFails(m, n, n' - 1);
    }
  }

  lemma {:induction false} NextPhaseFails(m: MsagInput, ra: seq<int>, n: nat, n': nat)
    requires Shaped(m) && ReceiversOk(m, ra) && n <= n' <= m.noActors && NextPhase(m, ra, n).Failure?
    ensures NextPhase(m, ra, n') == NextPhase(m, ra, n)
    decreases n' - n
  {
    if n < n' {
      NextPhaseFails(m, ra, n, n' - 1);
    }
  }

  /** constructMSAG: the vertices, step 1, the sending and receiving orders, then steps 2 and 3. */
  method ConstructMsag(m: MsagInput) returns (r: Result<Graph>)
    requires Shaped(m)
    ensures r == BuildMsag(m)
  {
    var size, cm := CountVertices(m);
    var loops0 := AddVertices(m, size);
    var loops, added, ra := ChannelsStep(m, cm, loops0);
    var se := SendPass(m, cm);
    if se.Failure? {
      return Failure(se.error);
    }
    var re := ReceivePass(m, cm);
    if re.Failure? {
      return Failure(re.error);
    }
    var ne := NextPass(m, cm, ra);
    if ne.Failure? {
      return Failure(ne.error);
    }
    r := Success(Graph(size, loops + added + se.value + re.value + ne.value, cm, ra));
  }

  /**
   * With the actor order `get_next` builds from the processors' schedules
   * `l`, an actor whose order ends at processor `p`'s marker gets its
   * one-token edge to the lowest-ranked entry of processor `p`'s
   * schedule, the first actor that processor runs; it fails where that
   * entry is not an actor.
   */
  lemma OrderWrapsToFirst(m: MsagInput, ra: seq<int>, i: nat, l: seq<Schedules.Sched>, p: nat)
    requires Shaped(m) && ReceiversOk(m, ra) && i < m.noActors
    requires |l| == m.noProcessors && SuccessorArrays.AllWellFormed(l) && p < |l|
    requires m.next == SuccessorArrays.NextArray(l, m.noActors) && m.next[i] == m.noActors + p
    ensures NextEdge(m, ra, i).Success? <==> SuccessorArrays.LowValue(l[p]) < m.noActors
    ensures var first, e := SuccessorArrays.LowValue(l[p]), NextEdge(m, ra, i);
      0 <= first < m.noActors ==> e.Success? && e.value.tokens == 1 && (e.value.dst == first || e.value.dst == ra[first])
  {
    DummyOfPrevious(m.noActors, p, m.noProcessors);
    SuccessorArrays.DummyLeadsToLowest(l, m.noActors, p);
    var d := DummyOf(m.next[i], m.noActors, m.noProcessors);
    assert m.next[d] == SuccessorArrays.LowValue(l[p]);
  }
}
