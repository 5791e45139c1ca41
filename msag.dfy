// The mapping and scheduling aware graph (MSAG) a design analyses for its
// periods (system/design.cpp, constructMSAG), stated as functions of the
// design's vectors. Vertices 0 .. noActors-1 are the actors; every channel
// between two processors adds a block, a send and a receive vertex.
module Msag {
  import opened Wrappers
  import opened DesignData

  /** What constructMSAG reads from a design. */
  datatype MsagInput = MsagInput(
    noActors: nat,
    noProcessors: nat,
    channels: seq<Channel>,
    sendingTime: seq<int>,
    sendingLatency: seq<int>,
    receivingTime: seq<int>,
    sendbufferSz: seq<int>,
    recbufferSz: seq<int>,
    wcet: seq<int>,
    next: seq<int>,
    sendingNext: seq<int>,
    receivingNext: seq<int>)

  /**
   * The vectors have the sizes the design gives them, channels join
   * actors, and the three orders hold indices into themselves, as the
   * individual's successor arrays do.
   */
  predicate Shaped(m: MsagInput)
  {
    var c := |m.channels|;
    m.noProcessors >= 1 &&
    |m.sendingTime| == c && |m.sendingLatency| == c && |m.receivingTime| == c &&
    |m.sendbufferSz| == c && |m.recbufferSz| == c && |m.wcet| == m.noActors &&
    |m.next| == m.noActors + m.noProcessors &&
    |m.sendingNext| == c + m.noProcessors && |m.receivingNext| == c + m.noProcessors &&
    (forall i :: 0 <= i < c ==>
      0 <= m.channels[i].source < m.noActors && 0 <= m.channels[i].destination < m.noActors) &&
    (forall i :: 0 <= i < |m.next| ==> 0 <= m.next[i] < |m.next|) &&
    (forall i :: 0 <= i < |m.sendingNext| ==> 0 <= m.sendingNext[i] < |m.sendingNext|) &&
    (forall i :: 0 <= i < |m.receivingNext| ==> 0 <= m.receivingNext[i] < |m.receivingNext|)
  }

  // ---------------------------------------------------------------------
  // Vertices

  /** The channels below `n` whose sending time is positive: those on the interconnect, in order. */
  function Interconnect(st: seq<int>, n: nat): (ic: seq<int>)
    requires n <= |st|
    ensures forall k :: 0 <= k < |ic| ==> 0 <= ic[k] < n && st[ic[k]] > 0
  {
    if n == 0 then [] else Interconnect(st, n - 1) + (if st[n - 1] > 0 then [n - 1] else [])
  }

  /** `channelMapping`: each interconnect channel three times (block, send, receive vertex). */
  function MappingOf(st: seq<int>, n: nat): seq<int>
    requires n <= |st|
  {
    if n == 0 then [] else MappingOf(st, n - 1) + (if st[n - 1] > 0 then [n - 1, n - 1, n - 1] else [])
  }

  function Ic(m: MsagInput): seq<int>
    requires Shaped(m)
  {
    Interconnect(m.sendingTime, |m.channels|)
  }

  function Mapping(m: MsagInput): seq<int>
    requires Shaped(m)
  {
    MappingOf(m.sendingTime, |m.channels|)
  }

  /** `n_msagActors`. */
  function Size(m: MsagInput): nat
    requires Shaped(m)
  {
    m.noActors + |Mapping(m)|
  }

  /** `std::find`: the first position holding `x`, or -1. */
  function Find(s: seq<int>, x: int): (r: int)
    ensures -1 <= r < |s|
    ensures r >= 0 ==> s[r] == x && forall j :: 0 <= j < r ==> s[j] != x
    ensures r == -1 ==> forall j :: 0 <= j < |s| ==> s[j] != x
  {
    if s == [] then -1
    else if s[0] == x then 0
    else var r := Find(s[1..], x); if r == -1 then -1 else r + 1
  }

  /** getBlockActor: the block vertex of channel `ch`, or -1 when it is not on the interconnect. */
  function BlockActor(cm: seq<int>, noActors: nat, ch: int): int
  {
    var f := Find(cm, ch); if f == -1 then -1 else f + noActors
  }

  /** getSendActor. */
  function SendActor(cm: seq<int>, noActors: nat, ch: int): int
  {
    var f := Find(cm, ch); if f == -1 then -1 else f + noActors + 1
  }

  /** getRecActor. */
  function RecActor(cm: seq<int>, noActors: nat, ch: int): int
  {
    var f := Find(cm, ch); if f == -1 then -1 else f + noActors + 2
  }

  lemma {:induction false} InterconnectBounds(st: seq<int>, n: nat)
    requires n <= |st|
    ensures |Interconnect(st, n)| <= n
    ensures |MappingOf(st, n)| == 3 * |Interconnect(st, n)|
    ensures forall j :: 0 <= j < |MappingOf(st, n)| ==> 0 <= MappingOf(st, n)[j] < n && st[MappingOf(st, n)[j]] > 0
  {
    if n > 0 {
      InterconnectBounds(st, n - 1);
      var prev := MappingOf(st, n - 1);
      var cm := MappingOf(st, n);
      forall j | 0 <= j < |cm|
        ensures 0 <= cm[j] < n && st[cm[j]] > 0
      {
        if j < |prev| {
          assert cm[j] == prev[j];
        }
      }
    }
  }

  /** Channels and vertices added later leave the earlier ones in place. */
  lemma {:induction false} PrefixesKept(st: seq<int>, i: nat, n: nat)
    requires i <= n <= |st|
    ensures |Interconnect(st, i)| <= |Interconnect(st, n)|
    ensures Interconnect(st, n)[..|Interconnect(st, i)|] == Interconnect(st, i)
    ensures |MappingOf(st, i)| <= |MappingOf(st, n)|
    ensures MappingOf(st, n)[..|MappingOf(st, i)|] == MappingOf(st, i)
    decreases n - i
  {
    if i < n {
      PrefixesKept(st, i, n - 1);
      var a, b := Interconnect(st, i), Interconnect(st, n - 1);
      assert Interconnect(st, n)[..|b|] == b;
      assert Interconnect(st, n)[..|a|] == b[..|a|];
      var c, d := MappingOf(st, i), MappingOf(st, n - 1);
      assert MappingOf(st, n)[..|d|] == d;
      assert MappingOf(st, n)[..|c|] == d[..|c|];
    }
  }

  /**
   * The interconnect channel `i` is the k-th, where k counts the
   * interconnect channels before it; its block, send and receive vertices
   * are `noActors + 3k`, `+1` and `+2`, and `channelMapping` names it at
   * all three.
   */
  lemma ChannelVertices(st: seq<int>, noActors: nat, i: nat)
    requires i < |st| && st[i] > 0
    ensures var k := |Interconnect(st, i)|; var ic := Interconnect(st, |st|); var cm := MappingOf(st, |st|);
      k < |ic| && ic[k] == i && 3 * k + 2 < |cm| &&
      cm[3 * k] == i && cm[3 * k + 1] == i && cm[3 * k + 2] == i &&
      BlockActor(cm, noActors, i) == noActors + 3 * k &&
      SendActor(cm, noActors, i) == noActors + 3 * k + 1 &&
      RecActor(cm, noActors, i) == noActors + 3 * k + 2
  {
    var k := |Interconnect(st, i)|;
    var cm := MappingOf(st, |st|);
    PrefixesKept(st, i + 1, |st|);
    PrefixesKept(st, i, i + 1);
    InterconnectBounds(st, i);
    InterconnectBounds(st, i + 1);
    var before := MappingOf(st, i);
    assert MappingOf(st, i + 1) == before + [i, i, i];
    assert cm[..|before| + 3] == before + [i, i, i];
    assert cm[3 * k] == i && cm[3 * k + 1] == i && cm[3 * k + 2] == i by {
      assert cm[3 * k] == (cm[..|before| + 3])[3 * k];
      assert cm[3 * k + 1] == (cm[..|before| + 3])[3 * k + 1];
      assert cm[3 * k + 2] == (cm[..|before| + 3])[3 * k + 2];
    }
    forall j | 0 <= j < 3 * k
      ensures cm[j] != i
    {
      assert cm[j] == before[j];
    }
    assert Find(cm, i) == 3 * k;
    assert Interconnect(st, i + 1) == Interconnect(st, i) + [i];
    assert Interconnect(st, |st|)[k] == Interconnect(st, |st|)[..k + 1][k];
  }

  /** `channelMapping` holds the k-th interconnect channel at its entries 3k, 3k+1 and 3k+2. */
  lemma {:induction false} MappingTriples(st: seq<int>, n: nat)
    requires n <= |st|
    ensures |MappingOf(st, n)| == 3 * |Interconnect(st, n)|
    ensures forall k :: 0 <= k < |Interconnect(st, n)| ==>
      MappingOf(st, n)[3 * k] == Interconnect(st, n)[k] &&
      MappingOf(st, n)[3 * k + 1] == Interconnect(st, n)[k] &&
      MappingOf(st, n)[3 * k + 2] == Interconnect(st, n)[k]
  {
    if n > 0 {
      MappingTriples(st, n - 1);
      var cm0, ic0 := MappingOf(st, n - 1), Interconnect(st, n - 1);
      var cm, ic := MappingOf(st, n), Interconnect(st, n);
      forall k | 0 <= k < |ic|
        ensures cm[3 * k] == ic[k] && cm[3 * k + 1] == ic[k] && cm[3 * k + 2] == ic[k]
      {
        if k < |ic0| {
          assert ic[k] == ic0[k];
          assert cm[3 * k] == cm0[3 * k] && cm[3 * k + 1] == cm0[3 * k + 1] && cm[3 * k + 2] == cm0[3 * k + 2];
        }
      }
    }
  }

  /** Entries 3k, 3k+1 and 3k+2 of `channelMapping` name the k-th interconnect channel. */
  lemma MappingAt(m: MsagInput, k: nat, j: nat)
    requires Shaped(m) && j < 3 && 3 * k + j < |Mapping(m)|
    ensures |Mapping(m)| == 3 * |Ic(m)| && k < |Ic(m)| && Mapping(m)[3 * k + j] == Ic(m)[k]
  {
    MappingTriples(m.sendingTime, |m.channels|);
  }

  lemma MappingLength(m: MsagInput)
    requires Shaped(m)
    ensures |Mapping(m)| == 3 * |Ic(m)|
  {
    InterconnectBounds(m.sendingTime, |m.channels|);
  }

  /** A channel that is not on the interconnect has no block, send or receive vertex. */
  lemma CoLocatedHasNoVertices(st: seq<int>, noActors: nat, ch: int)
    requires !(0 <= ch < |st| && st[ch] > 0)
    ensures BlockActor(MappingOf(st, |st|), noActors, ch) == -1
    ensures SendActor(MappingOf(st, |st|), noActors, ch) == -1
    ensures RecActor(MappingOf(st, |st|), noActors, ch) == -1
  {
    InterconnectBounds(st, |st|);
  }

  /** `Size(m)` is the actors plus three vertices per interconnect channel. */
  lemma SizeCounts(m: MsagInput)
    requires Shaped(m)
    ensures Size(m) == m.noActors + 3 * |Ic(m)| && |Ic(m)| <= |m.channels|
    ensures forall k :: 0 <= k < |Ic(m)| ==> 0 <= Ic(m)[k] < |m.channels| && m.sendingTime[Ic(m)[k]] > 0
    ensures forall i :: 0 <= i < |m.channels| && m.sendingTime[i] > 0 ==> i in Ic(m)
  {
    InterconnectBounds(m.sendingTime, |m.channels|);
    forall i | 0 <= i < |m.channels| && m.sendingTime[i] > 0
      ensures i in Ic(m)
    {
      ChannelVertices(m.sendingTime, m.noActors, i);
    }
  }

  // ---------------------------------------------------------------------
  // Step 1: self-loops, then the channels

  /**
   * The vertices and their self-loops, one token each: an actor's delay
   * is its WCET, a communication vertex's stays 0 until its channel sets it.
   * The self-loop of vertex `n` is edge `n`.
   */
  function InitialLoops(m: MsagInput): (loops: seq<Edge>)
    requires Shaped(m)
    ensures |loops| == Size(m)
  {
    var w := m.wcet;
    seq(|w|, n requires 0 <= n < |w| => Edge(n, n, w[n], 1, n)) +
    seq(|Mapping(m)|, j => Edge(|w| + j, |w| + j, 0, 1, |w| + j))
  }

  /** The six edges of interconnect channel `i`, the k-th such channel. */
  function InterconnectEdges(m: MsagInput, i: nat, k: nat): seq<Edge>
    requires Shaped(m) && i < |m.channels|
  {
    var ch := m.channels[i];
    var blk := m.noActors + 3 * k;
    var snd := blk + 1;
    var rec := blk + 2;
    [Edge(ch.source, blk, m.sendingLatency[i], 0, ch.source),
     Edge(blk, ch.source, m.wcet[ch.source], m.sendbufferSz[i], blk),
     Edge(blk, snd, m.sendingTime[i], 0, blk),
     Edge(snd, blk, m.sendingLatency[i], 1, snd),
     Edge(snd, rec, m.receivingTime[i], ch.initTokens, snd),
     Edge(rec, snd, m.sendingTime[i], m.recbufferSz[i] - ch.initTokens, rec)]
  }

  /**
   * An interconnect channel's edges form three two-edge cycles: source and
   * block vertex holding the send buffer, block and send vertex holding one
   * token (the TDMA slot), send and receive vertex holding the receive
   * buffer; each edge belongs to its source vertex's graph.
   */
  lemma BufferCycles(m: MsagInput, i: nat, k: nat)
    requires Shaped(m) && i < |m.channels|
    ensures var es := InterconnectEdges(m, i, k); var src := m.channels[i].source; var blk := m.noActors + 3 * k;
      |es| == 6 &&
      es[0].src == src && es[0].dst == blk && es[1].src == blk && es[1].dst == src &&
      es[0].tokens + es[1].tokens == m.sendbufferSz[i] &&
      es[2].src == blk && es[2].dst == blk + 1 && es[3].src == blk + 1 && es[3].dst == blk &&
      es[2].tokens + es[3].tokens == 1 &&
      es[4].src == blk + 1 && es[4].dst == blk + 2 && es[5].src == blk + 2 && es[5].dst == blk + 1 &&
      es[4].tokens + es[5].tokens == m.recbufferSz[i] &&
      forall j :: 0 <= j < 6 ==> es[j].home == es[j].src
  {
  }

  /** Step 1a's delays of the block, send and receive self-loops of the vertices from `blk`. */
  function SetLoops(edges: seq<Edge>, blk: nat, latency: int, sending: int, receiving: int): (r: seq<Edge>)
    requires blk + 2 < |edges|
    ensures |r| == |edges|
  {
    edges[blk := edges[blk].(delay := latency)][blk + 1 := edges[blk + 1].(delay := sending)]
      [blk + 2 := edges[blk + 2].(delay := receiving)]
  }

  /**
   * `receivingActors`: per actor, -1 or the receive vertex of an
   * interconnect channel into that actor.
   */
  predicate ReceiversOk(m: MsagInput, ra: seq<int>)
    requires Shaped(m)
  {
    var cm := Mapping(m);
    |ra| == m.noActors &&
    forall a :: 0 <= a < |ra| && ra[a] != -1 ==>
      m.noActors <= ra[a] < m.noActors + |cm| && 0 <= cm[ra[a] - m.noActors] < |m.channels| &&
      m.channels[cm[ra[a] - m.noActors]].destination == a &&
      ra[a] == RecActor(cm, m.noActors, cm[ra[a] - m.noActors])
  }

  /**
   * Step 1a's update of `receivingActors` for channel `i` with receive
   * vertex `rec`: only the destination's entry can change, to `rec`, and
   * it does when the destination had none. The last test compares a
   * channel number (`receivingNext[i]`) with a vertex number, as written.
   */
  function NextReceiver(m: MsagInput, ra: seq<int>, i: nat, rec: int): (r: seq<int>)
    requires Shaped(m) && i < |m.channels| && ReceiversOk(m, ra)
    requires m.sendingTime[i] > 0 && rec == RecActor(Mapping(m), m.noActors, i)
    ensures ReceiversOk(m, r)
    ensures forall a :: 0 <= a < |ra| && a != m.channels[i].destination ==> r[a] == ra[a]
    ensures var d := m.channels[i].destination; r[d] == ra[d] || r[d] == rec
    ensures var d := m.channels[i].destination; ra[d] == -1 ==> r[d] == rec
  {
    ChannelVertices(m.sendingTime, m.noActors, i);
    var cm := Mapping(m);
    var d := m.channels[i].destination;
    ReceiverSet(m, ra, i, rec);
    if ra[d] == -1 then ra[d := rec]
    else
      var cur := cm[ra[d] - m.noActors];
      var rn := m.receivingNext[cur];
      var ra1 := if rn < |m.channels| then (if m.channels[rn].destination != d then ra[d := rec] else ra)
                 else ra[d := rec];
      ReceiverSet(m, ra1, i, rec);
      if m.receivingNext[i] == ra1[d] then ra1[d := rec] else ra1
  }

  /** Recording channel `i`'s receive vertex for its destination keeps `receivingActors` well formed. */
  lemma ReceiverSet(m: MsagInput, ra: seq<int>, i: nat, rec: int)
    requires Shaped(m) && i < |m.channels| && ReceiversOk(m, ra)
    requires m.sendingTime[i] > 0 && rec == RecActor(Mapping(m), m.noActors, i)
    ensures ReceiversOk(m, ra[m.channels[i].destination := rec])
  {
    ChannelVertices(m.sendingTime, m.noActors, i);
    var k := |Interconnect(m.sendingTime, i)|;
    assert Mapping(m)[rec - m.noActors] == i;
  }

  /**
   * The edges channel `i` adds in step 1: an interconnect channel its six
   * edges; a channel on one processor with initial tokens an edge from its
   * source to its destination; any other channel none.
   */
  function ChannelEdges(m: MsagInput, i: nat): seq<Edge>
    requires Shaped(m) && i < |m.channels|
  {
    var ch := m.channels[i];
    if m.sendingTime[i] > 0 then InterconnectEdges(m, i, |Interconnect(m.sendingTime, i)|)
    else if m.sendingTime[i] == 0 && ch.initTokens > 0 then
      [Edge(ch.source, ch.destination, m.wcet[ch.destination], ch.initTokens, ch.source)]
    else []
  }

  /** The number of interconnect channels before channel `i` of the interconnect leaves room for its vertices. */
  lemma InterconnectIndex(st: seq<int>, i: nat)
    requires i < |st| && st[i] > 0
    ensures |Interconnect(st, i)| < |Interconnect(st, |st|)|
    ensures |MappingOf(st, |st|)| == 3 * |Interconnect(st, |st|)|
  {
    PrefixesKept(st, i + 1, |st|);
    InterconnectBounds(st, |st|);
  }

  /** Earlier interconnect channels come earlier in the interconnect order. */
  lemma InterconnectOrder(st: seq<int>, j: nat, i: nat)
    requires j < i <= |st| && st[j] > 0
    ensures |Interconnect(st, j)| < |Interconnect(st, i)|
  {
    PrefixesKept(st, j + 1, i);
  }

  /** The block vertex of interconnect channel `i`, the first of its three. */
  function BlockOf(m: MsagInput, i: nat): (b: nat)
    requires Shaped(m) && i < |m.channels| && m.sendingTime[i] > 0
    ensures m.noActors <= b && b + 2 < Size(m)
  {
    InterconnectIndex(m.sendingTime, i);
    m.noActors + 3 * |Interconnect(m.sendingTime, i)|
  }

  /**
   * The self-loops after step 1 over the channels below `n`: each
   * interconnect channel sets the delays of its three vertices' loops.
   */
  function Step1Loops(m: MsagInput, n: nat): (loops: seq<Edge>)
    requires Shaped(m) && n <= |m.channels|
    ensures |loops| == Size(m)
    decreases n, 1
  {
    if n == 0 then InitialLoops(m) else LoopsStep(m, n)
  }

  /** Channel `n - 1`'s step on the self-loops the channels below it left. */
  function LoopsStep(m: MsagInput, n: nat): (loops: seq<Edge>)
    requires Shaped(m) && 0 < n <= |m.channels|
    ensures |loops| == Size(m)
    decreases n, 0
  {
    var prev := Step1Loops(m, n - 1);
    var i := n - 1;
    if m.sendingTime[i] > 0 then
      SetLoops(prev, BlockOf(m, i), m.sendingLatency[i], m.sendingTime[i], m.receivingTime[i])
    else prev
  }

  /** The edges the channels below `n` append in step 1, in channel order. */
  function Step1Added(m: MsagInput, n: nat): seq<Edge>
    requires Shaped(m) && n <= |m.channels|
    decreases n, 1
  {
    if n == 0 then [] else AddedStep(m, n)
  }

  /** The edges the channels below `n - 1` append, then those of channel `n - 1`. */
  function AddedStep(m: MsagInput, n: nat): seq<Edge>
    requires Shaped(m) && 0 < n <= |m.channels|
    decreases n, 0
  {
    Step1Added(m, n - 1) + ChannelEdges(m, n - 1)
  }

  /**
   * Step 1's edge list over the channels below `n`. Step 1a only rewrites
   * self-loop entries and step 1 only appends, so the list is the
   * self-loops followed by the channels' edges.
   */
  function Step1Edges(m: MsagInput, n: nat): (edges: seq<Edge>)
    requires Shaped(m) && n <= |m.channels|
  {
    Step1Loops(m, n) + Step1Added(m, n)
  }

  /** Step 1's `receivingActors` after the channels below `n`. */
  function Receivers(m: MsagInput, n: nat): (ra: seq<int>)
    requires Shaped(m) && n <= |m.channels|
    ensures ReceiversOk(m, ra)
    decreases n, 1
  {
    if n == 0 then seq(m.noActors, _ => -1) else ReceiversStep(m, n)
  }

  /** Channel `n - 1`'s update of the `receivingActors` the channels below it left. */
  function ReceiversStep(m: MsagInput, n: nat): (ra: seq<int>)
    requires Shaped(m) && 0 < n <= |m.channels|
    ensures ReceiversOk(m, ra)
    decreases n, 0
  {
    var ra := Receivers(m, n - 1);
    var i := n - 1;
    if m.sendingTime[i] > 0 then NextReceiver(m, ra, i, RecActor(Mapping(m), m.noActors, i))
    else ra
  }

  /** The delays step 1a gives the self-loops of interconnect channel `i`'s three vertices. */
  predicate LoopDelaysSet(m: MsagInput, edges: seq<Edge>, i: nat)
    requires Shaped(m) && i < |m.channels| && m.sendingTime[i] > 0
  {
    var blk := BlockOf(m, i);
    blk + 2 < |edges| &&
    edges[blk].delay == m.sendingLatency[i] && edges[blk + 1].delay == m.sendingTime[i] &&
    edges[blk + 2].delay == m.receivingTime[i]
  }

  /** Every vertex's self-loop stays first in its place with one token. */
  predicate SelfLoopsAt(m: MsagInput, edges: seq<Edge>)
    requires Shaped(m)
  {
    |edges| >= Size(m) &&
    (forall v :: 0 <= v < Size(m) ==>
      edges[v].src == v && edges[v].dst == v && edges[v].home == v && edges[v].tokens == 1) &&
    forall v :: 0 <= v < m.noActors ==> edges[v].delay == m.wcet[v]
  }

  /** After step 1 over the channels below `n`, every vertex has its one-token self-loop in place. */
  lemma {:induction false} SelfLoopsKept(m: MsagInput, n: nat)
    requires Shaped(m) && n <= |m.channels|
    ensures SelfLoopsAt(m, Step1Edges(m, n))
  {
    LoopsKept(m, n);
    var loops := Step1Loops(m, n);
    var edges := Step1Edges(m, n);
    forall v | 0 <= v < Size(m)
      ensures edges[v] == loops[v]
    {
    }
  }

  lemma {:induction false} LoopsKept(m: MsagInput, n: nat)
    requires Shaped(m) && n <= |m.channels|
    ensures SelfLoopsAt(m, Step1Loops(m, n))
  {
    if n == 0 {
      InitialLoopsAt(m);
    } else {
      LoopsKept(m, n - 1);
      var i := n - 1;
      var prev := Step1Loops(m, n - 1);
      if m.sendingTime[i] > 0 {
        var next := SetLoops(prev, BlockOf(m, i), m.sendingLatency[i], m.sendingTime[i], m.receivingTime[i]);
        LoopsSet(m, prev, BlockOf(m, i), m.sendingLatency[i], m.sendingTime[i], m.receivingTime[i]);
        assert Step1Loops(m, n) == next;
      } else {
        assert Step1Loops(m, n) == prev;
      }
    }
  }

  /**
   * Once step 1 has passed interconnect channel `i`, its block, send and
   * receive vertices' self-loops carry the sending latency, the sending
   * time and the receiving time.
   */
  lemma {:induction false} LoopDelaysFinal(m: MsagInput, n: nat, i: nat)
    requires Shaped(m) && i < n <= |m.channels| && m.sendingTime[i] > 0
    ensures LoopDelaysSet(m, Step1Edges(m, n), i)
  {
    LoopDelaysInLoops(m, n, i);
    var loops := Step1Loops(m, n);
    var edges := Step1Edges(m, n);
    var blk := BlockOf(m, i);
    assert edges[blk] == loops[blk] && edges[blk + 1] == loops[blk + 1] && edges[blk + 2] == loops[blk + 2];
  }

  lemma {:induction false} LoopDelaysInLoops(m: MsagInput, n: nat, i: nat)
    requires Shaped(m) && i < n <= |m.channels| && m.sendingTime[i] > 0
    ensures LoopDelaysSet(m, Step1Loops(m, n), i)
  {
    var prev := Step1Loops(m, n - 1);
    var c := n - 1;
    if c == i {
      LoopsSetDelays(prev, BlockOf(m, i), m.sendingLatency[i], m.sendingTime[i], m.receivingTime[i]);
    } else {
      LoopDelaysInLoops(m, n - 1, i);
      if m.sendingTime[c] > 0 {
        InterconnectOrder(m.sendingTime, i, c);
        var blk := BlockOf(m, c);
        LoopDelaysKept(m, prev, SetLoops(prev, blk, m.sendingLatency[c], m.sendingTime[c], m.receivingTime[c]), i);
      }
    }
  }

  lemma InitialLoopsAt(m: MsagInput)
    requires Shaped(m)
    ensures SelfLoopsAt(m, InitialLoops(m))
  {
    var loops := InitialLoops(m);
    forall v | 0 <= v < Size(m)
      ensures loops[v].src == v && loops[v].dst == v && loops[v].home == v && loops[v].tokens == 1
    {
    }
  }

  /** Setting the self-loop delays of the three communication vertices from `blk` keeps every self-loop in place. */
  lemma LoopsSet(m: MsagInput, prev: seq<Edge>, blk: nat, latency: int, sending: int, receiving: int)
    requires Shaped(m) && SelfLoopsAt(m, prev) && m.noActors <= blk && blk + 2 < Size(m)
    ensures SelfLoopsAt(m, SetLoops(prev, blk, latency, sending, receiving))
  {
  }

  lemma LoopsSetDelays(prev: seq<Edge>, blk: nat, latency: int, sending: int, receiving: int)
    requires blk + 2 < |prev|
    ensures var loops := SetLoops(prev, blk, latency, sending, receiving);
      loops[blk].delay == latency && loops[blk + 1].delay == sending && loops[blk + 2].delay == receiving
  {
  }

  /** Delays already set survive edits at other self-loops. */
  lemma LoopDelaysKept(m: MsagInput, prev: seq<Edge>, edges: seq<Edge>, j: nat)
    requires Shaped(m) && j < |m.channels| && m.sendingTime[j] > 0 && LoopDelaysSet(m, prev, j)
    requires |edges| >= |prev|
    requires var blk := BlockOf(m, j);
      edges[blk] == prev[blk] && edges[blk + 1] == prev[blk + 1] && edges[blk + 2] == prev[blk + 2]
    ensures LoopDelaysSet(m, edges, j)
  {
  }

  /**
   * The edges step 1 adds after the self-loops are exactly those of the
   * channels below `n`.
   */
  lemma {:induction false} ChannelEdgesAdded(m: MsagInput, n: nat)
    requires Shaped(m) && n <= |m.channels|
    ensures forall e :: e in Step1Edges(m, n)[Size(m)..] ==>
      exists i :: 0 <= i < n && e in ChannelEdges(m, i)
    ensures forall i, e :: 0 <= i < n && e in ChannelEdges(m, i) ==> e in Step1Edges(m, n)[Size(m)..]
  {
    assert Step1Edges(m, n)[Size(m)..] == Step1Added(m, n);
    AddedMembers(m, n);
  }

  lemma {:induction false} AddedMembers(m: MsagInput, n: nat)
    requires Shaped(m) && n <= |m.channels|
    ensures forall e :: e in Step1Added(m, n) ==> exists i :: 0 <= i < n && e in ChannelEdges(m, i)
    ensures forall i, e :: 0 <= i < n && e in ChannelEdges(m, i) ==> e in Step1Added(m, n)
  {
    if n > 0 {
      AddedMembers(m, n - 1);
      var i := n - 1;
      var added := Step1Added(m, n - 1);
      var edges := Step1Added(m, n);
      assert edges == added + ChannelEdges(m, i);
      forall e | e in edges
        ensures exists j :: 0 <= j < n && e in ChannelEdges(m, j)
      {
        if e in added {
          var j :| 0 <= j < n - 1 && e in ChannelEdges(m, j);
        } else {
          assert e in ChannelEdges(m, i);
        }
      }
      forall j, e | 0 <= j < n && e in ChannelEdges(m, j)
        ensures e in edges
      {
        if j < i {
          assert e in added;
        }
      }
    }
  }

  // ---------------------------------------------------------------------
  // The send and receive orders

  /**
   * The dummy entry an order's end marker `x >= base` leads to: `base + P
   * - 1` for `base` itself, else `base + (x - base - 1) mod P`.
   */
  function DummyOf(x: int, base: nat, noProcessors: nat): (d: int)
    requires x >= base && noProcessors >= 1
    ensures base <= d < base + noProcessors
  {
    if x > base then base + (x - base - 1) % noProcessors else base + noProcessors - 1
  }

  /**
   * The end marker `base + p` of processor `p`'s order leads to the dummy
   * entry of the processor before it, cyclically.
   */
  lemma DummyOfPrevious(base: nat, p: nat, noProcessors: nat)
    requires p < noProcessors
    ensures DummyOf(base + p, base, noProcessors) == if p == 0 then base + noProcessors - 1 else base + p - 1
  {
  }

  /** How many steps a walk along `sendingNext` may take: more than its 2·C states (channel, tokens). */
  function SendFuel(m: MsagInput): nat
  {
    2 * |m.channels| + 1
  }

  /** How many steps a walk along `receivingNext` may take: more than its C states. */
  function RecFuel(m: MsagInput): nat
  {
    |m.channels| + 1
  }

  /**
   * The walk along `sendingNext` from channel `x` to the next interconnect
   * channel sent on the same processor. Passing an order's end marker
   * makes the edge cycle-closing (1 token) and continues at the dummy's
   * successor. The walk fails where the source reads `sendingTime` past the
   * channels, and when the fuel runs out (the source loops forever).
   */
  function SendWalk(m: MsagInput, x: nat, tokens: int, fuel: nat): (r: Result<(int, int)>)
    requires Shaped(m) && x < |m.channels|
    ensures r.Success? ==>
      0 <= r.value.0 < |m.channels| && m.sendingTime[r.value.0] > 0 &&
      (r.value.1 == tokens || r.value.1 == 1)
    decreases fuel
  {
    if fuel == 0 then Failure("the sending order does not reach an interconnect channel")
    else
      var nc := m.sendingNext[x];
      if nc >= |m.channels| then
        var nc2 := m.sendingNext[DummyOf(nc, |m.channels|, m.noProcessors)];
        if nc2 >= |m.channels| then Failure("sendingTime read past the channels")
        else if m.sendingTime[nc2] > 0 then Success((nc2, 1))
        else SendWalk(m, nc2, 1, fuel - 1)
      else if m.sendingTime[nc] > 0 then Success((nc, tokens))
      else SendWalk(m, nc, tokens, fuel - 1)
  }

  /**
   * The walk along `receivingNext` from channel `x`: the next interconnect
   * channel received by the same destination `dst`, or -1 when the order
   * ends or moves on to another destination.
   */
  function RecWalk(m: MsagInput, x: nat, dst: int, fuel: nat): (r: Result<int>)
    requires Shaped(m) && x < |m.channels|
    ensures r.Success? ==> (r.value == -1 ||
      (0 <= r.value < |m.channels| && m.sendingTime[r.value] > 0 && m.channels[r.value].destination == dst))
    decreases fuel
  {
    if fuel == 0 then Failure("the receiving order does not end")
    else
      var nc := m.receivingNext[x];
      if nc >= |m.channels| then Success(-1)
      else if m.channels[nc].destination != dst then Success(-1)
      else if m.sendingTime[nc] > 0 then Success(nc)
      else RecWalk(m, nc, dst, fuel - 1)
  }

  /**
   * The send vertex of the k-th interconnect channel gets an edge to the
   * block vertex of the next interconnect channel in the sending order,
   * unless that is the channel itself; the edge belongs to that block
   * vertex's graph.
   */
  function SendEdge(m: MsagInput, k: nat): Result<seq<Edge>>
    requires Shaped(m) && k < |Ic(m)|
  {
    SizeCounts(m);
    var x := Ic(m)[k];
    var w :- SendWalk(m, x, 0, SendFuel(m));
    var nc := w.0;
    if x != nc then
      var blk := BlockActor(Mapping(m), m.noActors, nc);
      Success([Edge(m.noActors + 3 * k + 1, blk, m.sendingLatency[nc], w.1, blk)])
    else Success([])
  }

  /** The receive vertex of the k-th interconnect channel gets an edge to its successor in the receiving order. */
  function RecEdge(m: MsagInput, k: nat): Result<Edge>
    requires Shaped(m) && k < |Ic(m)|
  {
    SizeCounts(m);
    var x := Ic(m)[k];
    var dst := m.channels[x].destination;
    var nc :- RecWalk(m, x, dst, RecFuel(m));
    var rec := m.noActors + 3 * k + 2;
    if nc == -1 then Success(Edge(rec, dst, m.wcet[dst], 0, rec))
    else Success(Edge(rec, RecActor(Mapping(m), m.noActors, nc), m.receivingTime[nc], 0, rec))
  }

  /**
   * The sending-order edge of the k-th interconnect channel leaves its
   * send vertex for the block vertex of another interconnect channel,
   * with that channel's sending latency, and belongs to that block vertex.
   */
  lemma SendEdgeShape(m: MsagInput, k: nat)
    requires Shaped(m) && k < |Ic(m)|
    ensures var r := SendEdge(m, k); r.Success? ==> |r.value| <= 1
    ensures var r := SendEdge(m, k); r.Success? && |r.value| == 1 ==>
      var e := r.value[0];
      e.src == m.noActors + 3 * k + 1 && e.home == e.dst &&
      exists ch :: 0 <= ch < |m.channels| && m.sendingTime[ch] > 0 && ch != Ic(m)[k] &&
        e.dst == BlockActor(Mapping(m), m.noActors, ch) && e.delay == m.sendingLatency[ch]
  {
    SizeCounts(m);
  }

  /**
   * The receiving-order edge of the k-th interconnect channel leaves its
   * receive vertex, carries no token, and enters the channel's destination
   * or the receive vertex of another interconnect channel into it.
   */
  lemma RecEdgeShape(m: MsagInput, k: nat)
    requires Shaped(m) && k < |Ic(m)|
    ensures var r := RecEdge(m, k); r.Success? ==>
      var e := r.value; var rec := m.noActors + 3 * k + 2; var dst := m.channels[Ic(m)[k]].destination;
      e.src == rec && e.home == rec && e.tokens == 0 &&
      (e.dst == dst ||
       exists ch :: 0 <= ch < |m.channels| && m.sendingTime[ch] > 0 && m.channels[ch].destination == dst &&
         e.dst == RecActor(Mapping(m), m.noActors, ch))
  {
    SizeCounts(m);
  }

  /** The send-order edges of the first `n` interconnect channels. */
  function SendPhase(m: MsagInput, n: nat): Result<seq<Edge>>
    requires Shaped(m) && n <= |Ic(m)|
  {
    if n == 0 then Success([])
    else
      var es :- SendPhase(m, n - 1);
      var e :- SendEdge(m, n - 1);
      Success(es + e)
  }

  /** The receive-order edges of the first `n` interconnect channels. */
  function RecPhase(m: MsagInput, n: nat): Result<seq<Edge>>
    requires Shaped(m) && n <= |Ic(m)|
  {
    if n == 0 then Success([])
    else
      var es :- RecPhase(m, n - 1);
      var e :- RecEdge(m, n - 1);
      Success(es + [e])
  }

  // ---------------------------------------------------------------------
  // Steps 2 and 3: the processors' actor orders

  /** An edge from `i` into actor `a`, or into `a`'s receive vertex when it has one. */
  function IntoActor(m: MsagInput, ra: seq<int>, i: nat, a: nat, tokens: int): (e: Edge)
    requires Shaped(m) && ReceiversOk(m, ra) && a < m.noActors
    ensures e.src == i && e.home == i && e.tokens == tokens
    ensures ra[a] == -1 ==> e.dst == a
    ensures ra[a] != -1 ==> e.dst == ra[a]
  {
    if ra[a] == -1 then Edge(i, a, m.wcet[a], tokens, i)
    else Edge(i, ra[a], m.receivingTime[Mapping(m)[ra[a] - m.noActors]], tokens, i)
  }

  /**
   * Actor `i`'s order edge: to its decided successor with no token, or,
   * at the end of its processor's order, through the dummy entry to the
   * processor's first actor with one token. Fails where the source reads
   * `receivingActors` past the actors.
   */
  function NextEdge(m: MsagInput, ra: seq<int>, i: nat): (r: Result<Edge>)
    requires Shaped(m) && ReceiversOk(m, ra) && i < m.noActors
    ensures r.Success? ==> r.value.src == i && r.value.home == i
    ensures m.next[i] < m.noActors ==> (r.Success? && r.value.tokens == 0 &&
      (r.value.dst == m.next[i] || r.value.dst == ra[m.next[i]]))
    ensures m.next[i] >= m.noActors ==>
      var first := m.next[DummyOf(m.next[i], m.noActors, m.noProcessors)];
      (r.Success? <==> first < m.noActors) &&
      (r.Success? ==> r.value.tokens == 1 && (r.value.dst == first || r.value.dst == ra[first]))
  {
    if m.next[i] < m.noActors then Success(IntoActor(m, ra, i, m.next[i], 0))
    else
      var first := m.next[DummyOf(m.next[i], m.noActors, m.noProcessors)];
      if first >= m.noActors then Failure("receivingActors read past the actors")
      else Success(IntoActor(m, ra, i, first, 1))
  }

  /** The order edges of the actors below `n`. */
  function NextPhase(m: MsagInput, ra: seq<int>, n: nat): Result<seq<Edge>>
    requires Shaped(m) && ReceiversOk(m, ra) && n <= m.noActors
  {
    if n == 0 then Success([])
    else
      var es :- NextPhase(m, ra, n - 1);
      var e :- NextEdge(m, ra, n - 1);
      Success(es + [e])
  }

  // ---------------------------------------------------------------------
  // The whole graph

  /** The MSAG: its vertex count, edge list, `channelMapping` and `receivingActors`. */
  datatype Graph = Graph(size: nat, edges: seq<Edge>, channelMapping: seq<int>, receivingActors: seq<int>)

  /** constructMSAG: the four steps in order. */
  function BuildMsag(m: MsagInput): Result<Graph>
    requires Shaped(m)
  {
    var ra := Receivers(m, |m.channels|);
    var se :- SendPhase(m, |Ic(m)|);
    var re :- RecPhase(m, |Ic(m)|);
    var ne :- NextPhase(m, ra, m.noActors);
    Success(Graph(Size(m), Step1Edges(m, |m.channels|) + se + re + ne, Mapping(m), ra))
  }

  /** An edge whose endpoints and owning vertex are vertices of the graph. */
  predicate EdgeIn(m: MsagInput, e: Edge)
    requires Shaped(m)
  {
    0 <= e.src < Size(m) && 0 <= e.dst < Size(m) && 0 <= e.home < Size(m)
  }

  predicate AllIn(m: MsagInput, es: seq<Edge>)
    requires Shaped(m)
  {
    forall j :: 0 <= j < |es| ==> EdgeIn(m, es[j])
  }

  lemma AppendIn(m: MsagInput, a: seq<Edge>, b: seq<Edge>)
    requires Shaped(m) && AllIn(m, a) && AllIn(m, b)
    ensures AllIn(m, a + b)
  {
    forall j | 0 <= j < |a + b|
      ensures EdgeIn(m, (a + b)[j])
    {
      if j < |a| { assert (a + b)[j] == a[j]; } else { assert (a + b)[j] == b[j - |a|]; }
    }
  }

  /** Channel `i`'s step-1 edges join its endpoints and its own three vertices. */
  lemma ChannelEdgesIn(m: MsagInput, i: nat)
    requires Shaped(m) && i < |m.channels|
    ensures AllIn(m, ChannelEdges(m, i))
  {
    if m.sendingTime[i] > 0 {
      var blk := BlockOf(m, i);
      assert ChannelEdges(m, i) == InterconnectEdges(m, i, |Interconnect(m.sendingTime, i)|);
    }
  }

  lemma {:induction false} AddedIn(m: MsagInput, n: nat)
    requires Shaped(m) && n <= |m.channels|
    ensures AllIn(m, Step1Added(m, n))
  {
    if n > 0 {
      AddedIn(m, n - 1);
      ChannelEdgesIn(m, n - 1);
      AppendIn(m, Step1Added(m, n - 1), ChannelEdges(m, n - 1));
    }
  }

  /** The block vertex of an interconnect channel, as getBlockActor finds it, is a vertex. */
  lemma VerticesOfChannel(m: MsagInput, ch: nat)
    requires Shaped(m) && ch < |m.channels| && m.sendingTime[ch] > 0
    ensures m.noActors <= BlockActor(Mapping(m), m.noActors, ch) < Size(m)
    ensures m.noActors <= RecActor(Mapping(m), m.noActors, ch) < Size(m)
  {
    ChannelVertices(m.sendingTime, m.noActors, ch);
    InterconnectIndex(m.sendingTime, ch);
  }

  lemma SendEdgeIn(m: MsagInput, k: nat)
    requires Shaped(m) && k < |Ic(m)|
    ensures SendEdge(m, k).Success? ==> AllIn(m, SendEdge(m, k).value)
  {
    SendEdgeShape(m, k);
    if SendEdge(m, k).Success? && |SendEdge(m, k).value| == 1 {
      SizeCounts(m);
      var e := SendEdge(m, k).value[0];
      var ch :| 0 <= ch < |m.channels| && m.sendingTime[ch] > 0 && ch != Ic(m)[k] &&
        e.dst == BlockActor(Mapping(m), m.noActors, ch) && e.delay == m.sendingLatency[ch];
      VerticesOfChannel(m, ch);
    }
  }

  lemma RecEdgeIn(m: MsagInput, k: nat)
    requires Shaped(m) && k < |Ic(m)|
    ensures RecEdge(m, k).Success? ==> EdgeIn(m, RecEdge(m, k).value)
  {
    RecEdgeShape(m, k);
    if RecEdge(m, k).Success? {
      SizeCounts(m);
      var e := RecEdge(m, k).value;
      var dst := m.channels[Ic(m)[k]].destination;
      if e.dst != dst {
        var ch :| 0 <= ch < |m.channels| && m.sendingTime[ch] > 0 && m.channels[ch].destination == dst &&
          e.dst == RecActor(Mapping(m), m.noActors, ch);
        VerticesOfChannel(m, ch);
      }
    }
  }

  lemma {:induction false} SendPhaseIn(m: MsagInput, n: nat)
    requires Shaped(m) && n <= |Ic(m)|
    ensures SendPhase(m, n).Success? ==> AllIn(m, SendPhase(m, n).value)
  {
    if n > 0 && SendPhase(m, n).Success? {
      SendPhaseIn(m, n - 1);
      SendEdgeIn(m, n - 1);
      AppendIn(m, SendPhase(m, n - 1).value, SendEdge(m, n - 1).value);
    }
  }

  lemma {:induction false} RecPhaseIn(m: MsagInput, n: nat)
    requires Shaped(m) && n <= |Ic(m)|
    ensures RecPhase(m, n).Success? ==> AllIn(m, RecPhase(m, n).value)
  {
    if n > 0 && RecPhase(m, n).Success? {
      RecPhaseIn(m, n - 1);
      RecEdgeIn(m, n - 1);
      AppendIn(m, RecPhase(m, n - 1).value, [RecEdge(m, n - 1).value]);
    }
  }

  lemma {:induction false} NextPhaseIn(m: MsagInput, ra: seq<int>, n: nat)
    requires Shaped(m) && ReceiversOk(m, ra) && n <= m.noActors
    ensures NextPhase(m, ra, n).Success? ==> AllIn(m, NextPhase(m, ra, n).value)
  {
    if n > 0 && NextPhase(m, ra, n).Success? {
      NextPhaseIn(m, ra, n - 1);
      AppendIn(m, NextPhase(m, ra, n - 1).value, [NextEdge(m, ra, n - 1).value]);
    }
  }

  /**
   * Every edge of a constructed MSAG joins two of its vertices and belongs
   * to one of them, so the graph handed to the cycle-ratio analysis is
   * well formed.
   */
  lemma EdgesInRange(m: MsagInput)
    requires Shaped(m) && BuildMsag(m).Success?
    ensures var g := BuildMsag(m).value;
      forall j :: 0 <= j < |g.edges| ==>
        0 <= g.edges[j].src < g.size && 0 <= g.edges[j].dst < g.size && 0 <= g.edges[j].home < g.size
  {
    var loops := Step1Loops(m, |m.channels|);
    LoopsKept(m, |m.channels|);
    assert AllIn(m, loops);
    AddedIn(m, |m.channels|);
    AppendIn(m, loops, Step1Added(m, |m.channels|));
    SendPhaseIn(m, |Ic(m)|);
    RecPhaseIn(m, |Ic(m)|);
    NextPhaseIn(m, Receivers(m, |m.channels|), m.noActors);
    var g := BuildMsag(m).value;
    var s1 := Step1Edges(m, |m.channels|);
    var se := SendPhase(m, |Ic(m)|).value;
    var re := RecPhase(m, |Ic(m)|).value;
    var ne := NextPhase(m, Receivers(m, |m.channels|), m.noActors).value;
    assert g.edges == s1 + se + re + ne;
    AppendIn(m, s1, se);
    AppendIn(m, s1 + se, re);
    AppendIn(m, s1 + se + re, ne);
  }
}
