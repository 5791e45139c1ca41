// The platform facts the search reads (platform/platform.cpp): processing
// elements with their modes, the homogeneity tests, and the worst-case
// timing tables of the TDMA bus. The platform is built from its XML
// description and never changes afterwards, so it is a value here.
module Platforms {
  import opened Wrappers
  import opened MetaTools

  /**
   * A processing element: its model and type names, its number of modes
   * `n_types`, and per mode its cycle length, memory, power, area and
   * monetary cost.
   */
  datatype Node = Node(model: string, kind: string, nTypes: nat,
                       cycleLength: seq<real>, memorySize: seq<int>, powerCons: seq<int>,
                       areaCost: seq<int>, monetaryCost: seq<int>, bufferSize: int)
  {
    /** One entry per mode in every per-mode vector. */
    predicate WellFormed()
    {
      |cycleLength| == nTypes && |memorySize| == nTypes && |powerCons| == nTypes &&
      |areaCost| == nTypes && |monetaryCost| == nTypes
    }
  }

  /** The TDMA bus: slots per round, data per slot, round length. */
  datatype Interconnect = Interconnect(tdmaSlots: int, dataPerSlot: int, dataPerRound: int, roundLength: int)

  datatype Platform = Platform(compNodes: seq<Node>, interconnect: Interconnect)
  {
    /** `nodes()`. */
    function Nodes(): nat
    {
      |compNodes|
    }

    /** `getModes(node)`. */
    function GetModes(node: nat): nat
      requires node < |compNodes|
    {
      compNodes[node].nTypes
    }

    /** `tdmaSlots()`. */
    function TdmaSlots(): int
    {
      interconnect.tdmaSlots
    }
  }

  // ---------------------------------------------------------------------
  // Modes

  /** The largest mode count among `nodes`, 0 when there is none. */
  function MaxModes(nodes: seq<Node>): nat
  {
    if nodes == [] then 0
    else
      var rest := MaxModes(nodes[..|nodes| - 1]);
      if nodes[|nodes| - 1].nTypes > rest then nodes[|nodes| - 1].nTypes else rest
  }

  /** `getMaxModes()`: a running maximum over the nodes. */
  method GetMaxModes(pl: Platform) returns (maxMode: nat)
    ensures forall k :: 0 <= k < |pl.compNodes| ==> pl.compNodes[k].nTypes <= maxMode
    ensures maxMode == 0 || exists k :: 0 <= k < |pl.compNodes| && pl.compNodes[k].nTypes == maxMode
    ensures maxMode == MaxModes(pl.compNodes)
  {
    maxMode := 0;
    var k := 0;
    while k < pl.Nodes()
      invariant 0 <= k <= |pl.compNodes|
      invariant maxMode == MaxModes(pl.compNodes[..k])
      invariant forall j :: 0 <= j < k ==> pl.compNodes[j].nTypes <= maxMode
      invariant maxMode == 0 || exists j :: 0 <= j < k && pl.compNodes[j].nTypes == maxMode
    {
      assert pl.compNodes[..k + 1][..k] == pl.compNodes[..k];
      if pl.GetModes(k) > maxMode {
        maxMode := pl.GetModes(k);
      }
      k := k + 1;
    }
    assert pl.compNodes[..k] == pl.compNodes;
  }

  /** The recursive maximum is the least bound that some node attains (or 0). */
  lemma {:induction false} MaxModesIsMax(nodes: seq<Node>)
    ensures forall k :: 0 <= k < |nodes| ==> nodes[k].nTypes <= MaxModes(nodes)
    ensures MaxModes(nodes) == 0 || exists k :: 0 <= k < |nodes| && nodes[k].nTypes == MaxModes(nodes)
  {
    if nodes != [] {
      var init := nodes[..|nodes| - 1];
      MaxModesIsMax(init);
      assert forall k :: 0 <= k < |init| ==> init[k] == nodes[k];
    }
  }

  /** `isFixed()`: true unless some node has more than one mode. */
  method IsFixed(pl: Platform) returns (fixed: bool)
    ensures fixed <==> forall j :: 0 <= j < |pl.compNodes| ==> pl.compNodes[j].nTypes <= 1
  {
    var j := 0;
    while j < pl.Nodes()
      invariant 0 <= j <= |pl.compNodes|
      invariant forall i :: 0 <= i < j ==> pl.compNodes[i].nTypes <= 1
    {
      if pl.compNodes[j].nTypes > 1 {
        return false;
      }
      j := j + 1;
    }
    return true;
  }

  /** A platform is fixed exactly when its largest mode count is at most 1. */
  lemma FixedIffMaxModes(pl: Platform)
    ensures (forall j :: 0 <= j < |pl.compNodes| ==> pl.compNodes[j].nTypes <= 1) <==> MaxModes(pl.compNodes) <= 1
  {
    MaxModesIsMax(pl.compNodes);
  }

  /** `allProcsFixed()`: true unless some node is of type "flexProc". */
  method AllProcsFixed(pl: Platform) returns (fixed: bool)
    ensures fixed <==> forall j :: 0 <= j < |pl.compNodes| ==> pl.compNodes[j].kind != "flexProc"
  {
    var j := 0;
    while j < pl.Nodes()
      invariant 0 <= j <= |pl.compNodes|
      invariant forall i :: 0 <= i < j ==> pl.compNodes[i].kind != "flexProc"
    {
      if pl.compNodes[j].kind == "flexProc" {
        return false;
      }
      j := j + 1;
    }
    return true;
  }

  // ---------------------------------------------------------------------
  // Homogeneity

  /**
   * Where `homogeneousNodes` gets as far as comparing memories, both nodes
   * have a first memory entry to compare.
   */
  predicate MemoriesReadable(n0: Node, n1: Node)
  {
    n0.nTypes <= 1 && n1.nTypes <= 1 && n0.kind == n1.kind && n0.cycleLength == n1.cycleLength ==>
      |n0.memorySize| >= 1 && |n1.memorySize| >= 1
  }

  /**
   * `homogeneousNodes(node0, node1)`: both single-mode, of the same type,
   * with the same cycle lengths and the same first memory size.
   */
  predicate HomogeneousNodes(n0: Node, n1: Node)
    requires MemoriesReadable(n0, n1)
  {
    !(n0.nTypes > 1 || n1.nTypes > 1 || n0.kind != n1.kind || n0.cycleLength != n1.cycleLength ||
      n0.memorySize[0] != n1.memorySize[0])
  }

  /** Homogeneous nodes have at most one mode each, and the relation is symmetric. */
  lemma HomogeneousNodesSingleMode(n0: Node, n1: Node)
    requires MemoriesReadable(n0, n1)
    ensures HomogeneousNodes(n0, n1) ==> n0.nTypes <= 1 && n1.nTypes <= 1
    ensures MemoriesReadable(n1, n0) && (HomogeneousNodes(n0, n1) <==> HomogeneousNodes(n1, n0))
  {
  }

  /** Every adjacent pair of nodes can be compared. */
  predicate AllReadable(nodes: seq<Node>)
  {
    forall j :: 1 <= j < |nodes| ==> MemoriesReadable(nodes[j - 1], nodes[j])
  }

  /** `homogeneous()`: every adjacent pair of nodes is homogeneous. */
  method Homogeneous(pl: Platform) returns (homogeneous: bool)
    requires AllReadable(pl.compNodes)
    ensures homogeneous <==>
      forall j :: 1 <= j < |pl.compNodes| ==> HomogeneousNodes(pl.compNodes[j - 1], pl.compNodes[j])
  {
    var j := 1;
    while j < pl.Nodes()
      invariant 1 <= j <= |pl.compNodes| || |pl.compNodes| == 0
      invariant forall i :: 1 <= i < j && i < |pl.compNodes| ==> HomogeneousNodes(pl.compNodes[i - 1], pl.compNodes[i])
    {
      if !HomogeneousNodes(pl.compNodes[j - 1], pl.compNodes[j]) {
        return false;
      }
      j := j + 1;
    }
    return true;
  }

  /** A homogeneous platform with at least two nodes is fixed. */
  lemma HomogeneousIsFixed(pl: Platform)
    requires AllReadable(pl.compNodes) && |pl.compNodes| >= 2
    requires forall j :: 1 <= j < |pl.compNodes| ==> HomogeneousNodes(pl.compNodes[j - 1], pl.compNodes[j])
    ensures forall j :: 0 <= j < |pl.compNodes| ==> pl.compNodes[j].nTypes <= 1
  {
    forall j | 0 <= j < |pl.compNodes|
      ensures pl.compNodes[j].nTypes <= 1
    {
      if j == 0 {
        HomogeneousNodesSingleMode(pl.compNodes[0], pl.compNodes[1]);
      } else {
        HomogeneousNodesSingleMode(pl.compNodes[j - 1], pl.compNodes[j]);
      }
    }
  }

  /** Mode `m` of both nodes has the same cycle length, memory, power, area and cost. */
  predicate SameMode(n0: Node, n1: Node, m: int)
    requires n0.WellFormed() && n1.WellFormed() && 0 <= m < n0.nTypes && m < n1.nTypes
  {
    n0.cycleLength[m] == n1.cycleLength[m] && n0.memorySize[m] == n1.memorySize[m] &&
    n0.powerCons[m] == n1.powerCons[m] && n0.areaCost[m] == n1.areaCost[m] &&
    n0.monetaryCost[m] == n1.monetaryCost[m]
  }

  /** `homogeneousModeNodes(node0, node1)`: the same number of modes, mode for mode equal. */
  method HomogeneousModeNodes(n0: Node, n1: Node) returns (same: bool)
    requires n0.WellFormed() && n1.WellFormed()
    ensures same <==> n0.nTypes == n1.nTypes && forall m :: 0 <= m < n0.nTypes ==> SameMode(n0, n1, m)
  {
    if n0.nTypes != n1.nTypes {
      return false;
    }
    var m := 0;
    while m < n0.nTypes
      invariant 0 <= m <= n0.nTypes
      invariant forall k :: 0 <= k < m ==> SameMode(n0, n1, k)
    {
      if n0.cycleLength[m] != n1.cycleLength[m] || n0.memorySize[m] != n1.memorySize[m] ||
         n0.powerCons[m] != n1.powerCons[m] || n0.areaCost[m] != n1.areaCost[m] ||
         n0.monetaryCost[m] != n1.monetaryCost[m] {
        assert !SameMode(n0, n1, m);
        return false;
      }
      m := m + 1;
    }
    return true;
  }

  /** Two single-mode well-formed nodes that are mode-homogeneous and of one type are homogeneous. */
  lemma ModeHomogeneousSingle(n0: Node, n1: Node)
    requires n0.WellFormed() && n1.WellFormed() && n0.nTypes == 1 && n1.nTypes == 1
    requires SameMode(n0, n1, 0) && n0.kind == n1.kind
    ensures MemoriesReadable(n0, n1) && HomogeneousNodes(n0, n1)
  {
    assert n0.cycleLength == [n0.cycleLength[0]] && n1.cycleLength == [n1.cycleLength[0]];
  }

  // ---------------------------------------------------------------------
  // TDMA timing tables (exact arithmetic)

  /** The length of one slot: the round length shared among the slots. */
  function SlotLength(ic: Interconnect): real
    requires ic.tdmaSlots >= 1
  {
    ic.roundLength as real / ic.tdmaSlots as real
  }

  /** How many slots a token of `tokSize` occupies. */
  function SlotsNeeded(ic: Interconnect, tokSize: int): real
    requires ic.dataPerSlot != 0
  {
    tokSize as real / ic.dataPerSlot as real
  }

  /** Worst-case wait for the first of `i` slots: a whole round less the slots owned. */
  function BlockingAt(ic: Interconnect, i: int): int
    requires ic.tdmaSlots >= 1
  {
    Ceil(ic.roundLength as real - (i - 1) as real * SlotLength(ic))
  }

  /** The rounds a token needs with `i` slots per round. */
  function RoundsNeeded(ic: Interconnect, tokSize: int, i: int): int
    requires ic.dataPerSlot != 0 && i >= 1
  {
    Ceil(SlotsNeeded(ic, tokSize) / i as real)
  }

  /** The time spent sending in owned slots plus waiting between the rounds. */
  function TransferTime(ic: Interconnect, tokSize: int, i: int): real
    requires ic.tdmaSlots >= 1 && ic.dataPerSlot != 0 && i >= 1
  {
    SlotsNeeded(ic, tokSize) * SlotLength(ic) +
    (RoundsNeeded(ic, tokSize, i) - 1) as real * (ic.roundLength as real - i as real * SlotLength(ic))
  }

  /** `maxTransferTimes` entry `i >= 1`. */
  function TransferAt(ic: Interconnect, tokSize: int, i: int): int
    requires ic.tdmaSlots >= 1 && ic.dataPerSlot != 0 && i >= 1
  {
    Ceil(TransferTime(ic, tokSize, i))
  }

  /** `maxCommTimes` entry `i >= 1`: blocking and transfer as one ceiling. */
  function CommAt(ic: Interconnect, tokSize: int, i: int): int
    requires ic.tdmaSlots >= 1 && ic.dataPerSlot != 0 && i >= 1
  {
    Ceil(ic.roundLength as real - (i - 1) as real * SlotLength(ic) + TransferTime(ic, tokSize, i))
  }

  /** `maxBlockingTimes()`: 0 for no slot, then the blocking time for 1 .. tdmaSlots slots. */
  method MaxBlockingTimes(ic: Interconnect) returns (times: seq<int>)
    requires ic.tdmaSlots >= 0
    ensures |times| == ic.tdmaSlots + 1 && times[0] == 0
    ensures forall i :: 1 <= i <= ic.tdmaSlots ==> times[i] == BlockingAt(ic, i)
  {
    // with no slot the loop below never runs and the quotient is not formed
    var slotLength := if ic.tdmaSlots >= 1 then ic.roundLength as real / ic.tdmaSlots as real else 0.0;
    times := [0];
    var i := 1;
    while i <= ic.tdmaSlots
      invariant 1 <= i <= ic.tdmaSlots + 1 && |times| == i && times[0] == 0
      invariant ic.tdmaSlots >= 1 ==> slotLength == SlotLength(ic)
      invariant forall k :: 1 <= k < i ==> times[k] == BlockingAt(ic, k)
    {
      var initBlock := ic.roundLength as real - (i - 1) as real * slotLength;
      times := times + [Ceil(initBlock)];
      i := i + 1;
    }
  }

  /** `maxTransferTimes(tokSize)`: 0 for no slot, then the transfer time for 1 .. tdmaSlots slots. */
  method MaxTransferTimes(ic: Interconnect, tokSize: int) returns (times: seq<int>)
    requires ic.tdmaSlots >= 0 && (ic.tdmaSlots >= 1 ==> ic.dataPerSlot != 0)
    ensures |times| == ic.tdmaSlots + 1 && times[0] == 0
    ensures forall i :: 1 <= i <= ic.tdmaSlots ==> times[i] == TransferAt(ic, tokSize, i)
  {
    var slotLength := if ic.tdmaSlots >= 1 then ic.roundLength as real / ic.tdmaSlots as real else 0.0;
    var slotsNeeded := if ic.tdmaSlots >= 1 then tokSize as real / ic.dataPerSlot as real else 0.0;
    var activeSendingTime := slotsNeeded * slotLength;
    times := [0];
    var i := 1;
    while i <= ic.tdmaSlots
      invariant 1 <= i <= ic.tdmaSlots + 1 && |times| == i && times[0] == 0
      invariant ic.tdmaSlots >= 1 ==> slotLength == SlotLength(ic) && slotsNeeded == SlotsNeeded(ic, tokSize)
      invariant activeSendingTime == slotsNeeded * slotLength
      invariant forall k :: 1 <= k < i ==> times[k] == TransferAt(ic, tokSize, k)
    {
      var roundsNeeded := Ceil(slotsNeeded / i as real);
      var slotDelay := (roundsNeeded - 1) as real * (ic.roundLength as real - i as real * slotLength);
      assert roundsNeeded == RoundsNeeded(ic, tokSize, i);
      assert activeSendingTime + slotDelay == TransferTime(ic, tokSize, i);
      times := times + [Ceil(activeSendingTime + slotDelay)];
      i := i + 1;
    }
  }

  /** `maxCommTimes(tokSize)`: -1 for no slot, then blocking plus transfer for 1 .. tdmaSlots slots. */
  method MaxCommTimes(ic: Interconnect, tokSize: int) returns (times: seq<int>)
    requires ic.tdmaSlots >= 0 && (ic.tdmaSlots >= 1 ==> ic.dataPerSlot != 0)
    ensures |times| == ic.tdmaSlots + 1 && times[0] == -1
    ensures forall i :: 1 <= i <= ic.tdmaSlots ==> times[i] == CommAt(ic, tokSize, i)
  {
    var slotLength := if ic.tdmaSlots >= 1 then ic.roundLength as real / ic.tdmaSlots as real else 0.0;
    var slotsNeeded := if ic.tdmaSlots >= 1 then tokSize as real / ic.dataPerSlot as real else 0.0;
    var activeSendingTime := slotsNeeded * slotLength;
    times := [-1];
    var i := 1;
    while i <= ic.tdmaSlots
      invariant 1 <= i <= ic.tdmaSlots + 1 && |times| == i && times[0] == -1
      invariant ic.tdmaSlots >= 1 ==> slotLength == SlotLength(ic) && slotsNeeded == SlotsNeeded(ic, tokSize)
      invariant activeSendingTime == slotsNeeded * slotLength
      invariant forall k :: 1 <= k < i ==> times[k] == CommAt(ic, tokSize, k)
    {
      var initBlock := ic.roundLength as real - (i - 1) as real * slotLength;
      var roundsNeeded := Ceil(slotsNeeded / i as real);
      var slotDelay := (roundsNeeded - 1) as real * (ic.roundLength as real - i as real * slotLength);
      assert roundsNeeded == RoundsNeeded(ic, tokSize, i);
      assert activeSendingTime + slotDelay == TransferTime(ic, tokSize, i);
      assert initBlock + activeSendingTime + slotDelay ==
        ic.roundLength as real - (i - 1) as real * SlotLength(ic) + TransferTime(ic, tokSize, i);
      times := times + [Ceil(initBlock + activeSendingTime + slotDelay)];
      i := i + 1;
    }
  }

  /** More slots never lengthen the blocking time (for a round of non-negative length). */
  lemma BlockingNonIncreasing(ic: Interconnect, i: int, j: int)
    requires ic.tdmaSlots >= 1 && ic.roundLength >= 0 && i <= j
    ensures BlockingAt(ic, j) <= BlockingAt(ic, i)
  {
    var sl := SlotLength(ic);
    assert sl >= 0.0;
    assert (i - 1) as real * sl <= (j - 1) as real * sl;
    CeilMonotone(ic.roundLength as real - (j - 1) as real * sl, ic.roundLength as real - (i - 1) as real * sl);
  }

  /** One slot blocks for a whole round; all the slots block for one slot length, rounded up. */
  lemma BlockingEnds(ic: Interconnect)
    requires ic.tdmaSlots >= 1
    ensures BlockingAt(ic, 1) == ic.roundLength
    ensures BlockingAt(ic, ic.tdmaSlots) == Ceil(SlotLength(ic))
  {
    var r, t := ic.roundLength as real, ic.tdmaSlots as real;
    calc {
      r - (t - 1.0) * (r / t);
      r - t * (r / t) + r / t;
      { assert t * (r / t) == r; }
      r / t;
    }
  }

  /**
   * Each communication-time entry lies between the sum of the blocking and
   * transfer entries less one and that sum: one ceiling of a sum against
   * two.
   */
  lemma CommBetweenParts(ic: Interconnect, tokSize: int, i: int)
    requires ic.tdmaSlots >= 1 && ic.dataPerSlot != 0 && 1 <= i
    ensures BlockingAt(ic, i) + TransferAt(ic, tokSize, i) - 1 <= CommAt(ic, tokSize, i)
    ensures CommAt(ic, tokSize, i) <= BlockingAt(ic, i) + TransferAt(ic, tokSize, i)
  {
    CeilOfSum(ic.roundLength as real - (i - 1) as real * SlotLength(ic), TransferTime(ic, tokSize, i));
  }

  // ---------------------------------------------------------------------
  // Processor models

  /** `getProcModel(id)` as written: only an id above the node count is rejected. */
  predicate ProcModelAcceptsAsWritten(nodes: nat, id: nat)
  {
    !(id > nodes)
  }

  /** The written guard lets `id == nodes()` through, which indexes one past the last node. */
  lemma ProcModelAdmitsEnd(pl: Platform)
    ensures ProcModelAcceptsAsWritten(pl.Nodes(), pl.Nodes()) && !(pl.Nodes() < |pl.compNodes|)
  {
  }

  /** `getProcModel(id)` with the intended guard: the model name of node `id`. */
  function GetProcModel(pl: Platform, id: nat): (r: Result<string>)
    ensures r.Success? <==> id < |pl.compNodes|
    ensures r.Success? ==> r.value == pl.compNodes[id].model
  {
    if id >= |pl.compNodes| then Failure("processor id out of bound\n")
    else Success(pl.compNodes[id].model)
  }
}
