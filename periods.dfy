// calc_periods (system/design.cpp): the period of every application is
// the maximum cycle ratio of the MSAG of its group of co-mapped
// applications. With a single application the one MSAG is analysed.
module Periods {
  import opened Wrappers
  import opened DesignData
  import opened Msag
  import opened MsagBuild
  import opened CoMapping

  // ---------------------------------------------------------------------
  // msagMap and msagId

  /**
   * calc_periods' `msagMap`: every application is mapped to the number of
   * its group. The elements of each group are visited in ascending order.
   */
  method MsagMapLoop(groups: seq<set<int>>, n: nat) returns (msagMap: seq<int>)
    requires Partition(groups, n)
    ensures |msagMap| == n && Labelled(groups, msagMap, Numbers(|groups|), |groups|)
  {
    msagMap := seq(n, _ => 0);
    for i := 0 to |groups|
      invariant |msagMap| == n && Labelled(groups, msagMap, Numbers(|groups|), i)
    {
      msagMap := LabelGroup(groups, n, msagMap, Numbers(|groups|), i);
    }
  }

  /** `0, 1, .., k - 1`: the number of each group. */
  function Numbers(k: nat): (s: seq<int>)
    ensures |s| == k && forall i :: 0 <= i < k ==> s[i] == i
  {
    seq(k, i => i)
  }

  /** The applications of the groups below `i` carry their group's value in `s`. */
  predicate Labelled(groups: seq<set<int>>, s: seq<int>, vals: seq<int>, i: nat)
    requires i <= |groups| && |vals| == |groups|
  {
    forall j :: 0 <= j < i ==> forall a :: a in groups[j] ==> 0 <= a < |s| && s[a] == vals[j]
  }

  /** Writes group `i`'s value at each of its applications, in ascending order. */
  method LabelGroup(groups: seq<set<int>>, n: nat, s0: seq<int>, vals: seq<int>, i: nat) returns (s: seq<int>)
    requires Partition(groups, n) && i < |groups| && |vals| == |groups| && |s0| == n
    requires Labelled(groups, s0, vals, i)
    ensures |s| == n && Labelled(groups, s, vals, i + 1)
  {
    s := s0;
    for a := 0 to n
      invariant |s| == n && Labelled(groups, s, vals, i)
      invariant forall b :: 0 <= b < a && b in groups[i] ==> s[b] == vals[i]
    {
      if a in groups[i] {
        InOneGroup(groups, n, i, a);
        s := s[a := vals[i]];
      }
    }
    forall b | b in groups[i]
      ensures 0 <= b < n && s[b] == vals[i]
    {
      UnionMember(groups, i, b);
    }
  }

  /** An application of group `i` is in no other group, and is an application. */
  lemma InOneGroup(groups: seq<set<int>>, n: nat, i: nat, a: int)
    requires Partition(groups, n) && i < |groups| && a in groups[i]
    ensures 0 <= a < n && forall j :: 0 <= j < |groups| && j != i ==> a !in groups[j]
  {
    UnionMember(groups, i, a);
    forall j | 0 <= j < |groups| && j != i
      ensures a !in groups[j]
    {
      if j < i {
        assert groups[j] !! groups[i];
      } else {
        assert groups[i] !! groups[j];
      }
    }
  }

  /** Every application has a group. */
  lemma HasGroup(groups: seq<set<int>>, n: nat, a: int)
    requires Partition(groups, n) && 0 <= a < n
    ensures exists i :: 0 <= i < |groups| && a in groups[i]
  {
    UnionWitness(groups, a);
  }

  /** constructMSAG's `msagId`: the group of every vertex's application. */
  method MsagIds(g: seq<int>, m: MsagInput, ai: seq<int>, cm: seq<int>, msagMap: seq<int>) returns (ids: seq<int>)
    requires Fits(g, m) && ai == AppIndexOf(g) && cm == Mapping(m) && |msagMap| == NoApps(g)
    ensures |ids| == Size(m)
    ensures forall v :: 0 <= v < Size(m) ==> ids[v] == msagMap[AppOfVertex(g, m, v)]
  {
    ids := [];
    for i := 0 to Size(m)
      invariant |ids| == i
      invariant forall v :: 0 <= v < i ==> ids[v] == msagMap[AppOfVertex(g, m, v)]
    {
      var app := VertexApp(g, m, ai, cm, i);
      ids := ids + [msagMap[app]];
    }
  }

  // ---------------------------------------------------------------------
  // One graph per group

  /** The edges that go to graph `k`: those whose home vertex has `msagId` `k`, in order. */
  function GroupEdges(edges: seq<Edge>, ids: seq<int>, k: int): (es: seq<Edge>)
    ensures |es| <= |edges|
  {
    if edges == [] then []
    else
      var e := edges[|edges| - 1];
      GroupEdges(edges[..|edges| - 1], ids, k) +
        (if 0 <= e.home < |ids| && ids[e.home] == k then [e] else [])
  }

  /** An edge is in graph `k` exactly when it is an edge whose home vertex has `msagId` `k`. */
  lemma {:induction false} GroupEdgesMember(edges: seq<Edge>, ids: seq<int>, k: int, e: Edge)
    ensures e in GroupEdges(edges, ids, k) <==> e in edges && 0 <= e.home < |ids| && ids[e.home] == k
  {
    if edges != [] {
      var n := |edges| - 1;
      GroupEdgesMember(edges[..n], ids, k, e);
      assert edges == edges[..n] + [edges[n]];
    }
  }

  /**
   * The edges of the graph of the applications in `grp`: those whose home
   * vertex belongs to one of them, in order.
   */
  function EdgesOfGroup(g: seq<int>, m: MsagInput, edges: seq<Edge>, grp: set<int>): (es: seq<Edge>)
    requires Fits(g, m)
    ensures |es| <= |edges|
  {
    if edges == [] then []
    else
      var e := edges[|edges| - 1];
      EdgesOfGroup(g, m, edges[..|edges| - 1], grp) +
        (if 0 <= e.home < Size(m) && AppOfVertex(g, m, e.home) in grp then [e] else [])
  }

  /** Selecting by `msagId` selects the edges of the group's applications. */
  lemma {:induction false} GroupEdgesOfGroup(g: seq<int>, m: MsagInput, edges: seq<Edge>, ids: seq<int>,
                                             msagMap: seq<int>, groups: seq<set<int>>, k: nat)
    requires Fits(g, m) && Partition(groups, NoApps(g)) && k < |groups| && |msagMap| == NoApps(g)
    requires Labelled(groups, msagMap, Numbers(|groups|), |groups|)
    requires |ids| == Size(m) && forall v :: 0 <= v < Size(m) ==> ids[v] == msagMap[AppOfVertex(g, m, v)]
    ensures GroupEdges(edges, ids, k) == EdgesOfGroup(g, m, edges, groups[k])
  {
    if edges != [] {
      var n := |edges| - 1;
      GroupEdgesOfGroup(g, m, edges[..n], ids, msagMap, groups, k);
      var e := edges[n];
      if 0 <= e.home < Size(m) {
        var app := AppOfVertex(g, m, e.home);
        HasGroup(groups, NoApps(g), app);
        var i :| 0 <= i < |groups| && app in groups[i];
        InOneGroup(groups, NoApps(g), i, app);
      }
    }
  }

  /**
   * Adding each edge to `b_msags[msagId[home]]`: the edges of the one
   * MSAG distributed over the graphs of the groups.
   */
  method SplitEdges(edges: seq<Edge>, ids: seq<int>, count: nat) returns (graphs: seq<seq<Edge>>)
    requires forall j :: 0 <= j < |edges| ==> 0 <= edges[j].home < |ids| && 0 <= ids[edges[j].home] < count
    ensures |graphs| == count
    ensures forall k :: 0 <= k < count ==> graphs[k] == GroupEdges(edges, ids, k)
  {
    graphs := seq(count, _ => []);
    for j := 0 to |edges|
      invariant |graphs| == count
      invariant forall k :: 0 <= k < count ==> graphs[k] == GroupEdges(edges[..j], ids, k)
    {
      assert edges[..j + 1][..j] == edges[..j];
      var e := edges[j];
      var k := ids[e.home];
      graphs := graphs[k := graphs[k] + [e]];
    }
    assert edges[..|edges|] == edges;
  }

  // ---------------------------------------------------------------------
  // The periods

  /** The maximum cycle ratio of every group's graph (`msag_mcrs`). */
  method McrLoop(graphs: seq<seq<Edge>>, mcr: seq<Edge> -> int) returns (mcrs: seq<int>)
    ensures |mcrs| == |graphs| && forall i :: 0 <= i < |graphs| ==> mcrs[i] == mcr(graphs[i])
  {
    mcrs := [];
    for i := 0 to |graphs|
      invariant |mcrs| == i && forall j :: 0 <= j < i ==> mcrs[j] == mcr(graphs[j])
    {
      mcrs := mcrs + [mcr(graphs[i])];
    }
  }

  /** Every application of group `i` gets the group's cycle ratio as its period. */
  method AssignPeriods(groups: seq<set<int>>, mcrs: seq<int>, n: nat) returns (periods: seq<int>)
    requires Partition(groups, n) && |mcrs| == |groups|
    ensures |periods| == n && Labelled(groups, periods, mcrs, |groups|)
  {
    periods := seq(n, _ => 0);
    for i := 0 to |mcrs|
      invariant |periods| == n && Labelled(groups, periods, mcrs, i)
    {
      periods := LabelGroup(groups, n, periods, mcrs, i);
    }
  }

  /**
   * The result of calc_periods for the groups `groups`: every application
   * has the maximum cycle ratio of the MSAG edges of its group's
   * applications as its period.
   */
  predicate PeriodsOfGroups(g: seq<int>, m: MsagInput, mcr: seq<Edge> -> int, groups: seq<set<int>>,
                            edges: seq<Edge>, periods: seq<int>)
    requires Fits(g, m)
  {
    |periods| == NoApps(g) &&
    forall i :: 0 <= i < |groups| ==> forall r :: r in groups[i] ==>
      0 <= r < NoApps(g) && periods[r] == mcr(EdgesOfGroup(g, m, edges, groups[i]))
  }

  /**
   * calc_periods. With more than one application, the applications are
   * grouped by co-mapping, the MSAG's edges are distributed over one graph
   * per group, and each application gets its group's maximum cycle ratio;
   * with one application, the MSAG's own. It fails exactly when the MSAG
   * cannot be built; `groups` is the source's `result`.
   */
  method CalcPeriods(g: seq<int>, m: MsagInput, mcr: seq<Edge> -> int)
    returns (r: Result<seq<int>>, groups: seq<set<int>>)
    requires Fits(g, m)
    ensures r.Success? <==> BuildMsag(m).Success?
    ensures Partition(groups, NoApps(g)) && GroupsClosed(CoMapped(g, m, m.noActors), groups)
    ensures forall i, a :: 0 <= i < |groups| && a in groups[i] ==>
      groups[i] == Component(CoMapped(g, m, m.noActors), a)
    ensures r.Success? ==> PeriodsOfGroups(g, m, mcr, groups, BuildMsag(m).value.edges, r.value)
  {
    var ai := AppIndexOf(g);
    var n := NoApps(g);
    if n > 1 {
      var co := CoMapLoop(g, m, ai);
      CoMappedOk(g, m);
      groups := GroupApps(co);
      var msagMap := MsagMapLoop(groups, n);
      var graph := ConstructMsag(m);
      if graph.Failure? {
        return Failure(graph.error), groups;
      }
      var periods := GroupPeriods(g, m, mcr, ai, groups, msagMap, graph.value);
      r := Success(periods);
    } else {
      groups := [{0}];
      SingleGroup(g, m);
      var graph := ConstructMsag(m);
      if graph.Failure? {
        return Failure(graph.error), groups;
      }
      EdgesInRange(m);
      SingleEdges(g, m, graph.value.edges);
      r := Success([mcr(graph.value.edges)]);
    }
  }

  /**
   * The part of calc_periods after the MSAG is built: `msagId`, one graph
   * per group, the cycle ratio of each, and the periods.
   */
  method GroupPeriods(g: seq<int>, m: MsagInput, mcr: seq<Edge> -> int, ai: seq<int>, groups: seq<set<int>>,
                      msagMap: seq<int>, graph: Graph) returns (periods: seq<int>)
    requires Fits(g, m) && ai == AppIndexOf(g) && Partition(groups, NoApps(g))
    requires |msagMap| == NoApps(g) && Labelled(groups, msagMap, Numbers(|groups|), |groups|)
    requires BuildMsag(m) == Success(graph)
    ensures PeriodsOfGroups(g, m, mcr, groups, graph.edges, periods)
  {
    var n := NoApps(g);
    var ids := MsagIds(g, m, ai, graph.channelMapping, msagMap);
    var edges := graph.edges;
    EdgesInRange(m);
    forall j | 0 <= j < |edges|
      ensures 0 <= edges[j].home < |ids| && 0 <= ids[edges[j].home] < |groups|
    {
      var app := AppOfVertex(g, m, edges[j].home);
      HasGroup(groups, n, app);
    }
    var graphs := SplitEdges(edges, ids, |groups|);
    var mcrs := McrLoop(graphs, mcr);
    periods := AssignPeriods(groups, mcrs, n);
    forall i | 0 <= i < |groups|
      ensures mcrs[i] == mcr(EdgesOfGroup(g, m, edges, groups[i]))
    {
      GroupEdgesOfGroup(g, m, edges, ids, msagMap, groups, i);
    }
  }

  /** With one application, its single group is the partition and its own component. */
  lemma SingleGroup(g: seq<int>, m: MsagInput)
    requires Fits(g, m) && NoApps(g) == 1
    ensures Partition([{0}], 1) && GroupsClosed(CoMapped(g, m, m.noActors), [{0}])
    ensures Component(CoMapped(g, m, m.noActors), 0) == {0}
  {
    assert Union([{0}]) == {0} by {
      assert [{0}][..0] == [];
    }
    CoMappedOk(g, m);
    ConnectedRefl(CoMapped(g, m, m.noActors), 0);
  }

  /** With one application, its graph has every edge whose home is a vertex. */
  lemma {:induction false} SingleEdges(g: seq<int>, m: MsagInput, edges: seq<Edge>)
    requires Fits(g, m) && NoApps(g) == 1
    requires forall j :: 0 <= j < |edges| ==> 0 <= edges[j].home < Size(m)
    ensures EdgesOfGroup(g, m, edges, {0}) == edges
  {
    if edges != [] {
      var n := |edges| - 1;
      SingleEdges(g, m, edges[..n]);
      assert edges == edges[..n] + [edges[n]];
    }
  }

  /** Co-mapped applications have the same period. */
  predicate SamePeriods(g: seq<int>, m: MsagInput, periods: seq<int>)
    requires Fits(g, m)
  {
    |periods| == NoApps(g) &&
    forall a :: 0 <= a < NoApps(g) ==> forall b :: b in CoMapped(g, m, m.noActors)[a] ==>
      0 <= b < NoApps(g) && periods[a] == periods[b]
  }

  /**
   * The periods calc_periods gives, independently of how the groups were
   * found: each application's period is the maximum cycle ratio of the
   * MSAG edges of all applications transitively co-mapped with it.
   */
  ghost predicate PeriodsOfComponents(g: seq<int>, m: MsagInput, mcr: seq<Edge> -> int, edges: seq<Edge>,
                                      periods: seq<int>)
    requires Fits(g, m)
  {
    |periods| == NoApps(g) &&
    forall a :: 0 <= a < NoApps(g) ==>
      periods[a] == mcr(EdgesOfGroup(g, m, edges, Component(CoMapped(g, m, m.noActors), a)))
  }

  /** Periods given group by group, with the groups the components, are given component by component. */
  lemma ComponentPeriods(g: seq<int>, m: MsagInput, mcr: seq<Edge> -> int, groups: seq<set<int>>,
                         edges: seq<Edge>, periods: seq<int>)
    requires Fits(g, m) && Partition(groups, NoApps(g))
    requires forall i, a :: 0 <= i < |groups| && a in groups[i] ==>
      groups[i] == Component(CoMapped(g, m, m.noActors), a)
    requires PeriodsOfGroups(g, m, mcr, groups, edges, periods)
    ensures PeriodsOfComponents(g, m, mcr, edges, periods)
  {
    forall a | 0 <= a < NoApps(g)
      ensures periods[a] == mcr(EdgesOfGroup(g, m, edges, Component(CoMapped(g, m, m.noActors), a)))
    {
      HasGroup(groups, NoApps(g), a);
      var i :| 0 <= i < |groups| && a in groups[i];
    }
  }

  /**
   * calc_periods' outcome as a design keeps it: it fails exactly when the
   * MSAG cannot be built; otherwise every application's period is the
   * cycle ratio of its component's edges, so co-mapped applications get
   * the same period.
   */
  method PeriodsShared(g: seq<int>, m: MsagInput, mcr: seq<Edge> -> int) returns (r: Result<seq<int>>)
    requires Fits(g, m)
    ensures r.Success? <==> BuildMsag(m).Success?
    ensures r.Success? ==> SamePeriods(g, m, r.value)
    ensures r.Success? ==> PeriodsOfComponents(g, m, mcr, BuildMsag(m).value.edges, r.value)
  {
    var groups;
    r, groups := CalcPeriods(g, m, mcr);
    if r.Success? {
      SharedFromGroups(g, m, mcr, groups, BuildMsag(m).value.edges, r.value);
      ComponentPeriods(g, m, mcr, groups, BuildMsag(m).value.edges, r.value);
    }
  }

  /** Periods given group by group, with closed groups, are shared by co-mapped applications. */
  lemma SharedFromGroups(g: seq<int>, m: MsagInput, mcr: seq<Edge> -> int, groups: seq<set<int>>,
                         edges: seq<Edge>, periods: seq<int>)
    requires Fits(g, m) && Partition(groups, NoApps(g)) && GroupsClosed(CoMapped(g, m, m.noActors), groups)
    requires PeriodsOfGroups(g, m, mcr, groups, edges, periods)
    ensures SamePeriods(g, m, periods)
  {
    forall a, b | 0 <= a < NoApps(g) && b in CoMapped(g, m, m.noActors)[a]
      ensures 0 <= b < NoApps(g) && periods[a] == periods[b]
    {
      CoMappedSamePeriod(g, m, mcr, groups, edges, periods, a, b);
    }
  }

  /** Co-mapped applications are in one group, so calc_periods gives them the same period. */
  lemma CoMappedSamePeriod(g: seq<int>, m: MsagInput, mcr: seq<Edge> -> int, groups: seq<set<int>>,
                           edges: seq<Edge>, periods: seq<int>, a: int, b: int)
    requires Fits(g, m) && Partition(groups, NoApps(g)) && GroupsClosed(CoMapped(g, m, m.noActors), groups)
    requires PeriodsOfGroups(g, m, mcr, groups, edges, periods)
    requires 0 <= a < NoApps(g) && b in CoMapped(g, m, m.noActors)[a]
    ensures 0 <= b < NoApps(g) && periods[a] == periods[b]
  {
    HasGroup(groups, NoApps(g), a);
    var i :| 0 <= i < |groups| && a in groups[i];
    var co := CoMapped(g, m, m.noActors);
    assert 0 <= a < |co|;
    assert b in groups[i];
  }
}
