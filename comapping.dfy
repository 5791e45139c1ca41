// Which applications share an MSAG (system/design.cpp, getApp,
// checkApp_des and the first half of calc_periods): applications whose
// actors follow one another on a processor are co-mapped, and each group
// of transitively co-mapped applications is analysed as one graph.
module CoMapping {
  import opened Wrappers
  import opened DesignData
  import opened Msag

  /**
   * The application numbering fits the MSAG input: actors grouped by
   * application and every channel inside one application.
   */
  predicate Fits(g: seq<int>, m: MsagInput)
  {
    Shaped(m) && Grouped(g) && |g| == m.noActors &&
    forall i :: 0 <= i < |m.channels| ==> g[m.channels[i].source] == g[m.channels[i].destination]
  }

  /** The number of applications: one more than the last actor's. */
  function NoApps(g: seq<int>): (n: nat)
    requires Grouped(g)
    ensures 1 <= n <= |g|
  {
    GroupedMonotone(g, 0, |g| - 1);
    g[|g| - 1] + 1
  }

  lemma AppRange(g: seq<int>, x: nat)
    requires Grouped(g) && x < |g|
    ensures 0 <= g[x] < NoApps(g)
  {
    GroupedMonotone(g, 0, x);
    GroupedMonotone(g, x, |g| - 1);
  }

  // ---------------------------------------------------------------------
  // getApp

  /**
   * getApp's search of `appIndex` for an actor `id`: the first entry not
   * below it. The search cannot run past `appIndex`, whose last entry is
   * the last actor, so the source's final `return -1` is never reached.
   */
  method GetApp(ai: seq<int>, noActors: nat, id: int) returns (app: int)
    requires 1 <= |ai| <= noActors && id <= ai[|ai| - 1]
    ensures 0 <= app < |ai| && app == FirstAtLeast(ai, id)
  {
    var i := 0;
    while i < noActors && ai[i] < id
      invariant 0 <= i < |ai|
      invariant forall j :: 0 <= j < i ==> ai[j] < id
    {
      i := i + 1;
    }
    FirstAtLeastAt(ai, id, i);
    app := i;
  }

  /**
   * The application of an MSAG vertex: an actor's own, and a block, send
   * or receive vertex that of its channel's destination.
   */
  function AppOfVertex(g: seq<int>, m: MsagInput, v: nat): (app: int)
    requires Fits(g, m) && v < Size(m)
    ensures 0 <= app < NoApps(g)
  {
    if v < m.noActors then AppRange(g, v); g[v]
    else
      MappingAt(m, (v - m.noActors) / 3, (v - m.noActors) % 3);
      var d := m.channels[Mapping(m)[v - m.noActors]].destination;
      AppRange(g, d);
      g[d]
  }

  /** `appIndex` has one entry per application and ends with the last actor. */
  lemma AppIndexShape(g: seq<int>)
    requires Grouped(g)
    ensures |AppIndexOf(g)| == NoApps(g) && AppIndexOf(g)[|AppIndexOf(g)| - 1] == |g| - 1
  {
    AppIndexContents(g);
    AppIndexLastActors(g);
  }

  /** getApp on a vertex: a communication vertex is looked up through `channelMapping`. */
  method VertexApp(g: seq<int>, m: MsagInput, ai: seq<int>, cm: seq<int>, v: nat) returns (app: int)
    requires Fits(g, m) && ai == AppIndexOf(g) && cm == Mapping(m) && v < Size(m)
    ensures app == AppOfVertex(g, m, v)
  {
    AppIndexShape(g);
    var id := v;
    if v >= m.noActors {
      MappingAt(m, (v - m.noActors) / 3, (v - m.noActors) % 3);
      id := m.channels[cm[v - m.noActors]].destination;
    }
    app := GetApp(ai, m.noActors, id);
    AppOfActor(g, id);
  }

  // ---------------------------------------------------------------------
  // coMappedApps

  /**
   * Actor `i` links applications `a` and `b`: its decided successor
   * `next[i]` is an actor of the other one.
   */
  predicate LinkedBy(g: seq<int>, m: MsagInput, i: nat, a: int, b: int)
    requires Fits(g, m) && i < m.noActors
  {
    m.next[i] < m.noActors && g[i] != g[m.next[i]] &&
    ((g[i] == a && g[m.next[i]] == b) || (g[i] == b && g[m.next[i]] == a))
  }

  /** `coMappedApps` after the actors below `n`: per application, the applications linked to it. */
  function CoMapped(g: seq<int>, m: MsagInput, n: nat): (co: seq<set<int>>)
    requires Fits(g, m) && n <= m.noActors
    ensures |co| == NoApps(g)
  {
    if n == 0 then seq(NoApps(g), _ => {})
    else
      var co := CoMapped(g, m, n - 1);
      var i := n - 1;
      if m.next[i] < m.noActors && g[i] != g[m.next[i]] then
        var a, b := g[i], g[m.next[i]];
        AppRange(g, i);
        AppRange(g, m.next[i]);
        co[a := co[a] + {b}][b := co[b] + {a}]
      else co
  }

  /**
   * Application `b` is co-mapped with `a` exactly when some actor below
   * `n` links them.
   */
  lemma {:induction false} CoMappedMeans(g: seq<int>, m: MsagInput, n: nat)
    requires Fits(g, m) && n <= m.noActors
    ensures forall a, b :: 0 <= a < NoApps(g) && b in CoMapped(g, m, n)[a] ==>
      exists i :: 0 <= i < n && LinkedBy(g, m, i, a, b)
    ensures forall a, b, i :: 0 <= a < NoApps(g) && 0 <= i < n && LinkedBy(g, m, i, a, b) ==>
      b in CoMapped(g, m, n)[a]
  {
    if n > 0 {
      CoMappedMeans(g, m, n - 1);
      forall a | 0 <= a < NoApps(g)
        ensures forall b :: b in CoMapped(g, m, n)[a] <==> b in CoMapped(g, m, n - 1)[a] || LinkedBy(g, m, n - 1, a, b)
      {
        CoMappedStep(g, m, n, a);
      }
    }
  }

  /** The actor `n - 1` adds to application `a` the application it links `a` to. */
  lemma CoMappedStep(g: seq<int>, m: MsagInput, n: nat, a: int)
    requires Fits(g, m) && 0 < n <= m.noActors && 0 <= a < NoApps(g)
    ensures forall b :: b in CoMapped(g, m, n)[a] <==> b in CoMapped(g, m, n - 1)[a] || LinkedBy(g, m, n - 1, a, b)
  {
    var prev := CoMapped(g, m, n - 1);
    var co := CoMapped(g, m, n);
    var i := n - 1;
    if m.next[i] < m.noActors && g[i] != g[m.next[i]] {
      AppRange(g, i);
      AppRange(g, m.next[i]);
      var x, y := g[i], g[m.next[i]];
      if a == x {
        assert co[a] == prev[a] + {y};
      } else if a == y {
        assert co[a] == prev[a] + {x};
      } else {
        assert co[a] == prev[a];
      }
    }
  }

  /** Co-mapping is symmetric and never relates an application to itself. */
  lemma CoMappedPair(g: seq<int>, m: MsagInput, a: int, b: int)
    requires Fits(g, m) && 0 <= a < NoApps(g) && b in CoMapped(g, m, m.noActors)[a]
    ensures 0 <= b < NoApps(g) && b != a && a in CoMapped(g, m, m.noActors)[b]
  {
    CoMappedMeans(g, m, m.noActors);
    var i :| 0 <= i < m.noActors && LinkedBy(g, m, i, a, b);
    AppRange(g, i);
    AppRange(g, m.next[i]);
    assert LinkedBy(g, m, i, b, a);
  }

  /** calc_periods' first loop: the co-mapped applications of every application. */
  method CoMapLoop(g: seq<int>, m: MsagInput, ai: seq<int>) returns (co: seq<set<int>>)
    requires Fits(g, m) && ai == AppIndexOf(g)
    ensures co == CoMapped(g, m, m.noActors)
  {
    AppIndexShape(g);
    co := seq(|ai|, _ => {});
    var i := 0;
    while i < m.noActors
      invariant 0 <= i <= m.noActors
      invariant co == CoMapped(g, m, i)
    {
      if m.next[i] < m.noActors {
        var actor := i;
        var nextActor := m.next[i];
        var a := GetApp(ai, m.noActors, actor);
        var b := GetApp(ai, m.noActors, nextActor);
        AppOfActor(g, actor);
        AppOfActor(g, nextActor);
        if a != b {
          co := co[a := co[a] + {b}];
          co := co[b := co[b] + {a}];
        }
      }
      i := i + 1;
    }
  }

  // ---------------------------------------------------------------------
  // checkApp_des and the groups of co-mapped applications

  /** Co-mapping as a symmetric relation on the applications `0 .. |co| - 1`. */
  predicate CoOk(co: seq<set<int>>)
  {
    forall a :: 0 <= a < |co| ==> forall b :: b in co[a] ==> 0 <= b < |co| && a in co[b]
  }

  lemma CoMappedOk(g: seq<int>, m: MsagInput)
    requires Fits(g, m)
    ensures CoOk(CoMapped(g, m, m.noActors))
  {
    var co := CoMapped(g, m, m.noActors);
    forall a | 0 <= a < |co|
      ensures forall b :: b in co[a] ==> 0 <= b < |co| && a in co[b]
    {
      forall b | b in co[a]
        ensures 0 <= b < |co| && a in co[b]
      {
        CoMappedPair(g, m, a, b);
      }
    }
  }

  /** `p` is a walk through the applications along co-mapping. */
  predicate Walk(co: seq<set<int>>, p: seq<int>)
  {
    |p| >= 1 && (forall i :: 0 <= i < |p| ==> 0 <= p[i] < |co|) &&
    forall i :: 0 <= i < |p| - 1 ==> p[i + 1] in co[p[i]]
  }

  /** `a` and `b` are transitively co-mapped: some walk leads from `a` to `b`. */
  ghost predicate Connected(co: seq<set<int>>, a: int, b: int)
  {
    exists p :: Walk(co, p) && p[0] == a && p[|p| - 1] == b
  }

  /** The applications transitively co-mapped with `a`, `a` included. */
  ghost function Component(co: seq<set<int>>, a: int): set<int>
  {
    set b | 0 <= b < |co| && Connected(co, a, b)
  }

  lemma ConnectedRefl(co: seq<set<int>>, a: int)
    requires 0 <= a < |co|
    ensures Connected(co, a, a)
  {
    assert Walk(co, [a]);
  }

  /** A co-mapped application extends a walk at its start. */
  lemma ConnectedPrepend(co: seq<set<int>>, a: int, b: int, c: int)
    requires 0 <= a < |co| && b in co[a] && Connected(co, b, c)
    ensures Connected(co, a, c)
  {
    var p :| Walk(co, p) && p[0] == b && p[|p| - 1] == c;
    var q := [a] + p;
    assert forall i :: 0 < i < |q| ==> q[i] == p[i - 1];
    assert Walk(co, q);
  }

  /** Co-mapping is symmetric, so a walk can be followed backwards. */
  lemma ConnectedSymmetric(co: seq<set<int>>, a: int, b: int)
    requires CoOk(co) && Connected(co, a, b)
    ensures Connected(co, b, a)
  {
    var p :| Walk(co, p) && p[0] == a && p[|p| - 1] == b;
    var n := |p|;
    var q := seq(n, i requires 0 <= i < n => p[n - 1 - i]);
    forall i | 0 <= i < n - 1
      ensures q[i + 1] in co[q[i]]
    {
      assert p[n - 1 - i] in co[p[n - 2 - i]];
    }
    assert Walk(co, q);
  }

  lemma ConnectedTransitive(co: seq<set<int>>, a: int, b: int, c: int)
    requires Connected(co, a, b) && Connected(co, b, c)
    ensures Connected(co, a, c)
  {
    var p :| Walk(co, p) && p[0] == a && p[|p| - 1] == b;
    var q :| Walk(co, q) && q[0] == b && q[|q| - 1] == c;
    var r := p + q[1..];
    assert forall i :: |p| <= i < |r| ==> r[i] == q[i - |p| + 1];
    assert Walk(co, r);
  }

  /** A walk never leaves a group closed under co-mapping. */
  lemma {:induction false} WalkStaysInGroup(co: seq<set<int>>, groups: seq<set<int>>, i: nat, p: seq<int>)
    requires GroupsClosed(co, groups) && i < |groups| && Walk(co, p) && p[0] in groups[i]
    ensures p[|p| - 1] in groups[i]
    decreases |p|
  {
    if |p| > 1 {
      var q := p[..|p| - 1];
      assert Walk(co, q);
      WalkStaysInGroup(co, groups, i, q);
      assert p[|p| - 1] in co[p[|p| - 2]];
    }
  }

  /** The number of applications still unchecked (`sum_unchecked`). */
  function Count(u: seq<bool>): nat
  {
    if u == [] then 0 else Count(u[..|u| - 1]) + (if u[|u| - 1] then 1 else 0)
  }

  /** `u` only checks off applications unchecked in `u0`. */
  predicate OnlyClears(u0: seq<bool>, u: seq<bool>)
  {
    |u| == |u0| && forall x :: 0 <= x < |u| && u[x] ==> u0[x]
  }

  /** The applications checked off between `u0` and `u`. */
  function Cleared(u0: seq<bool>, u: seq<bool>): set<int>
    requires |u| == |u0|
  {
    set x | 0 <= x < |u| && u0[x] && !u[x]
  }

  /** Checking off an application lowers the count. */
  lemma {:induction false} CountLess(u0: seq<bool>, u: seq<bool>, x: nat)
    requires OnlyClears(u0, u) && x < |u| && u0[x] && !u[x]
    ensures Count(u) < Count(u0)
  {
    var n := |u| - 1;
    if x == n {
      CountMono(u0[..n], u[..n]);
    } else {
      CountLess(u0[..n], u[..n], x);
    }
  }

  lemma {:induction false} CountMono(u0: seq<bool>, u: seq<bool>)
    requires OnlyClears(u0, u)
    ensures Count(u) <= Count(u0)
  {
    if u != [] {
      var n := |u| - 1;
      CountMono(u0[..n], u[..n]);
    }
  }

  lemma {:induction false} CountZero(u: seq<bool>)
    requires Count(u) == 0
    ensures forall x :: 0 <= x < |u| ==> !u[x]
  {
    if u != [] {
      var n := |u| - 1;
      CountZero(u[..n]);
      forall x | 0 <= x < n
        ensures !u[x]
      {
        assert u[x] == u[..n][x];
      }
    }
  }

  lemma {:induction false} CountNone(u: seq<bool>)
    requires forall x :: 0 <= x < |u| ==> !u[x]
    ensures Count(u) == 0
  {
    if u != [] {
      CountNone(u[..|u| - 1]);
    }
  }

  /** Every application checked off in `u`, other than those in `open`, has all its co-mapped applications checked off. */
  predicate NeighboursChecked(co: seq<set<int>>, u0: seq<bool>, u: seq<bool>, open: set<int>)
    requires |u0| == |co| && |u| == |co|
  {
    forall x :: 0 <= x < |co| && u0[x] && !u[x] && x !in open ==>
      forall y :: y in co[x] ==> 0 <= y < |u| && !u[y]
  }

  /**
   * checkApp_des: puts `app` into the group `res`, checks it off, and
   * continues with every co-mapped application still unchecked (a
   * depth-first search). On return every application it checked off is in
   * `res` and has all its co-mapped applications checked off.
   */
  method CheckApp(co: seq<set<int>>, app: nat, u0: seq<bool>, res0: set<int>) returns (u: seq<bool>, res: set<int>)
    requires CoOk(co) && |u0| == |co| && app < |co| && u0[app]
    ensures OnlyClears(u0, u) && !u[app]
    ensures res == res0 + Cleared(u0, u)
    ensures NeighboursChecked(co, u0, u, {})
    ensures forall x :: x in Cleared(u0, u) ==> Connected(co, app, x)
    decreases Count(u0)
  {
    res := res0 + {app};
    u := u0[app := false];
    assert Cleared(u0, u) == {app};
    ConnectedRefl(co, app);
    // the elements of a std::set are visited in ascending order
    for appl := 0 to |co|
      invariant OnlyClears(u0, u) && !u[app]
      invariant res == res0 + Cleared(u0, u)
      invariant forall y :: y in co[app] && y < appl ==> 0 <= y < |u| && !u[y]
      invariant NeighboursChecked(co, u0, u, {app})
      invariant forall x :: x in Cleared(u0, u) ==> Connected(co, app, x)
    {
      if appl in co[app] && u[appl] {
        CountLess(u0, u, app);
        var u1 := u;
        u, res := CheckApp(co, appl, u, res);
        assert Cleared(u0, u) == Cleared(u0, u1) + Cleared(u1, u);
        NeighboursAfterCall(co, u0, u1, u, app);
        forall x | x in Cleared(u1, u)
          ensures Connected(co, app, x)
        {
          ConnectedPrepend(co, app, appl, x);
        }
      }
    }
    NeighboursClose(co, u0, u, app);
  }

  lemma NeighboursAfterCall(co: seq<set<int>>, u0: seq<bool>, u1: seq<bool>, u: seq<bool>, app: int)
    requires |u0| == |co| && OnlyClears(u0, u1) && OnlyClears(u1, u)
    requires NeighboursChecked(co, u0, u1, {app}) && NeighboursChecked(co, u1, u, {})
    ensures NeighboursChecked(co, u0, u, {app})
  {
    forall x, y | 0 <= x < |co| && u0[x] && !u[x] && x != app && y in co[x]
      ensures 0 <= y < |u| && !u[y]
    {
      if u1[x] {
        assert x !in {};
      } else {
        assert x !in {app};
      }
    }
  }

  lemma NeighboursClose(co: seq<set<int>>, u0: seq<bool>, u: seq<bool>, app: int)
    requires |u0| == |co| && |u| == |co| && NeighboursChecked(co, u0, u, {app})
    requires 0 <= app < |co| && forall y :: y in co[app] ==> 0 <= y < |u| && !u[y]
    ensures NeighboursChecked(co, u0, u, {})
  {
    forall x, y | 0 <= x < |co| && u0[x] && !u[x] && y in co[x]
      ensures 0 <= y < |u| && !u[y]
    {
      if x != app {
        assert x !in {app};
      }
    }
  }

  /** The union of the groups. */
  function Union(groups: seq<set<int>>): set<int>
  {
    if groups == [] then {} else Union(groups[..|groups| - 1]) + groups[|groups| - 1]
  }

  lemma {:induction false} UnionMember(groups: seq<set<int>>, i: nat, x: int)
    requires i < |groups| && x in groups[i]
    ensures x in Union(groups)
  {
    var n := |groups| - 1;
    if i < n {
      assert groups[..n][i] == groups[i];
      UnionMember(groups[..n], i, x);
    }
  }

  lemma {:induction false} UnionWitness(groups: seq<set<int>>, x: int)
    requires x in Union(groups)
    ensures exists i :: 0 <= i < |groups| && x in groups[i]
  {
    var n := |groups| - 1;
    if x !in groups[n] {
      UnionWitness(groups[..n], x);
      var i :| 0 <= i < n && x in groups[..n][i];
      assert groups[i] == groups[..n][i];
    }
  }

  /**
   * The groups split the applications `0 .. n - 1`: none is empty, no two
   * share an application, and together they hold every application.
   */
  predicate Partition(groups: seq<set<int>>, n: nat)
  {
    (forall i :: 0 <= i < |groups| ==> groups[i] != {}) &&
    (forall i, j :: 0 <= i < j < |groups| ==> groups[i] !! groups[j]) &&
    (forall x :: x in Union(groups) ==> 0 <= x < n) &&
    (forall x :: 0 <= x < n ==> x in Union(groups))
  }

  /** Each group holds, with every application, all applications co-mapped with it. */
  predicate GroupsClosed(co: seq<set<int>>, groups: seq<set<int>>)
  {
    forall i, a :: 0 <= i < |groups| && a in groups[i] && 0 <= a < |co| ==>
      forall b :: b in co[a] ==> b in groups[i]
  }

  /** The sum loop of calc_periods: how many applications are still unchecked. */
  method SumUnchecked(u: seq<bool>) returns (sum: nat)
    ensures sum == Count(u)
  {
    sum := 0;
    var i := 0;
    while i < |u|
      invariant 0 <= i <= |u| && sum == Count(u[..i])
    {
      assert u[..i + 1][..i] == u[..i];
      sum := sum + (if u[i] then 1 else 0);
      i := i + 1;
    }
    assert u[..|u|] == u;
  }

  /**
   * calc_periods' grouping: while some application is unchecked, start a
   * new group at each unchecked application, in ascending order, and let
   * checkApp_des fill it. The groups partition the applications and are
   * closed under co-mapping, so co-mapped applications share a group.
   */
  method GroupApps(co: seq<set<int>>) returns (result: seq<set<int>>)
    requires CoOk(co)
    ensures Partition(result, |co|) && GroupsClosed(co, result)
    ensures forall i, a :: 0 <= i < |result| && a in result[i] ==> result[i] == Component(co, a)
  {
    var unchecked := seq(|co|, _ => true);
    result := [];
    var sum := SumUnchecked(unchecked);
    while sum > 0
      invariant |unchecked| == |co| && sum == Count(unchecked)
      invariant GroupsState(co, unchecked, result)
      decreases sum
    {
      unchecked, result := GroupPass(co, unchecked, result);
      CountNone(unchecked);
      sum := SumUnchecked(unchecked);
    }
    CountZero(unchecked);
    StatePartition(co, unchecked, result);
    GroupsAreComponents(co, result);
  }

  /**
   * One pass of calc_periods' loop over the applications (in ascending
   * order): each unchecked application starts a new group.
   */
  method GroupPass(co: seq<set<int>>, u0: seq<bool>, groups0: seq<set<int>>)
    returns (u: seq<bool>, groups: seq<set<int>>)
    requires CoOk(co) && GroupsState(co, u0, groups0)
    ensures GroupsState(co, u, groups) && forall x :: 0 <= x < |u| ==> !u[x]
  {
    u, groups := u0, groups0;
    for a := 0 to |co|
      invariant GroupsState(co, u, groups)
      invariant forall x :: 0 <= x < a ==> !u[x]
    {
      if u[a] {
        var u1 := u;
        var res;
        u, res := CheckApp(co, a, u, {});
        GroupAdded(co, u1, u, groups, a);
        groups := groups + [res];
      }
    }
  }

  /** Once every application is checked off, the groups are a partition closed under co-mapping. */
  lemma StatePartition(co: seq<set<int>>, u: seq<bool>, groups: seq<set<int>>)
    requires GroupsState(co, u, groups) && forall x :: 0 <= x < |u| ==> !u[x]
    ensures Partition(groups, |co|) && GroupsClosed(co, groups) && GroupsConnected(co, groups)
  {
  }

  /**
   * The state between groups: an application is checked off exactly when
   * it is in a group, and the groups so far are non-empty, disjoint,
   * closed under co-mapping and connected by it.
   */
  ghost predicate GroupsState(co: seq<set<int>>, u: seq<bool>, groups: seq<set<int>>)
  {
    |u| == |co| &&
    (forall x :: x in Union(groups) ==> 0 <= x < |u| && !u[x]) &&
    (forall x :: 0 <= x < |u| && !u[x] ==> x in Union(groups)) &&
    (forall i :: 0 <= i < |groups| ==> groups[i] != {}) &&
    (forall i, j :: 0 <= i < j < |groups| ==> groups[i] !! groups[j]) &&
    GroupsClosed(co, groups) && GroupsConnected(co, groups)
  }

  /** The applications of each group are transitively co-mapped with one another. */
  ghost predicate GroupsConnected(co: seq<set<int>>, groups: seq<set<int>>)
  {
    forall i, a, b :: 0 <= i < |groups| && a in groups[i] && b in groups[i] ==> Connected(co, a, b)
  }

  /** A group found by checkApp_des keeps the state between groups. */
  lemma GroupAdded(co: seq<set<int>>, u0: seq<bool>, u: seq<bool>, groups: seq<set<int>>, a: nat)
    requires CoOk(co) && GroupsState(co, u0, groups)
    requires OnlyClears(u0, u) && a < |u| && u0[a] && !u[a] && NeighboursChecked(co, u0, u, {})
    requires forall x :: x in Cleared(u0, u) ==> Connected(co, a, x)
    ensures GroupsState(co, u, groups + [Cleared(u0, u)])
  {
    var res := Cleared(u0, u);
    var groups' := groups + [res];
    assert groups'[..|groups|] == groups;
    assert Union(groups') == Union(groups) + res;
    assert a in res;
    forall i | 0 <= i < |groups|
      ensures groups[i] !! res
    {
      forall x | x in groups[i]
        ensures x !in res
      {
        UnionMember(groups, i, x);
      }
    }
    forall i, x, y | 0 <= i < |groups'| && x in groups'[i] && 0 <= x < |co| && y in co[x]
      ensures y in groups'[i]
    {
      if i == |groups| {
        assert 0 <= y < |u| && !u[y];
        if u0[y] {
          assert y in res;
        } else {
          UnionWitness(groups, y);
          assert false;
        }
      } else {
        assert groups'[i] == groups[i];
      }
    }
    forall i, x, y | 0 <= i < |groups'| && x in groups'[i] && y in groups'[i]
      ensures Connected(co, x, y)
    {
      if i == |groups| {
        ConnectedSymmetric(co, a, x);
        ConnectedTransitive(co, x, a, y);
      } else {
        assert groups'[i] == groups[i];
      }
    }
  }

  /**
   * In a partition whose groups are closed under co-mapping and connected
   * by it, each group is the component of every one of its applications.
   */
  lemma GroupsAreComponents(co: seq<set<int>>, groups: seq<set<int>>)
    requires Partition(groups, |co|) && GroupsClosed(co, groups) && GroupsConnected(co, groups)
    ensures forall i, a :: 0 <= i < |groups| && a in groups[i] ==> groups[i] == Component(co, a)
  {
    forall i, a | 0 <= i < |groups| && a in groups[i]
      ensures groups[i] == Component(co, a)
    {
      forall b | b in groups[i]
        ensures b in Component(co, a)
      {
        UnionMember(groups, i, b);
      }
      forall b | b in Component(co, a)
        ensures b in groups[i]
      {
        var p :| Walk(co, p) && p[0] == a && p[|p| - 1] == b;
        WalkStaysInGroup(co, groups, i, p);
      }
    }
  }
}
