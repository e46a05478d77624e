/**
 The order in which renderRouters renders routes, and what a sequence of
 renderRouter steps does to the builder's state.
 */
module Assemble {
  import opened Wrappers
  import opened GoStrings
  import opened Reflect
  import opened SwaggerTypes
  import opened Walker
  import opened Routers
  import opened Render

  /** A group's routes as renderRouters renders them: copies with the group path in front. */
  function Prefixed(g: RouterGroup): (rs: seq<Router>)
    ensures |rs| == |g.routers|
    ensures forall j :: 0 <= j < |rs| ==> rs[j] == g.routers[j].(path := g.path + g.routers[j].path)
  {
    seq(|g.routers|, j requires 0 <= j < |g.routers| => g.routers[j].(path := g.path + g.routers[j].path))
  }

  /** The routes of groups `groups`, group after group. */
  function GroupRoutes(groups: seq<RouterGroup>): seq<Router>
  {
    if groups == [] then [] else GroupRoutes(groups[..|groups| - 1]) + Prefixed(groups[|groups| - 1])
  }

  /** Every route renderRouters renders, in order: standalone routers, then group routes. */
  function EffectiveRoutes(sg: Swgin): seq<Router>
  {
    sg.routers + GroupRoutes(sg.groups)
  }

  /** The state after renderRouter has run on each of `routes` in turn. */
  function RenderSeq(mapTypes: map<string, Kind>, st: BuildState, routes: seq<Router>): BuildState
    requires forall k :: 0 <= k < |routes| ==> RouterDefinable(mapTypes, routes[k])
  {
    if routes == [] then st
    else RenderRouterSpec(mapTypes, RenderSeq(mapTypes, st, routes[..|routes| - 1]), routes[|routes| - 1])
  }

  /** parse does not panic: every declared payload, standalone or grouped, is walkable. */
  predicate SwginDefinable(mapTypes: map<string, Kind>, sg: Swgin)
  {
    && (forall k :: 0 <= k < |sg.routers| ==> RouterDefinable(mapTypes, sg.routers[k]))
    && (forall i, j :: 0 <= i < |sg.groups| && 0 <= j < |sg.groups[i].routers| ==>
          RouterDefinable(mapTypes, sg.groups[i].routers[j]))
  }

  /**
   Where route j of group i sits among the group routes: right after the
   routes of the groups before it, at position j of its own group.
   */
  lemma {:induction false} GroupRoutesAt(groups: seq<RouterGroup>, i: nat, j: nat)
    requires i < |groups| && j < |groups[i].routers|
    ensures |GroupRoutes(groups[..i])| + j < |GroupRoutes(groups)|
    ensures GroupRoutes(groups)[|GroupRoutes(groups[..i])| + j] == Prefixed(groups[i])[j]
    ensures exists k :: 0 <= k < |GroupRoutes(groups)| &&
                        GroupRoutes(groups)[k] == groups[i].routers[j].(path := groups[i].path + groups[i].routers[j].path)
    decreases |groups|
  {
    var n := |groups| - 1;
    var front := GroupRoutes(groups[..n]);
    assert GroupRoutes(groups) == front + Prefixed(groups[n]);
    if i == n {
      assert groups[..i] == groups[..n];
      var k := |front| + j;
      assert GroupRoutes(groups)[k] == Prefixed(groups[n])[j];
    } else {
      GroupRoutesAt(groups[..n], i, j);
      assert groups[..n][..i] == groups[..i];
      assert groups[..n][i] == groups[i];
      var k := |GroupRoutes(groups[..i])| + j;
      assert GroupRoutes(groups)[k] == front[k];
    }
  }

  /** Every group route is a prefixed copy of a declared one. */
  lemma {:induction false} GroupRoutesFrom(groups: seq<RouterGroup>, k: nat)
    requires k < |GroupRoutes(groups)|
    ensures exists i, j :: 0 <= i < |groups| && 0 <= j < |groups[i].routers| &&
                           GroupRoutes(groups)[k] == groups[i].routers[j].(path := groups[i].path + groups[i].routers[j].path)
    decreases |groups|
  {
    var n := |groups| - 1;
    var front := GroupRoutes(groups[..n]);
    if k < |front| {
      GroupRoutesFrom(groups[..n], k);
      var i, j :| 0 <= i < n && 0 <= j < |groups[..n][i].routers| &&
        front[k] == groups[..n][i].routers[j].(path := groups[..n][i].path + groups[..n][i].routers[j].path);
      assert GroupRoutes(groups)[k] == front[k];
      assert groups[..n][i] == groups[i];
    } else {
      var j := k - |front|;
      assert GroupRoutes(groups)[k] == Prefixed(groups[n])[j];
    }
  }

  /** Group routes are walkable when the routes declared in the groups are. */
  lemma GroupRoutesDefinable(mapTypes: map<string, Kind>, groups: seq<RouterGroup>)
    requires forall i, j :: 0 <= i < |groups| && 0 <= j < |groups[i].routers| ==>
      RouterDefinable(mapTypes, groups[i].routers[j])
    ensures forall k :: 0 <= k < |GroupRoutes(groups)| ==> RouterDefinable(mapTypes, GroupRoutes(groups)[k])
  {
    forall k | 0 <= k < |GroupRoutes(groups)| ensures RouterDefinable(mapTypes, GroupRoutes(groups)[k]) {
      GroupRoutesFrom(groups, k);
    }
  }

  /** Every route renderRouters renders is one the declarations make walkable. */
  lemma EffectiveRoutesDefinable(mapTypes: map<string, Kind>, sg: Swgin)
    requires SwginDefinable(mapTypes, sg)
    ensures forall k :: 0 <= k < |EffectiveRoutes(sg)| ==> RouterDefinable(mapTypes, EffectiveRoutes(sg)[k])
  {
    var rs := EffectiveRoutes(sg);
    forall k | 0 <= k < |rs| ensures RouterDefinable(mapTypes, rs[k]) {
      if k >= |sg.routers| {
        GroupRoutesFrom(sg.groups, k - |sg.routers|);
      }
    }
  }

  /** Rendering `a ++ b` is rendering `a`, then `b` on the result. */
  lemma {:induction false} RenderSeqAppend(mapTypes: map<string, Kind>, st: BuildState, a: seq<Router>, b: seq<Router>)
    requires forall k :: 0 <= k < |a + b| ==> RouterDefinable(mapTypes, (a + b)[k])
    ensures forall k :: 0 <= k < |a| ==> RouterDefinable(mapTypes, a[k])
    ensures forall k :: 0 <= k < |b| ==> RouterDefinable(mapTypes, b[k])
    ensures RenderSeq(mapTypes, st, a + b) == RenderSeq(mapTypes, RenderSeq(mapTypes, st, a), b)
    decreases |b|
  {
    assert forall k :: 0 <= k < |a| ==> a[k] == (a + b)[k];
    assert forall k :: 0 <= k < |b| ==> b[k] == (a + b)[|a| + k];
    if b == [] {
      assert a + b == a;
    } else {
      var b' := b[..|b| - 1];
      assert (a + b)[..|a + b| - 1] == a + b';
      assert forall k :: 0 <= k < |a + b'| ==> (a + b')[k] == (a + b)[k];
      RenderSeqAppend(mapTypes, st, a, b');
    }
  }

  /** One more group: the prefixed routes of the last group `gs[n]` are rendered after those of the groups before it. */
  lemma GroupRoutesStep(mapTypes: map<string, Kind>, st: BuildState, gs: seq<RouterGroup>, n: nat)
    requires n + 1 == |gs|
    requires forall i, j :: 0 <= i < |gs| && 0 <= j < |gs[i].routers| ==> RouterDefinable(mapTypes, gs[i].routers[j])
    ensures forall k :: 0 <= k < |GroupRoutes(gs)| ==> RouterDefinable(mapTypes, GroupRoutes(gs)[k])
    ensures forall k :: 0 <= k < |GroupRoutes(gs[..n])| ==> RouterDefinable(mapTypes, GroupRoutes(gs[..n])[k])
    ensures forall j :: 0 <= j < |Prefixed(gs[n])| ==> RouterDefinable(mapTypes, Prefixed(gs[n])[j])
    ensures RenderSeq(mapTypes, st, GroupRoutes(gs)) ==
      RenderSeq(mapTypes, RenderSeq(mapTypes, st, GroupRoutes(gs[..n])), Prefixed(gs[n]))
  {
    assert GroupRoutes(gs) == GroupRoutes(gs[..n]) + Prefixed(gs[n]);
    GroupRoutesDefinable(mapTypes, gs);
    RenderSeqAppend(mapTypes, st, GroupRoutes(gs[..n]), Prefixed(gs[n]));
  }

  /**
   The standalone routers are all rendered before any group route:
   rendering everything is rendering the routers, then the group routes.
   */
  lemma StandaloneBeforeGroups(mapTypes: map<string, Kind>, st: BuildState, sg: Swgin)
    requires SwginDefinable(mapTypes, sg)
    ensures forall k :: 0 <= k < |sg.routers| ==> RouterDefinable(mapTypes, sg.routers[k])
    ensures forall k :: 0 <= k < |GroupRoutes(sg.groups)| ==> RouterDefinable(mapTypes, GroupRoutes(sg.groups)[k])
    ensures EffectiveRoutes(sg)[..|sg.routers|] == sg.routers
    ensures EffectiveRoutesDefinableHolds(mapTypes, sg) &&
      RenderSeq(mapTypes, st, EffectiveRoutes(sg)) ==
      RenderSeq(mapTypes, RenderSeq(mapTypes, st, sg.routers), GroupRoutes(sg.groups))
  {
    EffectiveRoutesDefinable(mapTypes, sg);
    assert sg.routers + GroupRoutes(sg.groups) == EffectiveRoutes(sg);
    RenderSeqAppend(mapTypes, st, sg.routers, GroupRoutes(sg.groups));
  }

  predicate EffectiveRoutesDefinableHolds(mapTypes: map<string, Kind>, sg: Swgin)
  {
    forall k :: 0 <= k < |EffectiveRoutes(sg)| ==> RouterDefinable(mapTypes, EffectiveRoutes(sg)[k])
  }

  /** The paths of `routes`. */
  function RoutePaths(routes: seq<Router>): set<string>
  {
    if routes == [] then {} else RoutePaths(routes[..|routes| - 1]) + {routes[|routes| - 1].path}
  }

  lemma {:induction false} RoutePathsMembers(routes: seq<Router>)
    ensures forall p :: p in RoutePaths(routes) <==> exists k :: 0 <= k < |routes| && routes[k].path == p
  {
    if routes != [] {
      var n := |routes| - 1;
      RoutePathsMembers(routes[..n]);
      forall p ensures p in RoutePaths(routes) <==> exists k :: 0 <= k < |routes| && routes[k].path == p {
        if p in RoutePaths(routes[..n]) {
          var k :| 0 <= k < n && routes[..n][k].path == p;
          assert routes[k].path == p;
        }
        if exists k :: 0 <= k < |routes| && routes[k].path == p {
          var k :| 0 <= k < |routes| && routes[k].path == p;
          if k < n {
            assert routes[..n][k].path == p;
          }
        }
      }
    }
  }

  /** The paths map ends up keyed by exactly the paths of the rendered routes (and what it held). */
  lemma {:induction false} RenderSeqPathKeys(mapTypes: map<string, Kind>, st: BuildState, routes: seq<Router>)
    requires forall k :: 0 <= k < |routes| ==> RouterDefinable(mapTypes, routes[k])
    ensures RenderSeq(mapTypes, st, routes).paths.Keys == st.paths.Keys + RoutePaths(routes)
  {
    if routes != [] {
      var n := |routes| - 1;
      RenderSeqPathKeys(mapTypes, st, routes[..n]);
      RenderRouterPathKeys(mapTypes, RenderSeq(mapTypes, st, routes[..n]), routes[n]);
    }
  }

  /** Each rendered route's path is a key of the paths map afterwards. */
  lemma RenderSeqHasPath(mapTypes: map<string, Kind>, st: BuildState, routes: seq<Router>, k: nat)
    requires forall k :: 0 <= k < |routes| ==> RouterDefinable(mapTypes, routes[k])
    requires k < |routes|
    ensures routes[k].path in RenderSeq(mapTypes, st, routes).paths
  {
    RenderSeqPathKeys(mapTypes, st, routes);
    RoutePathsMembers(routes);
  }

  /**
   A route of a group is filed under the group's path followed by the
   route's own path.
   */
  lemma GroupRoutePath(mapTypes: map<string, Kind>, st: BuildState, sg: Swgin, i: nat, j: nat)
    requires SwginDefinable(mapTypes, sg)
    requires i < |sg.groups| && j < |sg.groups[i].routers|
    ensures EffectiveRoutesDefinableHolds(mapTypes, sg)
    ensures sg.groups[i].path + sg.groups[i].routers[j].path in RenderSeq(mapTypes, st, EffectiveRoutes(sg)).paths
  {
    EffectiveRoutesDefinable(mapTypes, sg);
    var rs := EffectiveRoutes(sg);
    var gs := GroupRoutes(sg.groups);
    GroupRoutesAt(sg.groups, i, j);
    var k :| 0 <= k < |gs| &&
      gs[k] == sg.groups[i].routers[j].(path := sg.groups[i].path + sg.groups[i].routers[j].path);
    assert rs[|sg.routers| + k] == gs[k];
    assert rs[|sg.routers| + k].path == sg.groups[i].path + sg.groups[i].routers[j].path;
    RenderSeqHasPath(mapTypes, st, rs, |sg.routers| + k);
  }

  /** Every recorded reference keeps naming a definition over any run of routes. */
  lemma {:induction false} RenderSeqRefsResolved(mapTypes: map<string, Kind>, st: BuildState, routes: seq<Router>)
    requires forall k :: 0 <= k < |routes| ==> RouterDefinable(mapTypes, routes[k])
    requires RefsResolved(st)
    ensures RefsResolved(RenderSeq(mapTypes, st, routes))
  {
    if routes != [] {
      var n := |routes| - 1;
      RenderSeqRefsResolved(mapTypes, st, routes[..n]);
      RenderRouterRefsResolved(mapTypes, RenderSeq(mapTypes, st, routes[..n]), routes[n]);
    }
  }

  /**
   Two routes at one path: different methods both end up in the one path
   item; the same method twice keeps only the later operation.
   */
  lemma SamePathMerge(mapTypes: map<string, Kind>, st: BuildState, r1: Router, r2: Router)
    requires RouterDefinable(mapTypes, r1) && RouterDefinable(mapTypes, r2)
    requires r1.path == r2.path
    ensures var after := RenderSeq(mapTypes, st, [r1, r2]).paths[r1.path];
      var op1 := OperationOf(r1, Parameters(r1));
      var op2 := OperationOf(r2, Parameters(r2));
      && (ToUpper(r1.httpMethod) == "GET" && ToUpper(r2.httpMethod) == "POST" ==>
            after.get == Some(op1) && after.post == Some(op2))
      && (ToUpper(r1.httpMethod) == "GET" && ToUpper(r2.httpMethod) == "GET" ==>
            after.get == Some(op2))
  {
    assert [r1, r2][..1] == [r1];
    assert [r1][..0] == [];
    var s1 := RenderRouterSpec(mapTypes, st, r1);
    assert RenderSeq(mapTypes, st, []) == st;
    assert RenderSeq(mapTypes, st, [r1]) == s1;
    assert RenderSeq(mapTypes, st, [r1, r2]) == RenderRouterSpec(mapTypes, s1, r2);
    RenderRouterPaths(mapTypes, st, r1);
    RenderRouterPaths(mapTypes, s1, r2);
    assert "GET" in SlotMethods && "POST" in SlotMethods;
  }

  /** The payload type names of a run of routes. */
  function RoutesPayloadNames(routes: seq<Router>): set<string>
  {
    if routes == [] then {} else RoutesPayloadNames(routes[..|routes| - 1]) + PayloadNames(routes[|routes| - 1])
  }

  /** Definitions are only ever added: every definition present before, and every payload type of the routes, is defined afterwards. */
  lemma {:induction false} RenderSeqDefinesPayloads(mapTypes: map<string, Kind>, st: BuildState, routes: seq<Router>)
    requires forall k :: 0 <= k < |routes| ==> RouterDefinable(mapTypes, routes[k])
    ensures st.definitions.Keys + RoutesPayloadNames(routes) <= RenderSeq(mapTypes, st, routes).definitions.Keys
  {
    if routes != [] {
      var n := |routes| - 1;
      RenderSeqDefinesPayloads(mapTypes, st, routes[..n]);
      ReplyDefinesPayloads(mapTypes, RenderSeq(mapTypes, st, routes[..n]).definitions, routes[n]);
    }
  }

  lemma {:induction false} RoutesPayloadNamesMembers(routes: seq<Router>, k: nat)
    requires k < |routes|
    ensures PayloadNames(routes[k]) <= RoutesPayloadNames(routes)
  {
    var n := |routes| - 1;
    if k < n {
      RoutesPayloadNamesMembers(routes[..n], k);
      assert routes[..n][k] == routes[k];
    }
  }

  /**
   What parse builds from empty maps: the paths are keyed by exactly the
   (prefixed) paths of the effective routes, every payload type of every
   route is defined, and every `$ref` the routes recorded names a
   definition.
   */
  lemma ParseFromEmpty(mapTypes: map<string, Kind>, sg: Swgin)
    requires SwginDefinable(mapTypes, sg)
    ensures EffectiveRoutesDefinableHolds(mapTypes, sg)
    ensures var routes := EffectiveRoutes(sg);
      var st := RenderSeq(mapTypes, EmptyState, routes);
      && st.paths.Keys == RoutePaths(routes)
      && (forall k :: 0 <= k < |routes| ==> PayloadNames(routes[k]) <= st.definitions.Keys)
      && RefsResolved(st)
  {
    EffectiveRoutesDefinable(mapTypes, sg);
    var routes := EffectiveRoutes(sg);
    RenderSeqPathKeys(mapTypes, EmptyState, routes);
    RenderSeqDefinesPayloads(mapTypes, EmptyState, routes);
    forall k | 0 <= k < |routes| ensures PayloadNames(routes[k]) <= RoutesPayloadNames(routes) {
      RoutesPayloadNamesMembers(routes, k);
    }
    RenderSeqRefsResolved(mapTypes, EmptyState, routes);
  }
}
