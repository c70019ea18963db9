/**
  Routes of a change when no transfer function is registered: which edges carry it, and whether one of
  its routes comes back to the source. Everything here is said about the input alone.
 */
module ImpactRoutes {
  import opened Selectors
  import opened Impact
  import opened ImpactFixpoint

  /**
    An edge carries the change unless the target's fingerprint stays as it was, or the edge leaves the source
    and depends on something untouched.
   */
  predicate Carries(input: Input, edge: Edge) {
    && edge in input.edges
    && !Unchanged(input, edge, {Unknown})
    && (edge.source == input.source ==> SelectorSetsIntersect(input.delta, {DependencySelector(edge)}))
  }

  function EndOf(input: Input, route: seq<Edge>): VersionId {
    if route == [] then input.source else route[|route| - 1].target
  }

  /** A chain of carrying edges that starts at the source. */
  predicate Route(input: Input, route: seq<Edge>) {
    route == [] ||
    var init, edge := route[..|route| - 1], route[|route| - 1];
    Route(input, init) && Carries(input, edge) && edge.source == EndOf(input, init)
  }

  ghost predicate ReachIn(input: Input, v: VersionId, n: nat) {
    exists route :: Route(input, route) && |route| == n && EndOf(input, route) == v
  }

  ghost predicate Returns(input: Input) {
    exists route :: route != [] && Route(input, route) && EndOf(input, route) == input.source
  }

  /** The same change without its scope: it may take every edge that can carry a change at all. */
  function Opened(input: Input): Input {
    input.(delta := input.delta + {Unknown})
  }

  lemma ExtendRoute(input: Input, route: seq<Edge>, edge: Edge)
    requires Route(input, route) && Carries(input, edge) && edge.source == EndOf(input, route)
    ensures Route(input, route + [edge]) && EndOf(input, route + [edge]) == edge.target
  {
    hide Carries;
    assert (route + [edge])[..|route|] == route;
  }

  lemma Extend(input: Input, edge: Edge, n: nat)
    requires ReachIn(input, edge.source, n) && Carries(input, edge)
    ensures ReachIn(input, edge.target, n + 1)
  {
    hide Carries;
    var route :| Route(input, route) && |route| == n && EndOf(input, route) == edge.source;
    ExtendRoute(input, route, edge);
  }

  // -------------------------------------------------------------------- back to the source

  lemma UnknownMeets(s: Selector)
    ensures SelectorsIntersect(Unknown, s)
  {
  }

  /** What one selector carries over an edge, given that nothing is registered. */
  lemma CarriedByOne(input: Input, e: Edge, s: Selector)
    requires Plain(input)
    ensures Carried(input, e, {s})
         == if SelectorsIntersect(s, DependencySelector(e)) && !Unchanged(input, e, {Unknown}) then {Unknown} else {}
  {
    hide SelectorsIntersect, Unchanged, DependencySelector;
    assert SelectorSetsIntersect({s}, {DependencySelector(e)}) <==> SelectorsIntersect(s, DependencySelector(e));
  }

  /** The delta at the source, and the unknown selector wherever a nonempty route ends. */
  ghost function Spread(input: Input): Pairs {
    iset v, s | (v == input.source && s in input.delta) || (s == Unknown && EndsRoute(input, v)) :: (v, s)
  }

  ghost predicate EndsRoute(input: Input, v: VersionId) {
    exists route :: route != [] && Route(input, route) && EndOf(input, route) == v
  }

  lemma SpreadClosed(input: Input)
    requires Plain(input) && !Returns(input)
    ensures Closed(input, Spread(input))
  {
    hide SelectorsIntersect, Unchanged, Carried, DependencySelector;
    forall e, s, x | e in input.edges && (e.source, s) in Spread(input) && x in Carried(input, e, {s})
      ensures (e.target, x) in Spread(input)
    {
      CarriedByOne(input, e, s);
      if e.source == input.source {
        assert !EndsRoute(input, e.source);
        ExtendRoute(input, [], e);
      } else {
        var route :| route != [] && Route(input, route) && EndOf(input, route) == e.source;
        ExtendRoute(input, route, e);
      }
    }
  }

  lemma {:induction false} RoutesSpread(input: Input, route: seq<Edge>, pairs: Pairs)
    requires Plain(input) && Closed(input, pairs) && Route(input, route) && route != []
    ensures (EndOf(input, route), Unknown) in pairs
  {
    hide SelectorsIntersect, Unchanged, Carried, DependencySelector;
    var init, e := route[..|route| - 1], route[|route| - 1];
    if e.source == input.source {
      var s :| s in input.delta && SelectorsIntersect(s, DependencySelector(e));
      CarriedByOne(input, e, s);
      assert Unknown in Carried(input, e, {s});
    } else {
      RoutesSpread(input, init, pairs);
      UnknownMeets(DependencySelector(e));
      CarriedByOne(input, e, Unknown);
      assert Unknown in Carried(input, e, {Unknown});
    }
  }

  /** In the least closed set the source holds the unknown selector exactly when a route returns to it. */
  lemma LeastReturns(input: Input, pairs: Pairs)
    requires Plain(input) && LeastClosed(input, pairs) && Unknown !in input.delta
    ensures (input.source, Unknown) in pairs <==> Returns(input)
  {
    hide Closed, Route;
    if Returns(input) {
      var route :| route != [] && Route(input, route) && EndOf(input, route) == input.source;
      RoutesSpread(input, route, pairs);
    } else {
      SpreadClosed(input);
      assert pairs <= Spread(input);
    }
  }

  // ------------------------------------------------------------------------ acyclic graphs

  predicate Chain(edges: seq<Edge>, path: seq<Edge>) {
    && (forall k :: 0 <= k < |path| ==> path[k] in edges)
    && (forall k :: 0 < k < |path| ==> path[k].source == path[k - 1].target)
  }

  ghost predicate Acyclic(edges: seq<Edge>) {
    !exists path: seq<Edge> :: path != [] && Chain(edges, path) && path[0].source == path[|path| - 1].target
  }

  lemma {:induction false} RouteIsChain(input: Input, route: seq<Edge>)
    requires Route(input, route)
    ensures Chain(input.edges, route) && (route != [] ==> route[0].source == input.source)
  {
    hide Unchanged, SelectorSetsIntersect;
    if route != [] {
      RouteIsChain(input, route[..|route| - 1]);
    }
  }

  lemma AcyclicNeverReturns(input: Input)
    requires Acyclic(input.edges)
    ensures !Returns(input)
  {
    hide Route, Chain;
    if route :| route != [] && Route(input, route) && EndOf(input, route) == input.source {
      RouteIsChain(input, route);
      assert false;
    }
  }
}
