/**
  Who is affected, told without the algorithm: a version is affected exactly when a chain of dependencies leads
  to it from the source, whose first link depends on something that the delta names
  (packages/lineage/src/impact.ts:159-305).
 */
module ImpactChains {
  import opened Tables
  import opened Selectors
  import opened Impact
  import opened ImpactFixpoint
  import opened ImpactRoutes
  import opened ImpactCounts

  // ------------------------------------------------------------------- what an edge hands on

  /** What a change of `news` becomes behind an edge, or nothing where its transfer function sees no impact. */
  function Becomes(input: Input, edge: Edge, news: set<Selector>): Option<set<Selector>> {
    if edge.transfer.Some? && edge.transfer.value in input.transfers then
      match input.transfers[edge.transfer.value](edge, news)
      case NoImpact => None
      case Impacts(None) => Some({Unknown})
      case Impacts(Some(selectors)) => Some(selectors)
    else Some({Unknown})
  }

  /** The target is not known to keep its fingerprint. */
  predicate Stirs(input: Input, edge: Edge, selectors: set<Selector>) {
    || input.resolver.None?
    || edge.target !in input.fingerprints
    || input.resolver.value(edge.target, edge, selectors, Some(input.fingerprints[edge.target]))
       != input.fingerprints[edge.target]
  }

  /** The edge depends on something the selector names, or does not say on what it depends. */
  ghost predicate DependsOn(edge: Edge, s: Selector) {
    edge.selector.None? || Related(s, edge.selector.value)
  }

  /** A change of `s` at the edge's source is one of `x` at its target. */
  ghost predicate Hands(input: Input, edge: Edge, s: Selector, x: Selector) {
    && edge in input.edges && DependsOn(edge, s)
    && Becomes(input, edge, {s}).Some? && x in Becomes(input, edge, {s}).value
    && Stirs(input, edge, Becomes(input, edge, {s}).value)
  }

  lemma DependsIsIntersects(edge: Edge, s: Selector)
    ensures SelectorSetsIntersect({s}, {DependencySelector(edge)}) <==> DependsOn(edge, s)
  {
    hide SelectorsIntersect, Related;
    IntersectExactly(s, DependencySelector(edge));
    UnknownRelated(s);
    assert SelectorSetsIntersect({s}, {DependencySelector(edge)})
      <==> SelectorsIntersect(s, DependencySelector(edge));
  }

  lemma UnknownRelated(s: Selector)
    ensures Related(s, Unknown)
  {
  }

  lemma HandsExactly(input: Input, edge: Edge, s: Selector, x: Selector)
    requires edge in input.edges
    ensures x in Carried(input, edge, {s}) <==> Hands(input, edge, s, x)
  {
    hide SelectorSetsIntersect, DependsOn;
    DependsIsIntersects(edge, s);
  }

  // --------------------------------------------------------------------------------- chains

  datatype Link = Link(edge: Edge, before: Selector, after: Selector)

  ghost predicate Chain(input: Input, links: seq<Link>) {
    links == [] ||
    var init, last := links[..|links| - 1], links[|links| - 1];
    && Chain(input, init)
    && Hands(input, last.edge, last.before, last.after)
    && if init == [] then last.edge.source == input.source && last.before in input.delta
       else last.edge.source == init[|init| - 1].edge.target && last.before == init[|init| - 1].after
  }

  ghost predicate Ends(input: Input, links: seq<Link>, v: VersionId, s: Selector) {
    && links != [] && Chain(input, links)
    && links[|links| - 1].edge.target == v && links[|links| - 1].after == s
  }

  ghost predicate Touched(input: Input, v: VersionId, s: Selector) {
    (v == input.source && s in input.delta) || exists links :: Ends(input, links, v, s)
  }

  lemma TouchedNext(input: Input, edge: Edge, s: Selector, x: Selector)
    requires Touched(input, edge.source, s) && Hands(input, edge, s, x)
    ensures Touched(input, edge.target, x)
  {
    hide Hands;
    var link := Link(edge, s, x);
    if edge.source == input.source && s in input.delta {
      assert [link][..0] == [];
      assert Chain(input, []);
      assert Chain(input, [link]);
      assert Ends(input, [link], edge.target, x);
    } else {
      var links :| Ends(input, links, edge.source, s);
      assert (links + [link])[..|links|] == links;
      assert Ends(input, links + [link], edge.target, x);
    }
  }

  lemma {:induction false} ChainWithin(input: Input, links: seq<Link>, pairs: Pairs)
    requires Closed(input, pairs) && links != [] && Chain(input, links)
    ensures (links[|links| - 1].edge.target, links[|links| - 1].after) in pairs
  {
    hide Hands, Carried;
    var init, last := links[..|links| - 1], links[|links| - 1];
    if init != [] {
      ChainWithin(input, init, pairs);
    }
    InEdges(input, last);
    HandsExactly(input, last.edge, last.before, last.after);
  }

  lemma InEdges(input: Input, link: Link)
    requires Hands(input, link.edge, link.before, link.after)
    ensures link.edge in input.edges
  {
  }

  /**
    With transfer functions that work selector by selector: the analysis finds a change of `s` at `v` exactly
    when the delta names it or a chain of edges, each handing on what the one before it left, leads to it.
   */
  lemma TouchedExactly(input: Input, universe: set<Selector>)
    requires InUniverse(input, universe) && SelectorWise(input)
    ensures forall v: VersionId, s: Selector :: (v, s) in PairsOf(Analysis(input, universe)) <==> Touched(input, v, s)
  {
    hide InUniverse, SelectorWise, Analysis, Carried, Hands, Chain, PairsOf;
    var found := PairsOf(Analysis(input, universe));
    ImpactIsLeast(input, universe);
    var reached: Pairs := iset v, s | Touched(input, v, s) :: (v, s);
    forall e, s, x | e in input.edges && (e.source, s) in reached && x in Carried(input, e, {s})
      ensures (e.target, x) in reached
    {
      HandsExactly(input, e, s, x);
      TouchedNext(input, e, s, x);
    }
    assert Closed(input, reached);
    forall v, s | Touched(input, v, s) ensures (v, s) in found {
      if !(v == input.source && s in input.delta) {
        var links :| Ends(input, links, v, s);
        ChainWithin(input, links, found);
      }
    }
    assert found <= reached;
  }

  // ------------------------------------------------------------- without transfer functions

  /** A path of edges from the source, none of which is known to leave its target as it was. */
  predicate Path(input: Input, path: seq<Edge>) {
    path == [] ||
    var init, last := path[..|path| - 1], path[|path| - 1];
    && Path(input, init) && last in input.edges && Stirs(input, last, {Unknown})
    && last.source == if init == [] then input.source else init[|init| - 1].target
  }

  /** The delta names something that the edge depends on. */
  ghost predicate Scoped(input: Input, edge: Edge) {
    exists s :: s in input.delta && DependsOn(edge, s)
  }

  /** The version depends, directly or through others, on what was changed. */
  ghost predicate Dependent(input: Input, v: VersionId) {
    exists path: seq<Edge> ::
      path != [] && Path(input, path) && Scoped(input, path[0]) && path[|path| - 1].target == v
  }

  lemma {:induction false} PathTouches(input: Input, path: seq<Edge>)
    requires Plain(input) && path != [] && Path(input, path) && Scoped(input, path[0])
    ensures Touched(input, path[|path| - 1].target, Unknown)
  {
    hide Touched, Related;
    var init, last := path[..|path| - 1], path[|path| - 1];
    if init == [] {
      var s :| s in input.delta && DependsOn(last, s);
      DeltaTouches(input, s);
      TouchedNext(input, last, s, Unknown);
    } else {
      PathTouches(input, init);
      UnknownDepends(last);
      TouchedNext(input, last, Unknown, Unknown);
    }
  }

  lemma DeltaTouches(input: Input, s: Selector)
    requires s in input.delta
    ensures Touched(input, input.source, s)
  {
  }

  lemma UnknownDepends(edge: Edge)
    ensures DependsOn(edge, Unknown)
  {
  }

  lemma {:induction false} ChainIsPath(input: Input, links: seq<Link>) returns (path: seq<Edge>)
    requires Plain(input) && links != [] && Chain(input, links)
    ensures path != [] && Path(input, path) && Scoped(input, path[0])
    ensures path[|path| - 1].target == links[|links| - 1].edge.target && links[|links| - 1].after == Unknown
  {
    hide DependsOn;
    var init, last := links[..|links| - 1], links[|links| - 1];
    if init == [] {
      path := [last.edge];
      assert path[..0] == [];
    } else {
      var before := ChainIsPath(input, init);
      path := before + [last.edge];
      assert path[..|before|] == before;
    }
  }

  /** Without transfer functions the affected versions are the source and what depends on the change. */
  lemma DependentsAreAffected(input: Input, universe: set<Selector>)
    requires InUniverse(input, universe) && Plain(input) && input.delta != {}
    ensures var r := Report(Analysis(input, universe));
            r.Impact? && forall v :: v in r.affected <==> v == input.source || Dependent(input, v)
  {
    hide InUniverse, Analysis, Path, Chain, Scoped, Plain;
    var walk := Analysis(input, universe);
    PlainIsSelectorWise(input);
    VisitedExactly(input, universe);
    TouchedExactly(input, universe);
    var delta :| delta in input.delta;
    DeltaTouches(input, delta);
    assert (input.source, delta) in PairsOf(walk);
    forall v ensures v in walk.affected <==> v == input.source || Dependent(input, v) {
      if v in walk.affected && v != input.source {
        assert walk.affected[v].selectors != {};
        var s :| s in walk.affected[v].selectors;
        assert (v, s) in PairsOf(walk);
        var links :| Ends(input, links, v, s);
        var path := ChainIsPath(input, links);
      }
      if Dependent(input, v) {
        var path: seq<Edge> :|
          path != [] && Path(input, path) && Scoped(input, path[0]) && path[|path| - 1].target == v;
        PathTouches(input, path);
        assert (v, Unknown) in PairsOf(walk);
      }
    }
  }

  /** In particular: an edge leaving the source, whose JSON path shares a place with the delta. */
  lemma SharedPlaceIsAffected(input: Input, edge: Edge, changed: Selector, place: seq<string>)
    requires input.resolver.None? && edge in input.edges && edge.source == input.source
    requires changed in input.delta && changed.JsonPath? && changed.tokens.Some?
    requires edge.selector.Some? && edge.selector.value.JsonPath? && edge.selector.value.tokens.Some?
    requires Concrete(place) && Covers(changed.tokens.value, place) && Covers(edge.selector.value.tokens.value, place)
    ensures Dependent(input, edge.target)
  {
    hide Covers;
    assert NamesThing(changed, Place(place)) && NamesThing(edge.selector.value, Place(place));
    assert DependsOn(edge, changed);
    assert [edge][..0] == [];
    assert Path(input, [edge]);
  }
}
