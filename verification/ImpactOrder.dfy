/**
  What impact analysis does not depend on: the order of the edges, and any edge that cannot be
  reached from the source.
 */
module ImpactOrder {
  import opened Tables
  import opened Selectors
  import opened Impact
  import opened ImpactCounts

  ghost predicate DistinctIds(edges: seq<Edge>) {
    forall i, j :: 0 <= i < j < |edges| ==> edges[i].id != edges[j].id
  }

  predicate Sorted(edges: seq<Edge>) {
    forall i, j :: 0 <= i < j < |edges| ==> edges[i].id <= edges[j].id
  }

  lemma {:induction false} InsertSorted(edge: Edge, sorted: seq<Edge>)
    requires Sorted(sorted)
    ensures Sorted(Insert(edge, sorted))
  {
    if sorted != [] && edge.id < sorted[|sorted| - 1].id {
      var init, last := sorted[..|sorted| - 1], sorted[|sorted| - 1];
      InsertSorted(edge, init);
      InsertMembers(edge, init);
      forall i | 0 <= i < |Insert(edge, init)| ensures Insert(edge, init)[i].id <= last.id {
        assert Insert(edge, init)[i] in multiset(Insert(edge, init));
        assert Insert(edge, init)[i] in multiset(init) + multiset{edge};
      }
    }
  }

  lemma {:induction false} SortSorts(edges: seq<Edge>)
    ensures Sorted(SortById(edges))
  {
    if edges != [] {
      SortSorts(edges[..|edges| - 1]);
      InsertSorted(edges[|edges| - 1], SortById(edges[..|edges| - 1]));
    }
  }

  ghost predicate IdsIdentify(edges: multiset<Edge>) {
    forall x, y :: x in edges && y in edges && x.id == y.id ==> x == y
  }

  /** Sorting by distinct ids leaves no choice. */
  lemma {:induction false} SortedUnique(a: seq<Edge>, b: seq<Edge>)
    requires Sorted(a) && Sorted(b) && multiset(a) == multiset(b) && IdsIdentify(multiset(a))
    ensures a == b
    decreases |a|
  {
    hide Sorted, IdsIdentify;
    assert |a| == |multiset(a)| == |multiset(b)| == |b|;
    if a != [] {
      LastIsLargest(a, b);
      WithoutLast(a);
      WithoutLast(b);
      SortedUnique(a[..|a| - 1], b[..|b| - 1]);
    }
  }

  lemma WithoutLast(a: seq<Edge>)
    requires a != [] && Sorted(a)
    ensures a == a[..|a| - 1] + [a[|a| - 1]] && Sorted(a[..|a| - 1])
    ensures multiset(a[..|a| - 1]) == multiset(a) - multiset{a[|a| - 1]}
    ensures IdsIdentify(multiset(a)) ==> IdsIdentify(multiset(a[..|a| - 1]))
  {
    assert a == a[..|a| - 1] + [a[|a| - 1]];
  }

  lemma LastIsLargest(a: seq<Edge>, b: seq<Edge>)
    requires a != [] && b != [] && Sorted(a) && Sorted(b) && multiset(a) == multiset(b) && IdsIdentify(multiset(a))
    ensures a[|a| - 1] == b[|b| - 1]
  {
    var x, y := a[|a| - 1], b[|b| - 1];
    SameMembers(a, b, x);
    SameMembers(a, b, y);
    var i :| 0 <= i < |b| && b[i] == x;
    var j :| 0 <= j < |a| && a[j] == y;
    assert x.id <= y.id && y.id <= x.id;
  }

  lemma SameMembers(a: seq<Edge>, b: seq<Edge>, x: Edge)
    requires multiset(a) == multiset(b)
    ensures x in a <==> x in b
  {
    assert x in a <==> x in multiset(a);
    assert x in b <==> x in multiset(b);
  }

  lemma {:induction false} LeavingCount(edges: seq<Edge>, v: VersionId, e: Edge)
    ensures multiset(Leaving(edges, v))[e] == if e.source == v then multiset(edges)[e] else 0
  {
    if edges != [] {
      LeavingCount(edges[..|edges| - 1], v, e);
      assert edges == edges[..|edges| - 1] + [edges[|edges| - 1]];
    }
  }

  lemma MembersById(edges: seq<Edge>, part: multiset<Edge>)
    requires DistinctIds(edges) && forall e :: e in part ==> e in edges
    ensures IdsIdentify(part)
  {
  }

  /** Two edge lists with the same edges leaving `v` give the same outgoing list. */
  lemma OutgoingUnique(a: seq<Edge>, b: seq<Edge>, v: VersionId)
    requires DistinctIds(a) && multiset(Leaving(a, v)) == multiset(Leaving(b, v))
    ensures Outgoing(a, v) == Outgoing(b, v)
  {
    SortSorts(Leaving(a, v));
    SortSorts(Leaving(b, v));
    SortMembers(Leaving(a, v));
    SortMembers(Leaving(b, v));
    OutgoingMembers(a, v);
    MembersById(a, multiset(Outgoing(a, v)));
    SortedUnique(Outgoing(a, v), Outgoing(b, v));
  }

  // ------------------------------------------------------- edges that make no difference

  ghost predicate ClosedRegion(edges: seq<Edge>, source: VersionId, region: set<VersionId>) {
    && source in region
    && forall e :: e in edges && e.source in region ==> e.target in region
  }

  /** Same inputs but for the edges, which agree on a closed region around the source. */
  ghost predicate SameRegion(a: Input, b: Input, region: set<VersionId>) {
    && b == a.(edges := b.edges)
    && ClosedRegion(a.edges, a.source, region)
    && forall v :: v in region ==> Outgoing(a.edges, v) == Outgoing(b.edges, v)
  }

  ghost predicate Inside(walk: Walk, region: set<VersionId>) {
    forall v :: v in walk.affected ==> v in region
  }

  lemma SameDecisions(a: Input, b: Input, e: Edge, news: set<Selector>)
    requires b == a.(edges := b.edges)
    ensures Decide(a, e, news) == Decide(b, e, news)
  {
    hide SelectorSetsIntersect;
  }

  lemma {:induction false} SameBatch(
    a: Input, b: Input, walk: Walk, batch: seq<Edge>, news: set<Selector>, generation: nat, region: set<VersionId>)
    requires b == a.(edges := b.edges)
    requires Inside(walk, region) && forall e :: e in batch ==> e.target in region
    ensures VisitAll(a, walk, batch, news, generation) == VisitAll(b, walk, batch, news, generation)
    ensures Inside(VisitAll(a, walk, batch, news, generation), region)
  {
    hide Decide;
    if batch != [] {
      SameBatch(a, b, walk, batch[..|batch| - 1], news, generation, region);
      SameDecisions(a, b, batch[|batch| - 1], news);
    }
  }

  lemma SameRound(a: Input, b: Input, walk: Walk, region: set<VersionId>)
    requires SameRegion(a, b, region) && Inside(walk, region) && walk.queue != []
    ensures Dequeue(a, walk) == Dequeue(b, walk) && Inside(Dequeue(a, walk), region)
  {
    hide Outgoing;
    var v := walk.queue[0];
    if v in walk.affected && NewSelectors(walk, v) != {} {
      OutgoingMembers(a.edges, v);
      SameBatch(a, b, Marked(walk, v), Outgoing(a.edges, v), NewSelectors(walk, v), walk.affected[v].generation, region);
    }
  }

  lemma {:induction false} SameFinish(a: Input, b: Input, walk: Walk, region: set<VersionId>, universe: set<Selector>)
    requires SameRegion(a, b, region) && Inside(walk, region)
    requires InUniverse(a, universe) && Fits(a, walk, universe)
    requires InUniverse(b, universe) && Fits(b, walk, universe)
    ensures Finish(a, walk, universe) == Finish(b, walk, universe)
    decreases |Remaining(a, walk, universe)|, |walk.queue|
  {
    hide SameRegion, Inside, InUniverse, Fits, Remaining, Dequeue;
    if walk.queue != [] {
      SameRound(a, b, walk, region);
      DequeueFits(a, walk, universe);
      DequeueFits(b, walk, universe);
      SameFinish(a, b, Dequeue(a, walk), region, universe);
    }
  }

  lemma SameAnalysis(a: Input, b: Input, region: set<VersionId>, universe: set<Selector>)
    requires SameRegion(a, b, region) && InUniverse(a, universe) && InUniverse(b, universe)
    ensures Analysis(a, universe) == Analysis(b, universe)
  {
    hide InUniverse, Finish, Outgoing;
    StartFits(a, universe);
    StartFits(b, universe);
    SameFinish(a, b, Start(a), region, universe);
  }

  /** The result is a function of the set of edges: their order does not matter. */
  lemma OrderDoesNotMatter(a: Input, b: Input, universe: set<Selector>)
    requires b == a.(edges := b.edges) && multiset(a.edges) == multiset(b.edges) && DistinctIds(a.edges)
    requires InUniverse(a, universe)
    ensures InUniverse(b, universe)
    ensures Analysis(a, universe) == Analysis(b, universe)
  {
    hide Outgoing, Finish, Decide;
    forall e ensures e in a.edges <==> e in b.edges {
      SameMembers(a.edges, b.edges, e);
    }
    SameUniverse(a, b, universe);
    forall v ensures Outgoing(a.edges, v) == Outgoing(b.edges, v) {
      forall e ensures multiset(Leaving(a.edges, v))[e] == multiset(Leaving(b.edges, v))[e] {
        LeavingCount(a.edges, v, e);
        LeavingCount(b.edges, v, e);
      }
      assert multiset(Leaving(a.edges, v)) == multiset(Leaving(b.edges, v));
      OutgoingUnique(a.edges, b.edges, v);
    }
    SameAnalysis(a, b, Versions(a), universe);
  }

  lemma SameUniverse(a: Input, b: Input, universe: set<Selector>)
    requires b == a.(edges := b.edges) && InUniverse(a, universe)
    requires forall e :: e in b.edges ==> e in a.edges
    ensures InUniverse(b, universe)
  {
    hide Decide;
    forall e, news | e in b.edges && news <= universe && Decide(b, e, news).Propagate?
      ensures Decide(b, e, news).selectors <= universe
    {
      SameDecisions(a, b, e, news);
    }
  }

  // ------------------------------------------------------------------- reachable edges

  /** The edges that leave a closed region around the source, each once. */
  ghost predicate Restriction(table: seq<Edge>, source: VersionId, edges: seq<Edge>) {
    && DistinctIds(edges)
    && exists region :: ClosedRegion(table, source, region)
         && forall e :: e in edges <==> e in table && e.source in region
  }

  /** Analysing only the reachable edges gives the result for the whole graph. */
  lemma RestrictionIsEnough(a: Input, b: Input, universe: set<Selector>)
    requires b == a.(edges := b.edges) && DistinctIds(a.edges) && Restriction(a.edges, a.source, b.edges)
    requires InUniverse(a, universe)
    ensures InUniverse(b, universe)
    ensures Analysis(a, universe) == Analysis(b, universe)
  {
    hide Outgoing, Finish, Decide;
    SameUniverse(a, b, universe);
    var region :| ClosedRegion(a.edges, a.source, region)
      && forall e :: e in b.edges <==> e in a.edges && e.source in region;
    forall v | v in region ensures Outgoing(a.edges, v) == Outgoing(b.edges, v) {
      forall e ensures multiset(Leaving(a.edges, v))[e] == multiset(Leaving(b.edges, v))[e] {
        LeavingCount(a.edges, v, e);
        LeavingCount(b.edges, v, e);
        AtMostOnce(a.edges, e);
        AtMostOnce(b.edges, e);
      }
      assert multiset(Leaving(a.edges, v)) == multiset(Leaving(b.edges, v));
      OutgoingUnique(a.edges, b.edges, v);
    }
    SameAnalysis(a, b, region, universe);
  }

  lemma {:induction false} AtMostOnce(edges: seq<Edge>, e: Edge)
    requires DistinctIds(edges)
    ensures multiset(edges)[e] == if e in edges then 1 else 0
  {
    if edges != [] {
      var init, last := edges[..|edges| - 1], edges[|edges| - 1];
      assert edges == init + [last];
      AtMostOnce(init, e);
    }
  }

  const EDGE_LIMIT := 10000

  ghost predicate LeastRegion(table: seq<Edge>, source: VersionId, region: set<VersionId>) {
    && ClosedRegion(table, source, region)
    && forall other :: ClosedRegion(table, source, other) ==> region <= other
  }

  /** How many edges leave a set of versions, when the limit applies to all of them. */
  lemma {:induction false} CountMonotone(edges: seq<Edge>, small: set<VersionId>, large: set<VersionId>)
    requires small <= large
    ensures CountLeaving(edges, small) <= CountLeaving(edges, large)
  {
    if edges != [] {
      CountMonotone(edges[..|edges| - 1], small, large);
    }
  }

  method ListOutgoing(table: seq<Edge>, source: VersionId) returns (rows: seq<Edge>)
    ensures rows == Leaving(table, source)
  {
    rows := [];
    for k := 0 to |table|
      invariant rows == Leaving(table[..k], source)
    {
      assert table[..k + 1][..k] == table[..k];
      if table[k].source == source {
        rows := rows + [table[k]];
      }
    }
    assert table[..|table|] == table;
  }

  /** Everything expanded so far, and everything it leads to. */
  ghost predicate Expanding(
    table: seq<Edge>, source: VersionId, queue: seq<VersionId>, expanded: set<VersionId>, edges: seq<Edge>)
  {
    && (source in expanded || source in queue)
    && (forall e :: e in edges <==> e in table && e.source in expanded)
    && (forall e :: e in edges ==> e.target in expanded || e.target in queue)
    && (forall other, v :: ClosedRegion(table, source, other) && (v in expanded || v in queue) ==> v in other)
    && |edges| == CountLeaving(table, expanded)
    && DistinctIds(edges)
  }

  lemma {:induction false} LeavingDistinct(edges: seq<Edge>, v: VersionId)
    requires DistinctIds(edges)
    ensures DistinctIds(Leaving(edges, v))
  {
    if edges != [] {
      LeavingDistinct(edges[..|edges| - 1], v);
      LeavingMembers(edges[..|edges| - 1], v);
    }
  }

  lemma JoinDistinct(table: seq<Edge>, edges: seq<Edge>, more: seq<Edge>)
    requires DistinctIds(table) && DistinctIds(edges) && DistinctIds(more)
    requires forall e :: e in edges || e in more ==> e in table
    requires forall e :: e in edges ==> e !in more
    ensures DistinctIds(edges + more)
  {
    MembersById(table, multiset(table));
    forall i, j | 0 <= i < |edges| && 0 <= j < |more| ensures edges[i].id != more[j].id {
      assert edges[i] in edges && more[j] in more;
      assert edges[i] in multiset(table) && more[j] in multiset(table);
    }
  }

  /** Versions one step ahead of the expanded ones. */
  predicate Ahead(outgoing: seq<Edge>, expanded: set<VersionId>, v: VersionId) {
    v !in expanded && exists e :: e in outgoing && e.target == v
  }

  lemma ExpandOne(table: seq<Edge>, source: VersionId, queue: seq<VersionId>, expanded: set<VersionId>,
                  edges: seq<Edge>, v: VersionId, next: seq<VersionId>)
    requires DistinctIds(table) && v !in expanded
    requires Expanding(table, source, [v] + queue, expanded, edges)
    requires forall w :: w in next <==> w in queue || Ahead(Leaving(table, v), expanded + {v}, w)
    ensures Expanding(table, source, next, expanded + {v}, edges + Leaving(table, v))
  {
    hide Leaving, CountLeaving, DistinctIds, ClosedRegion;
    var outgoing := Leaving(table, v);
    LeavingMembers(table, v);
    LeavingDistinct(table, v);
    CountOneMore(table, expanded, v);
    JoinDistinct(table, edges, outgoing);
    forall other, w | ClosedRegion(table, source, other) && (w in expanded + {v} || w in next) ensures w in other {
      InsideRegion(table, source, other, v);
    }
  }

  lemma InsideRegion(table: seq<Edge>, source: VersionId, other: set<VersionId>, v: VersionId)
    requires ClosedRegion(table, source, other) && v in other
    ensures forall e :: e in Leaving(table, v) ==> e.target in other
  {
    LeavingMembers(table, v);
  }

  lemma ExpandedEnough(table: seq<Edge>, source: VersionId, expanded: set<VersionId>, edges: seq<Edge>)
    requires Expanding(table, source, [], expanded, edges)
    ensures Restriction(table, source, edges)
    ensures LeastRegion(table, source, expanded) && |edges| == CountLeaving(table, expanded)
  {
    hide CountLeaving, DistinctIds;
    assert ClosedRegion(table, source, expanded);
  }

  lemma TooMany(table: seq<Edge>, source: VersionId, queue: seq<VersionId>, expanded: set<VersionId>, edges: seq<Edge>)
    requires Expanding(table, source, queue, expanded, edges) && |edges| > EDGE_LIMIT
    ensures forall region :: ClosedRegion(table, source, region) ==> CountLeaving(table, region) > EDGE_LIMIT
  {
    hide CountLeaving, ClosedRegion, DistinctIds;
    forall region | ClosedRegion(table, source, region) ensures CountLeaving(table, region) > EDGE_LIMIT {
      CountMonotone(table, expanded, region);
    }
  }

  method Follow(outgoing: seq<Edge>, expanded: set<VersionId>, found: seq<Edge>, waiting: seq<VersionId>)
    returns (edges: seq<Edge>, queue: seq<VersionId>)
    ensures edges == found + outgoing
    ensures forall w :: w in queue <==> w in waiting || Ahead(outgoing, expanded, w)
  {
    edges, queue := found, waiting;
    for k := 0 to |outgoing|
      invariant edges == found + outgoing[..k]
      invariant forall w :: w in queue <==> w in waiting || Ahead(outgoing[..k], expanded, w)
    {
      assert outgoing[..k + 1] == outgoing[..k] + [outgoing[k]];
      edges := edges + [outgoing[k]];
      if outgoing[k].target !in expanded {
        queue := queue + [outgoing[k].target];
      }
    }
    assert outgoing[..|outgoing|] == outgoing;
  }

  /**
    The breadth-first walk in front of the analysis (apps/api/src/routes/lineage.ts:153-185): all edges
    that leave the versions reachable from the source, unless there are more than the limit.
   */
  method ReachableEdges(table: seq<Edge>, source: VersionId) returns (result: Option<seq<Edge>>)
    requires DistinctIds(table)
    ensures result.Some? ==>
              && Restriction(table, source, result.value) && |result.value| <= 10_000
              && exists region :: LeastRegion(table, source, region) && |result.value| == CountLeaving(table, region)
    ensures result.None? ==>
              forall region :: ClosedRegion(table, source, region) ==> CountLeaving(table, region) > 10_000
  {
    hide Leaving, CountLeaving, Expanding, DistinctIds, Restriction, LeastRegion, ClosedRegion;
    var queue: seq<VersionId>, expanded: set<VersionId>, edges: seq<Edge> := [source], {}, [];
    ghost var all := {source} + set e | e in table :: e.target;
    NothingExpanded(table, source);
    while queue != []
      invariant Expanding(table, source, queue, expanded, edges) && |edges| <= EDGE_LIMIT
      invariant expanded <= all && forall v :: v in queue ==> v in all
      decreases |all - expanded|, |queue|
    {
      var v := queue[0];
      assert queue == [v] + queue[1..];
      queue := queue[1..];
      if v in expanded {
        AlreadyExpanded(table, source, queue, expanded, edges, v);
        continue;
      }
      ghost var rest, before, found := queue, expanded, edges;
      expanded := expanded + {v};
      Shrink(all - expanded, all - before);
      var outgoing := ListOutgoing(table, v);
      LeavingMembers(table, v);
      edges, queue := Follow(outgoing, expanded, edges, queue);
      ExpandOne(table, source, rest, before, found, v, queue);
      if |edges| > EDGE_LIMIT {
        TooMany(table, source, queue, expanded, edges);
        return None;
      }
    }
    ExpandedEnough(table, source, expanded, edges);
    result := Some(edges);
  }

  lemma NothingExpanded(table: seq<Edge>, source: VersionId)
    ensures Expanding(table, source, [source], {}, [])
  {
    CountNone(table);
  }

  lemma AlreadyExpanded(
    table: seq<Edge>, source: VersionId, queue: seq<VersionId>, expanded: set<VersionId>, edges: seq<Edge>, v: VersionId)
    requires Expanding(table, source, [v] + queue, expanded, edges) && v in expanded
    ensures Expanding(table, source, queue, expanded, edges)
  {
    hide ClosedRegion, CountLeaving, DistinctIds;
  }
}
