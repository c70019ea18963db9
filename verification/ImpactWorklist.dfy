/** The loop of impact analysis, step by step, proved equal to `Impact.Analysis`. */
module ImpactWorklist {
  import opened Tables
  import opened Selectors
  import opened Impact
  import opened ImpactFixpoint
  import opened ImpactChains

  method GroupBySource(edges: seq<Edge>) returns (outgoing: map<VersionId, seq<Edge>>)
    ensures forall v :: Outgoing(edges, v) == if v in outgoing then outgoing[v] else []
  {
    outgoing := map[];
    for k := 0 to |edges|
      invariant forall v :: Leaving(edges[..k], v) == if v in outgoing then outgoing[v] else []
    {
      var edge := edges[k];
      assert edges[..k + 1][..k] == edges[..k];
      var current := if edge.source in outgoing then outgoing[edge.source] else [];
      outgoing := outgoing[edge.source := current + [edge]];
    }
    assert edges[..|edges|] == edges;
    outgoing := map v | v in outgoing :: SortById(outgoing[v]);
  }

  /** The branches that look at one edge; the answer is what to record. */
  method Examine(input: Input, edge: Edge, news: set<Selector>) returns (decision: Decision)
    ensures decision == Decide(input, edge, news)
  {
    var dependency := if edge.selector.Some? then edge.selector.value else Unknown;
    if !SelectorSetsIntersect(news, {dependency}) {
      return Skip(SelectorDisjoint);
    }
    var selectors := {Unknown};
    var reason := if dependency == Unknown then UnknownSelector else SelectorIntersection;
    if edge.transfer.Some? {
      if edge.transfer.value !in input.transfers {
        reason := MissingTransferFunction;
      } else {
        var transfer := input.transfers[edge.transfer.value](edge, news);
        if transfer.NoImpact? {
          return Skip(TransferRejected);
        }
        selectors := if transfer.selectors.Some? then transfer.selectors.value else {Unknown};
        reason := TransferFunctionApplied;
      }
    }
    if input.resolver.Some? {
      var previous := if edge.target in input.fingerprints then Some(input.fingerprints[edge.target]) else None;
      var next := input.resolver.value(edge.target, edge, selectors, previous);
      if previous == Some(next) {
        return Skip(FingerprintUnchanged);
      }
    }
    decision := Propagate(reason, selectors);
  }

  method AddSkippedNode(skipped: map<VersionId, Skipped>, edge: Edge, reason: Reason)
    returns (next: map<VersionId, Skipped>)
    ensures next == AddSkipped(skipped, edge, reason)
  {
    var via: set<EdgeId>, reasons: set<Reason> := {}, {};
    if edge.target in skipped {
      via, reasons := skipped[edge.target].via, skipped[edge.target].reasons;
    }
    next := skipped[edge.target := Skipped(via + {edge.id}, reasons + {reason})];
  }

  /** The inner loop: one batch of new selectors over the outgoing edges of its source. */
  method VisitBatch(input: Input, walk: Walk, batch: seq<Edge>, news: set<Selector>, generation: nat)
    returns (after: Walk)
    ensures after == VisitAll(input, walk, batch, news, generation)
  {
    hide Decide, AddSkipped;
    var affected: map<VersionId, Node>, skipped: map<VersionId, Skipped> := walk.affected, walk.skipped;
    var queue: seq<VersionId> := walk.queue;
    var reasons, visited := walk.reasons, walk.visited;
    for k := 0 to |batch|
      invariant Walk(affected, skipped, queue, walk.propagated, reasons, visited)
             == VisitAll(input, walk, batch[..k], news, generation)
    {
      var edge := batch[k];
      assert batch[..k + 1][..k] == batch[..k];
      visited := visited + 1;
      var decision := Examine(input, edge, news);
      reasons := reasons + [ReasonEdge(edge.id, edge.source, edge.target, decision.Propagate?, decision.reason)];
      if decision.Skip? {
        skipped := AddSkippedNode(skipped, edge, decision.reason);
        continue;
      }
      var target := if edge.target in affected then affected[edge.target] else Node(generation + 1, {}, {});
      var hasNew := !(decision.selectors <= target.selectors);
      target := target.(generation := Min(target.generation, generation + 1), via := target.via + {edge.id});
      target := target.(selectors := target.selectors + decision.selectors);
      affected := affected[edge.target := target];
      skipped := skipped - {edge.target};
      if hasNew || edge.target !in walk.propagated {
        queue := queue + [edge.target];
      }
    }
    assert batch[..|batch|] == batch;
    after := Walk(affected, skipped, queue, walk.propagated, reasons, visited);
  }

  method ComputeImpact(input: Input, ghost universe: set<Selector>) returns (result: Result)
    requires InUniverse(input, universe)
    ensures result == if input.delta == {} then Invalid else Report(Analysis(input, universe))
    ensures Plain(input) && input.delta != {} ==>
              result.Impact? && forall v :: v in result.affected <==> v == input.source || Dependent(input, v)
  {
    hide InUniverse, Fits, Remaining, Outgoing, VisitAll, Plain, Dependent, Report;
    if input.delta == {} {
      return Invalid;
    }
    var outgoing := GroupBySource(input.edges);
    var walk := Start(input);
    StartFits(input, universe);
    while walk.queue != []
      invariant Fits(input, walk, universe)
      invariant Finish(input, walk, universe) == Analysis(input, universe)
      decreases |Remaining(input, walk, universe)|, |walk.queue|
    {
      DequeueFits(input, walk, universe);
      ghost var next := Dequeue(input, walk);
      var source := walk.queue[0];
      var already := if source in walk.propagated then walk.propagated[source] else {};
      var news := if source in walk.affected then walk.affected[source].selectors - already else {};
      if news == {} {
        walk := walk.(queue := walk.queue[1..]);
      } else {
        var marked := walk.(queue := walk.queue[1..], propagated := walk.propagated[source := already + news]);
        var batch := if source in outgoing then outgoing[source] else [];
        walk := VisitBatch(input, marked, batch, news, walk.affected[source].generation);
      }
      assert walk == next;
    }
    result := Report(walk);
    if Plain(input) {
      DependentsAreAffected(input, universe);
    }
  }
}
