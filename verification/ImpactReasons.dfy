/**
  What the report of an analysis means: the reason given for every edge looked at, and how the nodes sum up
  the reasons (packages/lineage/src/impact.ts:129-333).
 */
module ImpactReasons {
  import opened Tables
  import opened Selectors
  import opened Impact
  import opened ImpactFixpoint
  import opened ImpactChains

  // ------------------------------------------------------------------- one reason at a time

  predicate Named(input: Input, edge: Edge) {
    edge.transfer.Some? && edge.transfer.value in input.transfers
  }

  ghost predicate SomeDepend(edge: Edge, news: set<Selector>) {
    exists s :: s in news && DependsOn(edge, s)
  }

  /** Which reason is right for an edge, given the selectors that are new at its source. */
  ghost predicate Right(input: Input, edge: Edge, news: set<Selector>, reason: Reason) {
    match reason
    case SelectorDisjoint => !SomeDepend(edge, news)
    case TransferRejected =>
      SomeDepend(edge, news) && Named(input, edge) && Becomes(input, edge, news) == None
    case FingerprintUnchanged =>
      && SomeDepend(edge, news)
      && Becomes(input, edge, news).Some? && !Stirs(input, edge, Becomes(input, edge, news).value)
    case _ =>
      && SomeDepend(edge, news)
      && Becomes(input, edge, news).Some? && Stirs(input, edge, Becomes(input, edge, news).value)
      && (reason == TransferFunctionApplied <==> Named(input, edge))
      && (reason == MissingTransferFunction <==> edge.transfer.Some? && !Named(input, edge))
      && (reason == UnknownSelector <==> edge.transfer.None? && (edge.selector.None? || edge.selector == Some(Unknown)))
      && (reason == SelectorIntersection <==>
            edge.transfer.None? && edge.selector.Some? && edge.selector != Some(Unknown))
  }

  predicate Affects(reason: Reason) {
    reason in {SelectorIntersection, UnknownSelector, TransferFunctionApplied, MissingTransferFunction}
  }

  lemma SomeDependIsIntersect(edge: Edge, news: set<Selector>)
    ensures SelectorSetsIntersect(news, {DependencySelector(edge)}) <==> SomeDepend(edge, news)
  {
    hide SelectorsIntersect, DependsOn, DependencySelector;
    if SelectorSetsIntersect(news, {DependencySelector(edge)}) {
      var s :| s in news && SelectorsIntersect(s, DependencySelector(edge));
      assert SelectorSetsIntersect({s}, {DependencySelector(edge)});
      DependsIsIntersects(edge, s);
    }
    if s :| s in news && DependsOn(edge, s) {
      DependsIsIntersects(edge, s);
      assert SelectorsIntersect(s, DependencySelector(edge));
    }
  }

  lemma DecisionIsRight(input: Input, edge: Edge, news: set<Selector>)
    ensures var decision := Decide(input, edge, news);
            && Right(input, edge, news, decision.reason) && (decision.Propagate? <==> Affects(decision.reason))
            && (decision.Propagate? ==> Becomes(input, edge, news) == Some(decision.selectors))
  {
    hide SelectorSetsIntersect, SomeDepend;
    SomeDependIsIntersect(edge, news);
  }

  // ------------------------------------------------------------------------- all the reasons

  /** The entry is about a real edge; some selectors that its source ends up with make its reason the right one. */
  ghost predicate Warranted(input: Input, walk: Walk, entry: ReasonEdge) {
    exists e, news ::
      && e in input.edges && news != {} && news <= SelectorsOf(walk, e.source)
      && entry == ReasonEdge(e.id, e.source, e.target, Affects(entry.reason), entry.reason)
      && Right(input, e, news, entry.reason)
      && (entry.affected ==>
            Becomes(input, e, news).Some? && Becomes(input, e, news).value <= SelectorsOf(walk, e.target))
  }

  /** The edges by which a version is, or is not, affected. */
  function Via(reasons: seq<ReasonEdge>, v: VersionId, affected: bool): set<EdgeId> {
    set r | r in reasons && r.target == v && r.affected == affected :: r.edgeId
  }

  function Codes(reasons: seq<ReasonEdge>, v: VersionId): set<Reason> {
    set r | r in reasons && r.target == v :: r.reason
  }

  ghost predicate SumsUp(walk: Walk) {
    && walk.visited == |walk.reasons|
    && (forall v :: v in walk.affected ==> walk.affected[v].via == Via(walk.reasons, v, true))
    && (forall v :: v !in walk.affected ==>
          && Via(walk.reasons, v, true) == {}
          && (v in walk.skipped <==> Codes(walk.reasons, v) != {})
          && (v in walk.skipped ==>
                && walk.skipped[v].via == Via(walk.reasons, v, false)
                && walk.skipped[v].reasons == Codes(walk.reasons, v)))
  }

  ghost predicate ReportInv(input: Input, walk: Walk) {
    && SumsUp(walk)
    && forall k :: 0 <= k < |walk.reasons| ==> Warranted(input, walk, walk.reasons[k])
  }

  lemma OneMore(reasons: seq<ReasonEdge>, entry: ReasonEdge, v: VersionId)
    ensures Via(reasons + [entry], v, true)
         == Via(reasons, v, true) + if entry.target == v && entry.affected then {entry.edgeId} else {}
    ensures Via(reasons + [entry], v, false)
         == Via(reasons, v, false) + if entry.target == v && !entry.affected then {entry.edgeId} else {}
    ensures Codes(reasons + [entry], v)
         == Codes(reasons, v) + if entry.target == v then {entry.reason} else {}
  {
  }

  lemma NoCodes(reasons: seq<ReasonEdge>, v: VersionId)
    ensures Codes(reasons, v) == {} ==> Via(reasons, v, true) == {} && Via(reasons, v, false) == {}
  {
    if r :| r in reasons && r.target == v {
      assert r.reason in Codes(reasons, v);
    }
  }

  lemma VisitSumsUp(walk: Walk, edge: Edge, decision: Decision, generation: nat)
    requires SumsUp(walk)
    ensures SumsUp(Visit(walk, edge, decision, generation))
  {
    hide Via, Codes;
    var after := Visit(walk, edge, decision, generation);
    var entry := ReasonEdge(edge.id, edge.source, edge.target, decision.Propagate?, decision.reason);
    assert after.reasons == walk.reasons + [entry];
    forall v
      ensures v in after.affected ==> after.affected[v].via == Via(after.reasons, v, true)
      ensures v !in after.affected ==>
                && Via(after.reasons, v, true) == {}
                && (v in after.skipped <==> Codes(after.reasons, v) != {})
                && (v in after.skipped ==>
                      && after.skipped[v].via == Via(after.reasons, v, false)
                      && after.skipped[v].reasons == Codes(after.reasons, v))
    {
      OneMore(walk.reasons, entry, v);
      NoCodes(walk.reasons, v);
    }
  }

  lemma WarrantedLater(input: Input, walk: Walk, after: Walk, entry: ReasonEdge)
    requires Warranted(input, walk, entry) && forall w :: SelectorsOf(walk, w) <= SelectorsOf(after, w)
    ensures Warranted(input, after, entry)
  {
    hide Right, SelectorsOf;
    var e, news :|
      && e in input.edges && news != {} && news <= SelectorsOf(walk, e.source)
      && entry == ReasonEdge(e.id, e.source, e.target, Affects(entry.reason), entry.reason)
      && Right(input, e, news, entry.reason)
      && (entry.affected ==>
            Becomes(input, e, news).Some? && Becomes(input, e, news).value <= SelectorsOf(walk, e.target));
    assert news <= SelectorsOf(after, e.source);
  }

  lemma VisitReports(input: Input, walk: Walk, edge: Edge, news: set<Selector>, generation: nat)
    requires ReportInv(input, walk) && edge in input.edges && news != {} && news <= SelectorsOf(walk, edge.source)
    ensures ReportInv(input, Visit(walk, edge, Decide(input, edge, news), generation))
    ensures news <= SelectorsOf(Visit(walk, edge, Decide(input, edge, news), generation), edge.source)
  {
    hide Right, SumsUp, Decide, SelectorsOf, Becomes;
    var decision := Decide(input, edge, news);
    var after := Visit(walk, edge, decision, generation);
    VisitSumsUp(walk, edge, decision, generation);
    VisitTargets(walk, edge, decision, generation);
    DecisionIsRight(input, edge, news);
    var entry := ReasonEdge(edge.id, edge.source, edge.target, decision.Propagate?, decision.reason);
    assert after.reasons == walk.reasons + [entry];
    assert Warranted(input, after, entry);
    forall k | 0 <= k < |after.reasons| ensures Warranted(input, after, after.reasons[k]) {
      if k < |walk.reasons| {
        WarrantedLater(input, walk, after, walk.reasons[k]);
      }
    }
  }

  lemma {:induction false} BatchReports(
    input: Input, walk: Walk, batch: seq<Edge>, news: set<Selector>, generation: nat, v: VersionId)
    requires ReportInv(input, walk) && news != {} && news <= SelectorsOf(walk, v)
    requires forall e :: e in batch ==> e in input.edges && e.source == v
    ensures ReportInv(input, VisitAll(input, walk, batch, news, generation))
    ensures news <= SelectorsOf(VisitAll(input, walk, batch, news, generation), v)
  {
    hide Decide, ReportInv, Visit, SelectorsOf;
    if batch != [] {
      var init, edge := batch[..|batch| - 1], batch[|batch| - 1];
      BatchReports(input, walk, init, news, generation, v);
      VisitReports(input, VisitAll(input, walk, init, news, generation), edge, news, generation);
    }
  }

  lemma MarkedReports(input: Input, walk: Walk, v: VersionId)
    requires ReportInv(input, walk)
    ensures ReportInv(input, Marked(walk, v))
    ensures SelectorsOf(Marked(walk, v), v) == SelectorsOf(walk, v)
  {
    hide Right;
    forall k | 0 <= k < |walk.reasons| ensures Warranted(input, Marked(walk, v), walk.reasons[k]) {
      WarrantedLater(input, walk, Marked(walk, v), walk.reasons[k]);
    }
  }

  lemma {:induction false} FinishReports(input: Input, walk: Walk, universe: set<Selector>)
    requires InUniverse(input, universe) && Fits(input, walk, universe) && ReportInv(input, walk)
    ensures ReportInv(input, Finish(input, walk, universe))
    decreases |Remaining(input, walk, universe)|, |walk.queue|
  {
    hide InUniverse, Fits, Remaining, VisitAll, Outgoing, ReportInv;
    if walk.queue != [] {
      DequeueFits(input, walk, universe);
      var v := walk.queue[0];
      if v in walk.affected && NewSelectors(walk, v) != {} {
        OutgoingMembers(input.edges, v);
        MarkedReports(input, walk, v);
        BatchReports(input, Marked(walk, v), Outgoing(input.edges, v), NewSelectors(walk, v),
                     walk.affected[v].generation, v);
      } else {
        SameReports(input, walk, walk.(queue := walk.queue[1..]));
      }
      FinishReports(input, Dequeue(input, walk), universe);
    }
  }

  lemma SameReports(input: Input, walk: Walk, after: Walk)
    requires ReportInv(input, walk) && after == walk.(queue := after.queue)
    ensures ReportInv(input, after)
  {
    hide Right;
    forall k | 0 <= k < |walk.reasons| ensures Warranted(input, after, walk.reasons[k]) {
      WarrantedLater(input, walk, after, walk.reasons[k]);
    }
  }

  /**
    In the report of any analysis every edge looked at has the right reason, every affected version lists exactly
    the edges that affect it, and every skipped one exactly its edges and their reasons.
   */
  lemma ReportIsRight(input: Input, universe: set<Selector>)
    requires InUniverse(input, universe) && Report(Analysis(input, universe)).Impact?
    ensures var walk, r := Analysis(input, universe), Report(Analysis(input, universe));
            && r.visited == |r.reasons|
            && (forall k :: 0 <= k < |r.reasons| ==> Warranted(input, walk, r.reasons[k]))
            && (forall v :: v in r.affected ==> r.affected[v].via == Via(r.reasons, v, true))
            && (forall v :: v in r.skipped ==>
                  && Via(r.reasons, v, true) == {}
                  && r.skipped[v] == Skipped(Via(r.reasons, v, false), Codes(r.reasons, v)))
  {
    hide InUniverse, Finish, Warranted, Via, Codes;
    StartFits(input, universe);
    NothingReported(input);
    FinishReports(input, Start(input), universe);
  }

  lemma NothingReported(input: Input)
    ensures ReportInv(input, Start(input))
  {
  }
}
