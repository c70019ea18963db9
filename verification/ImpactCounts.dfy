/** Bookkeeping of impact analysis: which versions are mentioned at all, and how much work is done. */
module ImpactCounts {
  import opened Tables
  import opened Selectors
  import opened Impact
  import opened ImpactFixpoint
  import opened ImpactRoutes

  // ------------------------------------------------------------ affected and skipped

  predicate Mentioned(walk: Walk, w: VersionId) {
    w in walk.affected || w in walk.skipped
  }

  predicate TargetOf(batch: seq<Edge>, w: VersionId) {
    exists e :: e in batch && e.target == w
  }

  lemma {:induction false} BatchMentions(
    input: Input, walk: Walk, batch: seq<Edge>, news: set<Selector>, generation: nat, w: VersionId)
    ensures Mentioned(VisitAll(input, walk, batch, news, generation), w)
       <==> Mentioned(walk, w) || TargetOf(batch, w)
    ensures VisitAll(input, walk, batch, news, generation).propagated == walk.propagated
  {
    hide Decide;
    if batch != [] {
      BatchMentions(input, walk, batch[..|batch| - 1], news, generation, w);
      assert batch == batch[..|batch| - 1] + [batch[|batch| - 1]];
    }
  }

  /** A version is mentioned when it is the source or an edge leaving a pushed version leads to it. */
  predicate Reached(input: Input, walk: Walk, w: VersionId) {
    w == input.source || exists e :: e in input.edges && e.source in walk.propagated && e.target == w
  }

  ghost predicate MentionInv(input: Input, walk: Walk) {
    && Queued(walk)
    && forall w :: Mentioned(walk, w) <==> Reached(input, walk, w)
  }

  lemma DequeueMentions(input: Input, walk: Walk)
    requires MentionInv(input, walk) && walk.queue != []
    ensures MentionInv(input, Dequeue(input, walk))
  {
    hide Outgoing, Mentioned, Reached;
    var v := walk.queue[0];
    var news := NewSelectors(walk, v);
    var after := Dequeue(input, walk);
    QueuedMarked(walk);
    if v in walk.affected && news != {} {
      OutgoingMembers(input.edges, v);
      BatchProgress(input, Marked(walk, v), Outgoing(input.edges, v), news, walk.affected[v].generation);
      forall w ensures Mentioned(after, w) <==> Reached(input, after, w) {
        BatchMentions(input, Marked(walk, v), Outgoing(input.edges, v), news, walk.affected[v].generation, w);
        ReachedAfter(input, walk, after, v, w);
      }
    } else {
      assert news == {};
      forall w ensures Mentioned(after, w) <==> Reached(input, after, w) {
        SameMentions(input, walk, after, w);
      }
    }
  }

  lemma SameMentions(input: Input, walk: Walk, after: Walk, w: VersionId)
    requires after == walk.(queue := after.queue)
    ensures Mentioned(after, w) == Mentioned(walk, w) && Reached(input, after, w) == Reached(input, walk, w)
  {
  }

  lemma ReachedAfter(input: Input, walk: Walk, after: Walk, v: VersionId, w: VersionId)
    requires after.propagated == Marked(walk, v).propagated
    requires forall e :: e in Outgoing(input.edges, v) <==> e in input.edges && e.source == v
    ensures Reached(input, after, w) <==> Reached(input, walk, w) || TargetOf(Outgoing(input.edges, v), w)
    ensures Mentioned(Marked(walk, v), w) == Mentioned(walk, w)
  {
    hide Outgoing;
  }

  lemma {:induction false} FinishMentions(input: Input, walk: Walk, universe: set<Selector>)
    requires InUniverse(input, universe) && Fits(input, walk, universe) && MentionInv(input, walk)
    ensures MentionInv(input, Finish(input, walk, universe))
    decreases |Remaining(input, walk, universe)|, |walk.queue|
  {
    hide InUniverse, Fits, MentionInv, Remaining, Dequeue;
    if walk.queue != [] {
      DequeueFits(input, walk, universe);
      DequeueMentions(input, walk);
      FinishMentions(input, Dequeue(input, walk), universe);
    }
  }

  /**
    No version is both affected and skipped, and together they are the source and every version
    that an edge leaving an affected one leads to.
   */
  lemma AffectedAndSkipped(input: Input, universe: set<Selector>)
    requires InUniverse(input, universe) && Report(Analysis(input, universe)).Impact?
    ensures var r := Report(Analysis(input, universe));
            && r.affected.Keys !! r.skipped.Keys
            && forall w :: w in r.affected || w in r.skipped <==>
                 w == input.source || exists e :: e in input.edges && e.source in r.affected && e.target == w
  {
    hide InUniverse, Finish;
    StartFits(input, universe);
    FinishMentions(input, Start(input), universe);
    var walk := Analysis(input, universe);
    PushedIsAffected(input, walk, universe);
    forall w ensures w in walk.affected || w in walk.skipped <==>
                       w == input.source || exists e :: e in input.edges && e.source in walk.affected && e.target == w
    {
      assert Mentioned(walk, w) <==> Reached(input, walk, w);
    }
  }

  lemma PushedIsAffected(input: Input, walk: Walk, universe: set<Selector>)
    requires Fits(input, walk, universe) && Queued(walk) && walk.queue == [] && Report(walk).Impact?
    ensures forall v :: v in walk.propagated <==> v in walk.affected
    ensures forall v :: v in walk.affected ==> walk.propagated[v] == walk.affected[v].selectors
  {
    forall v | v in walk.affected
      ensures v in walk.propagated && walk.propagated[v] == walk.affected[v].selectors
    {
      assert v !in walk.queue;
      assert walk.affected[v].selectors != {};
    }
  }

  // -------------------------------------------------------------------- visited edges

  /** The number of edges leaving any version of a set. */
  function CountLeaving(edges: seq<Edge>, from: set<VersionId>): (n: nat)
    ensures n <= |edges|
  {
    if edges == [] then 0
    else CountLeaving(edges[..|edges| - 1], from) + if edges[|edges| - 1].source in from then 1 else 0
  }

  lemma {:induction false} CountOneMore(edges: seq<Edge>, from: set<VersionId>, v: VersionId)
    requires v !in from
    ensures CountLeaving(edges, from + {v}) == CountLeaving(edges, from) + |Leaving(edges, v)|
  {
    if edges != [] {
      CountOneMore(edges[..|edges| - 1], from, v);
    }
  }

  lemma CountNone(edges: seq<Edge>)
    ensures CountLeaving(edges, {}) == 0
  {
  }

  predicate Back(reasons: seq<ReasonEdge>, v: VersionId) {
    exists k :: 0 <= k < |reasons| && reasons[k].affected && reasons[k].target == v
  }

  /** The source is pushed a second time when the change comes back to it as an unknown selector. */
  predicate PushedTwice(input: Input, walk: Walk) {
    Unknown !in input.delta && Unknown in Propagated(walk, input.source)
  }

  /** Without transfer functions only the unknown selector travels. */
  ghost predicate OnlyUnknown(input: Input, walk: Walk) {
    && input.source in walk.affected
    && (forall v :: v in walk.affected && v != input.source ==> walk.affected[v].selectors == {Unknown})
    && input.delta <= walk.affected[input.source].selectors <= input.delta + {Unknown}
    && (Unknown in walk.affected[input.source].selectors <==> Unknown in input.delta || Back(walk.reasons, input.source))
  }

  ghost predicate PushInv(input: Input, walk: Walk) {
    && (forall v :: v in walk.propagated ==> v in walk.affected && walk.propagated[v] != {}
                                             && walk.propagated[v] <= walk.affected[v].selectors)
    && (input.source in walk.propagated ==> input.delta <= walk.propagated[input.source])
    && (input.source !in walk.propagated ==> walk == Start(input))
  }

  ghost predicate CountInv(input: Input, walk: Walk) {
    walk.visited == CountLeaving(input.edges, walk.propagated.Keys)
                  + if PushedTwice(input, walk) then |Leaving(input.edges, input.source)| else 0
  }

  lemma NoTransfersCarryUnknown(input: Input, edge: Edge, news: set<Selector>)
    requires Plain(input)
    ensures Decide(input, edge, news).Propagate? ==> Decide(input, edge, news).selectors == {Unknown}
  {
    hide SelectorSetsIntersect, Unchanged;
  }

  lemma VisitOnlyUnknown(input: Input, walk: Walk, edge: Edge, decision: Decision, generation: nat)
    requires OnlyUnknown(input, walk) && (decision.Propagate? ==> decision.selectors == {Unknown})
    ensures OnlyUnknown(input, Visit(walk, edge, decision, generation))
  {
    var after := Visit(walk, edge, decision, generation);
    var entry := after.reasons[|walk.reasons|];
    assert after.reasons == walk.reasons + [entry];
    forall v ensures Back(after.reasons, v) <==> Back(walk.reasons, v) || (entry.affected && entry.target == v) {
      if Back(walk.reasons, v) {
        var k :| 0 <= k < |walk.reasons| && walk.reasons[k].affected && walk.reasons[k].target == v;
        assert after.reasons[k] == walk.reasons[k];
      }
    }
  }

  lemma {:induction false} BatchCounts(
    input: Input, walk: Walk, batch: seq<Edge>, news: set<Selector>, generation: nat)
    requires Plain(input) && OnlyUnknown(input, walk)
    ensures var after := VisitAll(input, walk, batch, news, generation);
            && OnlyUnknown(input, after)
            && after.propagated == walk.propagated
            && after.visited == walk.visited + |batch|
            && (forall v :: v in walk.affected ==> v in after.affected)
  {
    hide Decide, OnlyUnknown;
    if batch != [] {
      var init, edge := batch[..|batch| - 1], batch[|batch| - 1];
      BatchCounts(input, walk, init, news, generation);
      NoTransfersCarryUnknown(input, edge, news);
      VisitOnlyUnknown(input, VisitAll(input, walk, init, news, generation), edge, Decide(input, edge, news), generation);
    }
  }

  lemma DequeueCounts(input: Input, walk: Walk)
    requires Plain(input) && input.delta != {} && walk.queue != []
    requires OnlyUnknown(input, walk) && PushInv(input, walk) && CountInv(input, walk)
    ensures OnlyUnknown(input, Dequeue(input, walk))
    ensures CountInv(input, Dequeue(input, walk))
  {
    hide Outgoing, CountLeaving, Leaving, Back;
    var v := walk.queue[0];
    var news := NewSelectors(walk, v);
    if v in walk.affected && news != {} {
      var marked := Marked(walk, v);
      assert OnlyUnknown(input, marked);
      OutgoingMembers(input.edges, v);
      BatchCounts(input, marked, Outgoing(input.edges, v), news, walk.affected[v].generation);
      CountMarked(input, walk, v);
    }
  }

  /** Pushing one more batch adds the out-degree of its source to what has to be counted. */
  lemma CountMarked(input: Input, walk: Walk, v: VersionId)
    requires input.delta != {} && OnlyUnknown(input, walk) && PushInv(input, walk) && CountInv(input, walk)
    requires v in walk.affected && NewSelectors(walk, v) != {}
    ensures walk.visited + |Leaving(input.edges, v)|
         == CountLeaving(input.edges, Marked(walk, v).propagated.Keys)
          + if PushedTwice(input, Marked(walk, v)) then |Leaving(input.edges, input.source)| else 0
  {
    hide CountLeaving, Leaving, Back;
    var marked := Marked(walk, v);
    var s :| s in NewSelectors(walk, v);
    if v in walk.propagated {
      assert v == input.source && s == Unknown by {
        if v != input.source {
          assert false;
        }
      }
      assert marked.propagated.Keys == walk.propagated.Keys;
    } else {
      assert marked.propagated.Keys == walk.propagated.Keys + {v};
      CountOneMore(input.edges, walk.propagated.Keys, v);
    }
  }

  lemma PushMarked(input: Input, walk: Walk)
    requires walk.queue != [] && OnlyUnknown(input, walk) && PushInv(input, walk)
    requires NewSelectors(walk, walk.queue[0]) != {}
    ensures var marked := Marked(walk, walk.queue[0]);
            && (forall v :: v in marked.propagated ==> marked.propagated[v] != {})
            && input.source in marked.propagated && input.delta <= marked.propagated[input.source]
  {
    hide Back;
  }

  lemma DequeuePush(input: Input, walk: Walk, universe: set<Selector>)
    requires InUniverse(input, universe) && Fits(input, walk, universe)
    requires Plain(input) && input.delta != {} && walk.queue != []
    requires OnlyUnknown(input, walk) && PushInv(input, walk)
    ensures PushInv(input, Dequeue(input, walk))
  {
    hide Outgoing, InUniverse, VisitAll, Marked, NewSelectors, OnlyUnknown;
    DequeueFits(input, walk, universe);
    var v := walk.queue[0];
    var news := NewSelectors(walk, v);
    if v in walk.affected && news != {} {
      PushMarked(input, walk);
      MarkedOnlyUnknown(input, walk, v);
      BatchCounts(input, Marked(walk, v), Outgoing(input.edges, v), news, walk.affected[v].generation);
    } else {
      FirstIsNew(input, walk);
    }
  }

  lemma MarkedOnlyUnknown(input: Input, walk: Walk, v: VersionId)
    requires OnlyUnknown(input, walk)
    ensures OnlyUnknown(input, Marked(walk, v))
  {
    hide Back;
  }

  /** While the source has not been pushed it heads the queue, with its delta still new. */
  lemma FirstIsNew(input: Input, walk: Walk)
    requires PushInv(input, walk) && input.delta != {} && walk.queue != []
    requires walk.queue[0] !in walk.affected || NewSelectors(walk, walk.queue[0]) == {}
    ensures input.source in walk.propagated
  {
    if input.source !in walk.propagated {
      assert false;
    }
  }

  lemma {:induction false} FinishCounts(input: Input, walk: Walk, universe: set<Selector>)
    requires InUniverse(input, universe) && Fits(input, walk, universe)
    requires Plain(input) && input.delta != {}
    requires OnlyUnknown(input, walk) && PushInv(input, walk) && CountInv(input, walk)
    ensures var after := Finish(input, walk, universe);
            OnlyUnknown(input, after) && PushInv(input, after) && CountInv(input, after)
    decreases |Remaining(input, walk, universe)|, |walk.queue|
  {
    hide InUniverse, Fits, OnlyUnknown, PushInv, CountInv, Remaining, Dequeue;
    if walk.queue != [] {
      DequeueFits(input, walk, universe);
      DequeueCounts(input, walk);
      DequeuePush(input, walk, universe);
      FinishCounts(input, Dequeue(input, walk), universe);
    }
  }

  /** The reason graph leads back to the source exactly when a route of the input does. */
  lemma BackIsReturn(input: Input, universe: set<Selector>)
    requires InUniverse(input, universe) && Plain(input) && input.delta != {} && Unknown !in input.delta
    ensures Back(Analysis(input, universe).reasons, input.source) <==> Returns(input)
  {
    hide InUniverse, Finish, Closed, Returns, CountLeaving, Leaving;
    StartFits(input, universe);
    CountNone(input.edges);
    assert Start(input).propagated.Keys == {};
    FinishCounts(input, Start(input), universe);
    PlainIsSelectorWise(input);
    ImpactIsLeast(input, universe);
    LeastReturns(input, PairsOf(Analysis(input, universe)));
  }

  /**
    Without transfer functions the analysis always succeeds and looks at every edge leaving an
    affected version once, and at the edges leaving the source a second time exactly when the delta
    is scoped and a route carries the change back to the source.
   */
  lemma VisitedExactly(input: Input, universe: set<Selector>)
    requires InUniverse(input, universe) && Plain(input) && input.delta != {}
    ensures var r := Report(Analysis(input, universe));
            && r.Impact?
            && r.visited == CountLeaving(input.edges, r.affected.Keys)
                          + (if Unknown !in input.delta && Returns(input)
                             then |Leaving(input.edges, input.source)| else 0)
            && r.visited <= |input.edges| + |Leaving(input.edges, input.source)|
  {
    hide Returns;
    VisitedByReasons(input, universe);
    if Unknown !in input.delta {
      BackIsReturn(input, universe);
    }
  }

  lemma VisitedByReasons(input: Input, universe: set<Selector>)
    requires InUniverse(input, universe) && Plain(input) && input.delta != {}
    ensures var r := Report(Analysis(input, universe));
            && r.Impact?
            && r.visited == CountLeaving(input.edges, r.affected.Keys)
                          + (if Unknown !in input.delta && Back(r.reasons, input.source)
                             then |Leaving(input.edges, input.source)| else 0)
  {
    hide InUniverse, Finish, CountLeaving, Leaving;
    StartFits(input, universe);
    CountNone(input.edges);
    assert Start(input).propagated.Keys == {};
    FinishCounts(input, Start(input), universe);
    AnalysisQueued(input, universe);
    var walk := Analysis(input, universe);
    EveryNodeHasSelectors(input, walk);
    PushedIsAffected(input, walk, universe);
    assert walk.propagated.Keys == walk.affected.Keys;
  }

  lemma EveryNodeHasSelectors(input: Input, walk: Walk)
    requires OnlyUnknown(input, walk) && input.delta != {}
    ensures Report(walk).Impact?
  {
    forall v | v in walk.affected ensures walk.affected[v].selectors != {} {
      if v == input.source {
        var s :| s in input.delta;
        assert s in walk.affected[v].selectors;
      }
    }
  }

  lemma AnalysisQueued(input: Input, universe: set<Selector>)
    requires InUniverse(input, universe)
    ensures Queued(Analysis(input, universe))
  {
    hide InUniverse, Finish;
    StartFits(input, universe);
    FinishMentions(input, Start(input), universe);
  }
}
