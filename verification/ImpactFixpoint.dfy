/**
  What impact analysis computes: the least set of (version, selector) pairs that contains the delta
  at the source and is closed under the edges.
 */
module ImpactFixpoint {
  import opened Selectors
  import opened Impact

  type Pairs = iset<(VersionId, Selector)>

  /** The selectors one batch carries over an edge; none when the edge is skipped. */
  function Carried(input: Input, edge: Edge, news: set<Selector>): set<Selector> {
    match Decide(input, edge, news)
    case Propagate(_, selectors) => selectors
    case Skip(_) => {}
  }

  /** A batch carries exactly what its members carry one by one. */
  ghost predicate SelectorWise(input: Input) {
    forall e, news, x :: e in input.edges ==>
      (x in Carried(input, e, news) <==> exists s :: s in news && x in Carried(input, e, {s}))
  }

  ghost predicate Closed(input: Input, pairs: Pairs) {
    && (forall s :: s in input.delta ==> (input.source, s) in pairs)
    && (forall e, s, x :: e in input.edges && (e.source, s) in pairs && x in Carried(input, e, {s}) ==>
          (e.target, x) in pairs)
  }

  ghost function PairsOf(walk: Walk): Pairs {
    iset v, s | v in walk.affected && s in walk.affected[v].selectors :: (v, s)
  }

  lemma PlainIsSelectorWise(input: Input)
    requires Plain(input)
    ensures SelectorWise(input)
  {
    hide SelectorsIntersect, DependencySelector, Unchanged;
    forall e, news, x | e in input.edges
      ensures x in Carried(input, e, news) <==> exists s :: s in news && x in Carried(input, e, {s})
    {
      if s :| s in news && SelectorsIntersect(s, DependencySelector(e)) {
        assert SelectorSetsIntersect({s}, {DependencySelector(e)});
        assert Carried(input, e, {s}) == Carried(input, e, news);
      }
    }
  }

  // ------------------------------------------------------------------------- one round

  /** Everything with selectors still to push is in the queue. */
  predicate Queued(walk: Walk) {
    forall v :: v in walk.affected && !(walk.affected[v].selectors <= Propagated(walk, v)) ==> v in walk.queue
  }

  lemma VisitQueued(walk: Walk, edge: Edge, decision: Decision, generation: nat)
    requires Queued(walk)
    ensures Queued(Visit(walk, edge, decision, generation))
  {
  }

  lemma VisitWithin(walk: Walk, edge: Edge, decision: Decision, generation: nat, pairs: Pairs)
    requires PairsOf(walk) <= pairs
    requires decision.Propagate? ==> forall x :: x in decision.selectors ==> (edge.target, x) in pairs
    ensures PairsOf(Visit(walk, edge, decision, generation)) <= pairs
  {
  }

  lemma {:induction false} BatchProgress(
    input: Input, walk: Walk, batch: seq<Edge>, news: set<Selector>, generation: nat)
    requires Queued(walk)
    ensures var after := VisitAll(input, walk, batch, news, generation);
            && Queued(after)
            && after.propagated == walk.propagated
            && (forall w :: SelectorsOf(walk, w) <= SelectorsOf(after, w))
            && (forall e :: e in batch ==> Carried(input, e, news) <= SelectorsOf(after, e.target))
  {
    hide Decide, SelectorsOf, Queued;
    if batch != [] {
      var init, edge := batch[..|batch| - 1], batch[|batch| - 1];
      BatchProgress(input, walk, init, news, generation);
      var mid := VisitAll(input, walk, init, news, generation);
      VisitQueued(mid, edge, Decide(input, edge, news), generation);
      VisitTargets(mid, edge, Decide(input, edge, news), generation);
    }
  }

  lemma VisitTargets(walk: Walk, edge: Edge, decision: Decision, generation: nat)
    ensures var after := Visit(walk, edge, decision, generation);
            && after.propagated == walk.propagated
            && (forall w :: SelectorsOf(walk, w) <= SelectorsOf(after, w))
            && (decision.Propagate? ==> decision.selectors <= SelectorsOf(after, edge.target))
  {
  }

  lemma {:induction false} BatchWithin(
    input: Input, walk: Walk, batch: seq<Edge>, news: set<Selector>, generation: nat, v: VersionId, pairs: Pairs)
    requires SelectorWise(input) && Closed(input, pairs) && PairsOf(walk) <= pairs
    requires forall s :: s in news ==> (v, s) in pairs
    requires forall e :: e in batch ==> e in input.edges && e.source == v
    ensures PairsOf(VisitAll(input, walk, batch, news, generation)) <= pairs
  {
    hide Decide, PairsOf;
    if batch != [] {
      var init, edge := batch[..|batch| - 1], batch[|batch| - 1];
      BatchWithin(input, walk, init, news, generation, v, pairs);
      forall x | x in Carried(input, edge, news) ensures (edge.target, x) in pairs {
        var s :| s in news && x in Carried(input, edge, {s});
      }
      VisitWithin(VisitAll(input, walk, init, news, generation), edge, Decide(input, edge, news), generation, pairs);
    }
  }

  // ----------------------------------------------------------------------- the invariant

  predicate Pushed(input: Input, walk: Walk) {
    forall e, s, x ::
      e in input.edges && s in Propagated(walk, e.source) && x in Carried(input, e, {s}) ==>
        x in SelectorsOf(walk, e.target)
  }

  ghost predicate ImpactInv(input: Input, walk: Walk) {
    && input.delta <= SelectorsOf(walk, input.source)
    && Queued(walk)
    && Pushed(input, walk)
  }

  lemma DequeueKeeps(input: Input, walk: Walk)
    requires SelectorWise(input) && ImpactInv(input, walk) && walk.queue != []
    ensures ImpactInv(input, Dequeue(input, walk))
  {
    hide SelectorWise, Carried, Outgoing;
    var v := walk.queue[0];
    var news := NewSelectors(walk, v);
    if v in walk.affected && news != {} {
      var marked := Marked(walk, v);
      QueuedMarked(walk);
      OutgoingMembers(input.edges, v);
      BatchProgress(input, marked, Outgoing(input.edges, v), news, walk.affected[v].generation);
      PushedAfter(input, walk, v, Dequeue(input, walk));
    } else {
      assert news == {};
      QueuedMarked(walk);
      PushedSame(input, walk, Dequeue(input, walk));
    }
  }

  lemma PushedSame(input: Input, walk: Walk, after: Walk)
    requires Pushed(input, walk) && after.propagated == walk.propagated && after.affected == walk.affected
    ensures Pushed(input, after)
  {
    hide Carried;
    forall e, s, x | e in input.edges && s in Propagated(after, e.source) && x in Carried(input, e, {s})
      ensures x in SelectorsOf(after, e.target)
    {
      assert s in Propagated(walk, e.source) && x in SelectorsOf(walk, e.target);
    }
  }

  lemma QueuedMarked(walk: Walk)
    requires Queued(walk) && walk.queue != []
    ensures NewSelectors(walk, walk.queue[0]) == {} ==> Queued(walk.(queue := walk.queue[1..]))
    ensures Queued(Marked(walk, walk.queue[0]))
  {
    var v := walk.queue[0];
    assert walk.queue == [v] + walk.queue[1..];
    NothingNew(walk, v);
  }

  lemma NothingNew(walk: Walk, v: VersionId)
    ensures NewSelectors(walk, v) == {} <==> SelectorsOf(walk, v) <= Propagated(walk, v)
  {
    if NewSelectors(walk, v) == {} {
      forall s | s in SelectorsOf(walk, v) ensures s in Propagated(walk, v) {
        assert s !in NewSelectors(walk, v);
      }
    }
  }

  lemma PushedAfter(input: Input, walk: Walk, v: VersionId, after: Walk)
    requires SelectorWise(input) && Pushed(input, walk)
    requires after.propagated == Marked(walk, v).propagated
    requires forall w :: SelectorsOf(walk, w) <= SelectorsOf(after, w)
    requires forall e :: e in input.edges && e.source == v ==>
               Carried(input, e, NewSelectors(walk, v)) <= SelectorsOf(after, e.target)
    ensures Pushed(input, after)
  {
    hide Carried, SelectorsOf;
    forall e, s, x | e in input.edges && s in Propagated(after, e.source) && x in Carried(input, e, {s})
      ensures x in SelectorsOf(after, e.target)
    {
      if e.source == v && s in NewSelectors(walk, v) {
        assert x in Carried(input, e, NewSelectors(walk, v));
      } else {
        assert s in Propagated(walk, e.source);
      }
    }
  }

  lemma DequeueWithin(input: Input, walk: Walk, pairs: Pairs)
    requires SelectorWise(input) && Closed(input, pairs) && PairsOf(walk) <= pairs && walk.queue != []
    ensures PairsOf(Dequeue(input, walk)) <= pairs
  {
    hide SelectorWise, Closed, Outgoing;
    var v := walk.queue[0];
    if v in walk.affected && NewSelectors(walk, v) != {} {
      OutgoingMembers(input.edges, v);
      assert PairsOf(Marked(walk, v)) == PairsOf(walk);
      forall s | s in NewSelectors(walk, v) ensures (v, s) in pairs {
        assert (v, s) in PairsOf(walk);
      }
      BatchWithin(input, Marked(walk, v), Outgoing(input.edges, v), NewSelectors(walk, v),
                  walk.affected[v].generation, v, pairs);
    } else {
      assert PairsOf(Dequeue(input, walk)) == PairsOf(walk);
    }
  }

  lemma {:induction false} FinishKeeps(input: Input, walk: Walk, universe: set<Selector>)
    requires InUniverse(input, universe) && Fits(input, walk, universe)
    requires SelectorWise(input) && ImpactInv(input, walk)
    ensures ImpactInv(input, Finish(input, walk, universe))
    decreases |Remaining(input, walk, universe)|, |walk.queue|
  {
    hide InUniverse, Fits, SelectorWise, ImpactInv, Remaining, Dequeue;
    if walk.queue != [] {
      DequeueFits(input, walk, universe);
      DequeueKeeps(input, walk);
      FinishKeeps(input, Dequeue(input, walk), universe);
    }
  }

  lemma {:induction false} FinishWithin(input: Input, walk: Walk, universe: set<Selector>, pairs: Pairs)
    requires InUniverse(input, universe) && Fits(input, walk, universe)
    requires SelectorWise(input) && Closed(input, pairs) && PairsOf(walk) <= pairs
    ensures PairsOf(Finish(input, walk, universe)) <= pairs
    decreases |Remaining(input, walk, universe)|, |walk.queue|
  {
    hide InUniverse, Fits, SelectorWise, Closed, PairsOf, Remaining, Dequeue;
    if walk.queue != [] {
      DequeueFits(input, walk, universe);
      DequeueWithin(input, walk, pairs);
      FinishWithin(input, Dequeue(input, walk), universe, pairs);
    }
  }

  // -------------------------------------------------------------------------- theorems

  ghost predicate LeastClosed(input: Input, pairs: Pairs) {
    Closed(input, pairs) && forall other: Pairs :: Closed(input, other) ==> pairs <= other
  }

  /** The analysis reaches exactly the least closed set of pairs, on cyclic graphs too. */
  lemma ImpactIsLeast(input: Input, universe: set<Selector>)
    requires InUniverse(input, universe) && SelectorWise(input)
    ensures LeastClosed(input, PairsOf(Analysis(input, universe)))
  {
    hide InUniverse, SelectorWise, Finish, Decide;
    StartFits(input, universe);
    assert ImpactInv(input, Start(input));
    FinishKeeps(input, Start(input), universe);
    var walk := Analysis(input, universe);
    EverythingPushed(input, walk);
    forall other: Pairs | Closed(input, other) ensures PairsOf(walk) <= other {
      FinishWithin(input, Start(input), universe, other);
    }
  }

  lemma EverythingPushed(input: Input, walk: Walk)
    requires ImpactInv(input, walk) && walk.queue == []
    ensures Closed(input, PairsOf(walk))
  {
    hide Carried;
    forall e, s, x | e in input.edges && (e.source, s) in PairsOf(walk) && x in Carried(input, e, {s})
      ensures (e.target, x) in PairsOf(walk)
    {
      assert e.source !in walk.queue;
      assert s in Propagated(walk, e.source) && x in SelectorsOf(walk, e.target);
    }
  }

  /** Without transfer functions, as the API calls it, no hypothesis is left. */
  lemma PlainImpactIsLeast(input: Input)
    requires Plain(input)
    ensures InUniverse(input, input.delta + {Unknown})
    ensures LeastClosed(input, PairsOf(Analysis(input, input.delta + {Unknown})))
  {
    PlainUniverse(input);
    PlainIsSelectorWise(input);
    ImpactIsLeast(input, input.delta + {Unknown});
  }
}
