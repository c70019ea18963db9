/**
  Generations. Versions come up in breadth-first order, except that a scoped change that comes back to the
  source pushes it a second time, as unknown. A generation is always the length of a route that an unscoped
  change could take, and never more than that of a route the scoped one takes; without a return it is the
  distance from the source.
 */
module ImpactDistance {
  import opened Tables
  import opened Selectors
  import opened Impact
  import opened ImpactFixpoint
  import opened ImpactCounts
  import opened ImpactRoutes

  // ---------------------------------------------------------------------------- bands

  predicate Waiting(walk: Walk, v: VersionId) {
    v in walk.affected && NewSelectors(walk, v) != {}
  }

  /**
    The breadth-first level at which a version was last put in the queue with something new; no generation
    exceeds it.
   */
  type Bands = map<VersionId, nat>

  function Band(bands: Bands, v: VersionId): nat {
    if v in bands then bands[v] else 0
  }

  predicate Before(walk: Walk, bands: Bands, u: VersionId, w: VersionId) {
    Waiting(walk, u) && Waiting(walk, w) && Band(bands, u) < Band(bands, w)
  }

  /** Of two waiting versions, the one of the lower band comes up first. */
  ghost predicate InOrder(walk: Walk, bands: Bands) {
    forall j, u ::
      0 <= j < |walk.queue| && Before(walk, bands, u, walk.queue[j]) ==> u in walk.queue[..j]
  }

  /** Everything is within one of `level`, and everything waiting is at `level` or one beyond. */
  ghost predicate Near(walk: Walk, bands: Bands, level: nat) {
    && (forall v :: v in walk.affected ==> walk.affected[v].generation <= Band(bands, v) <= level + 1)
    && (forall v :: Waiting(walk, v) ==> v in walk.queue && level <= Band(bands, v))
    && (forall v :: v in walk.propagated ==> v in walk.affected)
  }

  ghost predicate Level(walk: Walk, bands: Bands, level: nat) {
    Near(walk, bands, level) && InOrder(walk, bands)
  }

  function NextBands(walk: Walk, after: Walk, bands: Bands, x: VersionId, level: nat): Bands {
    if Waiting(after, x) && !Waiting(walk, x) then bands[x := level + 1] else bands
  }

  /** A visit can only make its target wait. */
  lemma VisitWaits(walk: Walk, edge: Edge, decision: Decision, generation: nat)
    requires decision.Propagate? ==> decision.selectors == {Unknown}
    requires forall v :: v in walk.propagated ==> v in walk.affected
    ensures var after := Visit(walk, edge, decision, generation);
            && after.propagated == walk.propagated
            && (after.queue == walk.queue || after.queue == walk.queue + [edge.target])
            && (forall v :: v in walk.affected ==> v in after.affected)
            && (decision.Propagate? ==> edge.target in after.affected)
            && (forall v :: v in after.affected && v != edge.target ==>
                  v in walk.affected && after.affected[v] == walk.affected[v])
            && (forall v :: v != edge.target ==> Waiting(after, v) == Waiting(walk, v))
            && (Waiting(walk, edge.target) ==> Waiting(after, edge.target))
            && (Waiting(after, edge.target) ==> edge.target in after.queue || Waiting(walk, edge.target))
            && (edge.target in after.affected && edge.target !in walk.affected ==> Waiting(after, edge.target))
            && (edge.target in walk.affected ==>
                  after.affected[edge.target].generation <= walk.affected[edge.target].generation)
            && (decision.Propagate? ==> after.affected[edge.target].generation <= generation + 1)
            && (!decision.Propagate? ==>
                  after.affected == walk.affected && Waiting(after, edge.target) == Waiting(walk, edge.target))
  {
  }

  lemma VisitNear(walk: Walk, bands: Bands, edge: Edge, decision: Decision, generation: nat, level: nat)
    requires Near(walk, bands, level) && generation <= level
    requires decision.Propagate? ==> decision.selectors == {Unknown}
    ensures var after := Visit(walk, edge, decision, generation);
            Near(after, NextBands(walk, after, bands, edge.target, level), level)
  {
    hide Visit, NewSelectors;
    VisitWaits(walk, edge, decision, generation);
  }

  lemma VisitInOrder(walk: Walk, bands: Bands, edge: Edge, decision: Decision, generation: nat, level: nat)
    requires Level(walk, bands, level) && generation <= level
    requires decision.Propagate? ==> decision.selectors == {Unknown}
    requires var after := Visit(walk, edge, decision, generation);
             Waiting(after, edge.target) && !Waiting(walk, edge.target) ==> edge.target !in walk.queue
    ensures var after := Visit(walk, edge, decision, generation);
            InOrder(after, NextBands(walk, after, bands, edge.target, level))
  {
    hide Visit, NewSelectors;
    VisitWaits(walk, edge, decision, generation);
    VisitNear(walk, bands, edge, decision, generation, level);
    var after := Visit(walk, edge, decision, generation);
    var later := NextBands(walk, after, bands, edge.target, level);
    forall j, u | 0 <= j < |after.queue| && Before(after, later, u, after.queue[j]) ensures u in after.queue[..j] {
      assert Waiting(walk, u) && u in walk.queue;
      if j < |walk.queue| {
        assert after.queue[j] == walk.queue[j] && after.queue[..j] == walk.queue[..j];
        assert Before(walk, bands, u, walk.queue[j]);
      } else {
        assert after.queue[..j] == walk.queue;
      }
    }
  }

  // ----------------------------------------------------------------------- one batch

  /** No entry of the source waits in the queue for it to come back. */
  ghost predicate NoStale(input: Input, walk: Walk) {
    && (forall k :: 0 <= k < |walk.queue| ==> walk.queue[k] in walk.affected)
    && (input.source in walk.propagated && Unknown !in SelectorsOf(walk, input.source) ==>
          input.source !in walk.queue)
  }

  /** Only a version not yet affected, or the source, starts to wait, and then it is not in the queue. */
  lemma NewcomerNotQueued(input: Input, walk: Walk, edge: Edge, decision: Decision, generation: nat)
    requires OnlyUnknown(input, walk) && NoStale(input, walk) && input.source in walk.propagated
    requires decision.Propagate? ==> decision.selectors == {Unknown}
    ensures var after := Visit(walk, edge, decision, generation);
            && NoStale(input, after)
            && (Waiting(after, edge.target) && !Waiting(walk, edge.target) ==>
                  edge.target !in walk.queue && (edge.target !in walk.affected || edge.target == input.source))
  {
    hide Back;
  }

  /** Bands of the versions affected so far stay, except that of the source. */
  ghost predicate Stable(input: Input, walk: Walk, bands: Bands, later: Bands) {
    forall v :: v in walk.affected && v != input.source ==> Band(later, v) == Band(bands, v)
  }

  lemma {:induction false} BatchBands(
    input: Input, walk: Walk, bands: Bands, batch: seq<Edge>, news: set<Selector>, generation: nat, level: nat)
    returns (later: Bands)
    requires Plain(input) && OnlyUnknown(input, walk) && NoStale(input, walk) && input.source in walk.propagated
    requires Level(walk, bands, level) && generation <= level
    ensures var after := VisitAll(input, walk, batch, news, generation);
            && Level(after, later, level) && NoStale(input, after) && OnlyUnknown(input, after)
            && Stable(input, walk, bands, later)
            && after.propagated == walk.propagated
            && (forall v :: v in walk.affected ==>
                  v in after.affected && after.affected[v].generation <= walk.affected[v].generation)
            && (forall e :: e in batch && Decide(input, e, news).Propagate? ==> e.target in after.affected)
  {
    hide Decide, Near, InOrder, OnlyUnknown, NoStale, Waiting, Visit;
    later := bands;
    if batch != [] {
      var init, edge := batch[..|batch| - 1], batch[|batch| - 1];
      var before := BatchBands(input, walk, bands, init, news, generation, level);
      var mid := VisitAll(input, walk, init, news, generation);
      var decision := Decide(input, edge, news);
      NoTransfersCarryUnknown(input, edge, news);
      VisitOnlyUnknown(input, mid, edge, decision, generation);
      NewcomerNotQueued(input, mid, edge, decision, generation);
      PropagatedAffected(mid, before, level);
      VisitWaits(mid, edge, decision, generation);
      VisitNear(mid, before, edge, decision, generation, level);
      VisitInOrder(mid, before, edge, decision, generation, level);
      later := NextBands(mid, Visit(mid, edge, decision, generation), before, edge.target, level);
    }
  }

  lemma PropagatedAffected(walk: Walk, bands: Bands, level: nat)
    requires Near(walk, bands, level)
    ensures forall v :: v in walk.propagated ==> v in walk.affected
  {
  }

  // ------------------------------------------------------------------------- one round

  lemma PopInOrder(walk: Walk, after: Walk, bands: Bands)
    requires walk.queue != [] && InOrder(walk, bands) && after.queue == walk.queue[1..]
    requires forall u :: Waiting(after, u) ==> Waiting(walk, u) && u != walk.queue[0]
    ensures InOrder(after, bands)
  {
    hide Waiting;
    forall j, u | 0 <= j < |after.queue| && Before(after, bands, u, after.queue[j]) ensures u in after.queue[..j] {
      assert after.queue[j] == walk.queue[j + 1] && Before(walk, bands, u, walk.queue[j + 1]);
      assert walk.queue[..j + 1] == [walk.queue[0]] + after.queue[..j];
    }
  }

  lemma MarkedWaits(walk: Walk, v: VersionId, u: VersionId)
    ensures Waiting(Marked(walk, v), u) <==> Waiting(walk, u) && u != v
  {
    assert NewSelectors(Marked(walk, v), v) == {};
  }

  /** The head of the queue, when it is waiting, is of the lowest band. */
  lemma HeadIsNearest(walk: Walk, bands: Bands, level: nat)
    requires Level(walk, bands, level) && walk.queue != [] && Waiting(walk, walk.queue[0])
    ensures var v := walk.queue[0];
            level <= Band(bands, v) && Level(Marked(walk, v), bands, Band(bands, v))
  {
    hide NewSelectors;
    var v := walk.queue[0];
    var marked := Marked(walk, v);
    assert walk.queue == [v] + marked.queue;
    forall u ensures Waiting(marked, u) <==> Waiting(walk, u) && u != v {
      MarkedWaits(walk, v, u);
    }
    forall u | Waiting(marked, u) ensures Band(bands, v) <= Band(bands, u) && u in marked.queue {
      if Before(walk, bands, u, v) {
        assert false;
      }
    }
    PopInOrder(walk, marked, bands);
  }

  lemma PopKnown(walk: Walk, bands: Bands, level: nat)
    requires Level(walk, bands, level) && walk.queue != [] && !Waiting(walk, walk.queue[0])
    ensures Level(walk.(queue := walk.queue[1..]), bands, level)
  {
    hide NewSelectors;
    var after := walk.(queue := walk.queue[1..]);
    assert walk.queue == [walk.queue[0]] + after.queue;
    forall u ensures Waiting(after, u) <==> Waiting(walk, u) {
      SameNews(walk, after, u);
    }
    PopInOrder(walk, after, bands);
  }

  lemma SameNews(walk: Walk, after: Walk, v: VersionId)
    requires after.affected == walk.affected && after.propagated == walk.propagated
    ensures NewSelectors(after, v) == NewSelectors(walk, v)
  {
  }

  /** Along a carrying edge bands rise by at most one; the source counts as the first level. */
  ghost predicate Bounded(input: Input, walk: Walk, bands: Bands) {
    && input.source in walk.affected && walk.affected[input.source].generation == 0
    && (input.source !in walk.propagated ==> Band(bands, input.source) == 0)
    && (forall e :: Carries(input, e) && e.source in walk.propagated ==> Within(input, walk, bands, e))
  }

  predicate Within(input: Input, walk: Walk, bands: Bands, e: Edge) {
    && e.target in walk.affected
    && (e.target != input.source ==>
          Band(bands, e.target) <= (if e.source == input.source then 0 else Band(bands, e.source)) + 1)
  }

  lemma BoundedAfter(input: Input, walk: Walk, bands: Bands, after: Walk, later: Bands, v: VersionId)
    requires Bounded(input, walk, bands) && v in walk.affected
    requires input.source in after.propagated && after.propagated == Marked(walk, v).propagated
    requires forall u :: u in walk.propagated ==> u in walk.affected
    requires Stable(input, walk, bands, later) && Near(after, later, Band(bands, v))
    requires forall u :: u in walk.affected ==>
               u in after.affected && after.affected[u].generation <= walk.affected[u].generation
    requires v in walk.propagated ==> v == input.source
    requires v !in walk.propagated ==>
               forall e :: Carries(input, e) && e.source == v ==> e.target in after.affected
    ensures Bounded(input, after, later)
  {
    hide Carries;
    forall e | Carries(input, e) && e.source in after.propagated ensures Within(input, after, later, e) {
      if e.source in walk.propagated {
        assert Within(input, walk, bands, e);
      }
    }
  }

  lemma CarriedIsDecided(input: Input, e: Edge, news: set<Selector>)
    requires Plain(input) && Carries(input, e)
    requires news == if e.source == input.source then input.delta else {Unknown}
    ensures Decide(input, e, news).Propagate?
  {
    PlainDecision(input, e, news);
  }

  /** What keeps versions from being pushed twice. */
  ghost predicate Once(input: Input, walk: Walk) {
    Unknown in input.delta || !Back(walk.reasons, input.source)
  }

  lemma PushedOnce(input: Input, walk: Walk, v: VersionId)
    requires OnlyUnknown(input, walk) && PushInv(input, walk) && Once(input, walk)
    requires v in walk.affected && NewSelectors(walk, v) != {}
    ensures v !in walk.propagated
    ensures NewSelectors(walk, v) == if v == input.source then input.delta else {Unknown}
  {
    hide Back;
    assert Unknown in input.delta ==> input.delta + {Unknown} == input.delta;
    var s :| s in NewSelectors(walk, v);
    if v in walk.propagated {
      assert false;
    }
  }

  lemma PlainDecision(input: Input, e: Edge, news: set<Selector>)
    requires Plain(input) && e in input.edges
    requires news == if e.source == input.source then input.delta else {Unknown}
    ensures Decide(input, e, news).Propagate? <==> Carries(input, e)
  {
    hide SelectorsIntersect, Unchanged;
    if e.source != input.source {
      assert SelectorsIntersect(Unknown, DependencySelector(e)) by {
        UnknownMeets(DependencySelector(e));
      }
    }
  }


  /** The first time a version is pushed, all its selectors are; only the source is pushed again. */
  lemma PushedWhat(input: Input, walk: Walk, v: VersionId)
    requires OnlyUnknown(input, walk) && PushInv(input, walk) && Waiting(walk, v)
    ensures v in walk.propagated ==> v == input.source
    ensures v !in walk.propagated ==> NewSelectors(walk, v) == if v == input.source then input.delta else {Unknown}
  {
    hide Back;
    var s :| s in NewSelectors(walk, v);
  }

  lemma MarkedNoStale(input: Input, walk: Walk)
    requires walk.queue != [] && NoStale(input, walk) && PushInv(input, walk)
    ensures NoStale(input, Marked(walk, walk.queue[0])) && NoStale(input, walk.(queue := walk.queue[1..]))
  {
  }

  lemma DequeueBands(input: Input, walk: Walk, bands: Bands, level: nat) returns (later: Bands, next: nat)
    requires Plain(input) && input.delta != {} && walk.queue != []
    requires OnlyUnknown(input, walk) && PushInv(input, walk) && NoStale(input, walk)
    requires Level(walk, bands, level) && Bounded(input, walk, bands)
    ensures var after := Dequeue(input, walk);
            Level(after, later, next) && Bounded(input, after, later) && NoStale(input, after)
  {
    hide Outgoing, Level, Bounded, OnlyUnknown, PushInv, NoStale, Carries, Marked, NewSelectors, VisitAll;
    var v := walk.queue[0];
    var news := NewSelectors(walk, v);
    later, next := bands, level;
    MarkedNoStale(input, walk);
    if !Waiting(walk, v) {
      PopKnown(walk, bands, level);
      BoundedSame(input, walk, walk.(queue := walk.queue[1..]), bands);
      return;
    }
    PushedWhat(input, walk, v);
    HeadIsNearest(walk, bands, level);
    next := Band(bands, v);
    MarkedOnlyUnknown(input, walk, v);
    PushMarked(input, walk);
    var batch := Outgoing(input.edges, v);
    NearLevel(walk, bands, level);
    later := BatchBands(input, Marked(walk, v), bands, batch, news, walk.affected[v].generation, next);
    OutgoingMembers(input.edges, v);
    if v !in walk.propagated {
      forall e | Carries(input, e) && e.source == v ensures e in batch && Decide(input, e, news).Propagate? {
        CarriedIsDecided(input, e, news);
        CarriedIsEdge(input, e);
      }
    }
    AfterBatch(input, walk, bands, Dequeue(input, walk), later, v, level);
  }

  lemma CarriedIsEdge(input: Input, e: Edge)
    requires Carries(input, e)
    ensures e in input.edges
  {
  }

  lemma NearLevel(walk: Walk, bands: Bands, level: nat)
    requires Level(walk, bands, level)
    ensures forall v :: v in walk.affected ==> walk.affected[v].generation <= Band(bands, v)
    ensures forall v :: v in walk.propagated ==> v in walk.affected
  {
  }

  lemma AfterBatch(input: Input, walk: Walk, bands: Bands, after: Walk, later: Bands, v: VersionId, level: nat)
    requires Bounded(input, walk, bands) && Level(walk, bands, level) && v in walk.affected
    requires Level(after, later, Band(bands, v)) && after.propagated == Marked(walk, v).propagated
    requires input.source in after.propagated && Stable(input, Marked(walk, v), bands, later)
    requires forall u :: u in Marked(walk, v).affected ==>
               u in after.affected && after.affected[u].generation <= Marked(walk, v).affected[u].generation
    requires v in walk.propagated ==> v == input.source
    requires v !in walk.propagated ==>
               forall e :: Carries(input, e) && e.source == v ==> e.target in after.affected
    ensures Bounded(input, after, later)
  {
    hide Carries, InOrder, Bounded;
    BoundedAfter(input, walk, bands, after, later, v);
  }

  lemma BoundedSame(input: Input, walk: Walk, after: Walk, bands: Bands)
    requires Bounded(input, walk, bands) && after.affected == walk.affected && after.propagated == walk.propagated
    ensures Bounded(input, after, bands)
  {
    hide Carries;
    forall e | Carries(input, e) && e.source in after.propagated ensures Within(input, after, bands, e) {
      assert Within(input, walk, bands, e);
    }
  }

  // ------------------------------------------------------------- lengths of actual routes

  /** Each generation is the length of a route to its version. */
  ghost predicate Realised(via: Input, walk: Walk) {
    forall v :: v in walk.affected ==> ReachIn(via, v, walk.affected[v].generation)
  }

  lemma {:induction false} BatchRealised(
    input: Input, via: Input, walk: Walk, batch: seq<Edge>, news: set<Selector>, generation: nat, v: VersionId)
    requires Realised(via, walk) && ReachIn(via, v, generation)
    requires forall e :: e in batch ==> e.source == v && (Decide(input, e, news).Propagate? ==> Carries(via, e))
    ensures Realised(via, VisitAll(input, walk, batch, news, generation))
  {
    hide Decide, Carries, ReachIn;
    if batch != [] {
      var init, edge := batch[..|batch| - 1], batch[|batch| - 1];
      BatchRealised(input, via, walk, init, news, generation, v);
      if Decide(input, edge, news).Propagate? {
        Extend(via, edge, generation);
      }
    }
  }

  lemma DequeueRealised(input: Input, via: Input, walk: Walk)
    requires Realised(via, walk) && walk.queue != []
    requires var v := walk.queue[0];
             Waiting(walk, v) ==>
               forall e :: e in input.edges && e.source == v && Decide(input, e, NewSelectors(walk, v)).Propagate? ==>
                 Carries(via, e)
    ensures Realised(via, Dequeue(input, walk))
  {
    hide Decide, Carries, ReachIn, Outgoing;
    var v := walk.queue[0];
    if Waiting(walk, v) {
      OutgoingMembers(input.edges, v);
      BatchRealised(input, via, Marked(walk, v), Outgoing(input.edges, v), NewSelectors(walk, v),
                    walk.affected[v].generation, v);
    }
  }

  /** Whatever is pushed could also be carried if the change were unscoped. */
  lemma PropagatedOpens(input: Input, e: Edge, news: set<Selector>)
    requires Plain(input) && e in input.edges && Decide(input, e, news).Propagate?
    ensures Carries(Opened(input), e)
  {
    hide SelectorsIntersect;
    UnknownMeets(DependencySelector(e));
    assert Unknown in Opened(input).delta && DependencySelector(e) in {DependencySelector(e)};
    assert Unchanged(Opened(input), e, {Unknown}) == Unchanged(input, e, {Unknown});
  }

  /** Pushed once, a version's selectors pass only what carries the scoped change. */
  lemma PropagatedOnce(input: Input, walk: Walk, e: Edge)
    requires Plain(input) && e in input.edges && Waiting(walk, e.source)
    requires OnlyUnknown(input, walk) && PushInv(input, walk) && Once(input, walk)
    requires Decide(input, e, NewSelectors(walk, e.source)).Propagate?
    ensures Carries(input, e)
  {
    hide OnlyUnknown, PushInv, Once, Decide, Carries, NewSelectors;
    PushedOnce(input, walk, e.source);
    PlainDecision(input, e, NewSelectors(walk, e.source));
  }

  // ---------------------------------------------------------------------- whole analyses

  lemma {:induction false} BatchReasons(
    input: Input, walk: Walk, batch: seq<Edge>, news: set<Selector>, generation: nat)
    ensures walk.reasons <= VisitAll(input, walk, batch, news, generation).reasons
  {
    hide Decide;
    if batch != [] {
      BatchReasons(input, walk, batch[..|batch| - 1], news, generation);
    }
  }

  lemma {:induction false} ReasonsGrow(input: Input, walk: Walk, universe: set<Selector>)
    requires InUniverse(input, universe) && Fits(input, walk, universe)
    ensures walk.reasons <= Finish(input, walk, universe).reasons
    decreases |Remaining(input, walk, universe)|, |walk.queue|
  {
    hide InUniverse, Fits, Remaining, VisitAll, Outgoing;
    if walk.queue != [] {
      DequeueFits(input, walk, universe);
      var v := walk.queue[0];
      if v in walk.affected && NewSelectors(walk, v) != {} {
        BatchReasons(input, Marked(walk, v), Outgoing(input.edges, v), NewSelectors(walk, v),
                     walk.affected[v].generation);
      }
      ReasonsGrow(input, Dequeue(input, walk), universe);
    }
  }

  lemma OnceEarlier(input: Input, walk: Walk, universe: set<Selector>)
    requires InUniverse(input, universe) && Fits(input, walk, universe)
    requires Once(input, Finish(input, walk, universe))
    ensures Once(input, walk)
  {
    hide InUniverse, Fits, Finish;
    ReasonsGrow(input, walk, universe);
    var last := Finish(input, walk, universe);
    if Back(walk.reasons, input.source) {
      var k :| 0 <= k < |walk.reasons| && walk.reasons[k].affected && walk.reasons[k].target == input.source;
      assert last.reasons[k] == walk.reasons[k];
    }
  }

  lemma {:induction false} FinishRealised(input: Input, via: Input, walk: Walk, universe: set<Selector>)
    requires InUniverse(input, universe) && Fits(input, walk, universe)
    requires Plain(input) && input.delta != {}
    requires via == Opened(input) || (via == input && Once(input, Finish(input, walk, universe)))
    requires OnlyUnknown(input, walk) && PushInv(input, walk) && CountInv(input, walk) && Realised(via, walk)
    ensures Realised(via, Finish(input, walk, universe))
    decreases |Remaining(input, walk, universe)|, |walk.queue|
  {
    hide InUniverse, Fits, OnlyUnknown, PushInv, CountInv, Remaining, Dequeue, Realised, Once, Carries, Decide,
         Opened, Waiting;
    if walk.queue != [] {
      DequeueFits(input, walk, universe);
      DequeueCounts(input, walk);
      DequeuePush(input, walk, universe);
      var v := walk.queue[0];
      forall e | e in input.edges && e.source == v && Waiting(walk, v)
                 && Decide(input, e, NewSelectors(walk, v)).Propagate?
        ensures Carries(via, e)
      {
        if via == Opened(input) {
          PropagatedOpens(input, e, NewSelectors(walk, v));
        } else {
          OnceEarlier(input, walk, universe);
          PropagatedOnce(input, walk, e);
        }
      }
      DequeueRealised(input, via, walk);
      FinishRealised(input, via, Dequeue(input, walk), universe);
    }
  }

  lemma {:induction false} FinishBands(input: Input, walk: Walk, bands: Bands, level: nat, universe: set<Selector>)
    returns (last: Bands, top: nat)
    requires InUniverse(input, universe) && Fits(input, walk, universe)
    requires Plain(input) && input.delta != {}
    requires OnlyUnknown(input, walk) && PushInv(input, walk) && CountInv(input, walk) && NoStale(input, walk)
    requires Level(walk, bands, level) && Bounded(input, walk, bands)
    ensures Level(Finish(input, walk, universe), last, top) && Bounded(input, Finish(input, walk, universe), last)
    decreases |Remaining(input, walk, universe)|, |walk.queue|
  {
    hide InUniverse, Fits, OnlyUnknown, PushInv, CountInv, NoStale, Remaining, Dequeue, Level, Bounded;
    last, top := bands, level;
    if walk.queue != [] {
      DequeueFits(input, walk, universe);
      DequeueCounts(input, walk);
      DequeuePush(input, walk, universe);
      var later, next := DequeueBands(input, walk, bands, level);
      last, top := FinishBands(input, Dequeue(input, walk), later, next, universe);
    }
  }

  /** Any route ends at an affected version, whose generation is no larger than its length. */
  lemma {:induction false} NoShorterRoute(input: Input, walk: Walk, bands: Bands, level: nat, route: seq<Edge>)
    requires Near(walk, bands, level) && Bounded(input, walk, bands) && Route(input, route)
    requires forall v :: v in walk.affected ==> v in walk.propagated
    ensures EndOf(input, route) in walk.affected && walk.affected[EndOf(input, route)].generation <= |route|
    ensures EndOf(input, route) != input.source ==> Band(bands, EndOf(input, route)) <= |route|
  {
    hide Carries, Waiting;
    if route != [] {
      NoShorterRoute(input, walk, bands, level, route[..|route| - 1]);
      assert Within(input, walk, bands, route[|route| - 1]);
    }
  }

  lemma StartInvariants(input: Input, universe: set<Selector>)
    requires InUniverse(input, universe) && input.delta != {}
    ensures var start := Start(input);
            && Fits(input, start, universe)
            && OnlyUnknown(input, start) && PushInv(input, start) && CountInv(input, start) && NoStale(input, start)
            && Level(start, map[], 0) && Bounded(input, start, map[])
  {
    hide CountLeaving, Leaving, Carries, InUniverse;
    StartFits(input, universe);
    CountNone(input.edges);
    assert Start(input).propagated.Keys == {};
  }

  lemma StartRealised(input: Input, via: Input)
    requires via.source == input.source
    ensures Realised(via, Start(input))
  {
    assert Route(via, []) && EndOf(via, []) == input.source;
    assert ReachIn(via, input.source, 0);
  }

  // -------------------------------------------------------------------------- theorems

  ghost predicate Distance(input: Input, v: VersionId, n: nat) {
    && ReachIn(input, v, n)
    && forall route :: Route(input, route) && EndOf(input, route) == v ==> n <= |route|
  }

  lemma AllPushed(input: Input, universe: set<Selector>)
    requires InUniverse(input, universe) && Plain(input) && input.delta != {}
    ensures var walk := Analysis(input, universe); forall v :: v in walk.affected ==> v in walk.propagated
  {
    hide InUniverse, Finish, CountLeaving, Leaving, NoStale, Level, Bounded;
    StartInvariants(input, universe);
    FinishCounts(input, Start(input), universe);
    AnalysisQueued(input, universe);
    var walk := Analysis(input, universe);
    EveryNodeHasSelectors(input, walk);
    PushedIsAffected(input, walk, universe);
  }

  /**
    Without transfer functions, on every graph: each generation is the length of some route that the unscoped
    change could take, and at most the length of any route that the scoped change takes.
   */
  lemma GenerationBounds(input: Input)
    requires Plain(input) && input.delta != {}
    ensures InUniverse(input, input.delta + {Unknown})
    ensures var walk := Analysis(input, input.delta + {Unknown});
            && (forall v :: v in walk.affected ==> ReachIn(Opened(input), v, walk.affected[v].generation))
            && (forall route :: Route(input, route) ==>
                  EndOf(input, route) in walk.affected && walk.affected[EndOf(input, route)].generation <= |route|)
  {
    hide InUniverse, Fits, Finish, Once, OnlyUnknown, PushInv, CountInv, NoStale, Bounded, InOrder, Near, Start;
    var universe := input.delta + {Unknown};
    PlainUniverse(input);
    StartInvariants(input, universe);
    StartRealised(input, Opened(input));
    FinishRealised(input, Opened(input), Start(input), universe);
    AllPushed(input, universe);
    var bands, level := FinishBands(input, Start(input), map[], 0, universe);
    forall route | Route(input, route)
      ensures EndOf(input, route) in Analysis(input, universe).affected
      ensures Analysis(input, universe).affected[EndOf(input, route)].generation <= |route|
    {
      NoShorterRoute(input, Analysis(input, universe), bands, level, route);
    }
  }

  /** So a generation is exact wherever the two shortest lengths agree. */
  lemma ExactWhereRoutesAgree(input: Input, v: VersionId, n: nat)
    requires Plain(input) && input.delta != {}
    requires Distance(input, v, n) && Distance(Opened(input), v, n)
    ensures InUniverse(input, input.delta + {Unknown})
    ensures var walk := Analysis(input, input.delta + {Unknown});
            v in walk.affected && walk.affected[v].generation == n
  {
    hide InUniverse, Analysis, Opened, Route;
    GenerationBounds(input);
    var there :| Route(input, there) && |there| == n && EndOf(input, there) == v;
    var back :| Route(Opened(input), back) && EndOf(Opened(input), back) == v
                && |back| == Analysis(input, input.delta + {Unknown}).affected[v].generation;
  }

  lemma OnceWithoutReturn(input: Input, universe: set<Selector>)
    requires InUniverse(input, universe) && Plain(input) && input.delta != {}
    requires Unknown in input.delta || !Returns(input)
    ensures Once(input, Analysis(input, universe))
  {
    hide InUniverse, Returns, Analysis, Back;
    if Unknown !in input.delta {
      BackIsReturn(input, universe);
    }
  }

  /**
    Without transfer functions: if the delta is unscoped, or no route returns to the source, the affected
    versions are exactly those a route leads to, and each generation is the length of a shortest route.
   */
  lemma GenerationIsDistance(input: Input)
    requires Plain(input) && input.delta != {}
    requires Unknown in input.delta || !Returns(input)
    ensures InUniverse(input, input.delta + {Unknown})
    ensures var walk := Analysis(input, input.delta + {Unknown});
            && (forall v :: v in walk.affected ==> Distance(input, v, walk.affected[v].generation))
            && (forall v, n :: ReachIn(input, v, n) ==> v in walk.affected)
  {
    hide InUniverse, Fits, Finish, Once, Returns, OnlyUnknown, PushInv, CountInv, NoStale, Bounded, Level, Start,
         Opened;
    var universe := input.delta + {Unknown};
    PlainUniverse(input);
    StartInvariants(input, universe);
    StartRealised(input, input);
    OnceWithoutReturn(input, universe);
    FinishRealised(input, input, Start(input), universe);
    GenerationBounds(input);
  }

  /** On an acyclic graph generations are distances, and every edge leaving an affected version is visited once. */
  lemma AcyclicIsExact(input: Input)
    requires Plain(input) && input.delta != {} && Acyclic(input.edges)
    ensures InUniverse(input, input.delta + {Unknown})
    ensures var r := Report(Analysis(input, input.delta + {Unknown}));
            && r.Impact?
            && (forall v :: v in r.affected ==> Distance(input, v, r.affected[v].generation))
            && (forall v, n :: ReachIn(input, v, n) ==> v in r.affected)
            && r.visited == CountLeaving(input.edges, r.affected.Keys)
  {
    hide InUniverse, Analysis, Returns, Acyclic, Distance, ReachIn, CountLeaving, Leaving;
    PlainUniverse(input);
    AcyclicNeverReturns(input);
    GenerationIsDistance(input);
    VisitedExactly(input, input.delta + {Unknown});
  }

  // ------------------------------------------------------------------ what is affected

  /** Once the change is back at its source it goes wherever the unscoped one would. */
  lemma {:induction false} OpenedRoutesSpread(input: Input, route: seq<Edge>, pairs: Pairs)
    requires Plain(input) && Closed(input, pairs) && (input.source, Unknown) in pairs
    requires Route(Opened(input), route)
    ensures (EndOf(Opened(input), route), Unknown) in pairs
  {
    hide SelectorsIntersect, Carried, DependencySelector;
    if route != [] {
      var e := route[|route| - 1];
      OpenedRoutesSpread(input, route[..|route| - 1], pairs);
      UnknownMeets(DependencySelector(e));
      CarriedByOne(input, e, Unknown);
      assert Unchanged(Opened(input), e, {Unknown}) == Unchanged(input, e, {Unknown});
      assert Unknown in Carried(input, e, {Unknown});
    }
  }

  /**
    The affected versions are those a route of the change leads to, or, once a scoped change comes back to its
    source, those a route of the unscoped change leads to.
   */
  lemma AffectedExactly(input: Input)
    requires Plain(input) && input.delta != {}
    ensures InUniverse(input, input.delta + {Unknown})
    ensures var walk := Analysis(input, input.delta + {Unknown});
            var reach := if Unknown !in input.delta && Returns(input) then Opened(input) else input;
            forall v :: v in walk.affected <==> exists n :: ReachIn(reach, v, n)
  {
    hide InUniverse, Analysis, Returns, Opened, Route, Closed, Distance;
    PlainUniverse(input);
    var walk := Analysis(input, input.delta + {Unknown});
    if Unknown in input.delta || !Returns(input) {
      GenerationIsDistance(input);
      forall v | v in walk.affected ensures exists n :: ReachIn(input, v, n) {
        DistanceReaches(input, v, walk.affected[v].generation);
      }
    } else {
      GenerationBounds(input);
      PlainImpactIsLeast(input);
      LeastReturns(input, PairsOf(walk));
      forall v, n | ReachIn(Opened(input), v, n) ensures v in walk.affected {
        var route :| Route(Opened(input), route) && |route| == n && EndOf(Opened(input), route) == v;
        OpenedRoutesSpread(input, route, PairsOf(walk));
      }
    }
  }

  lemma DistanceReaches(input: Input, v: VersionId, n: nat)
    requires Distance(input, v, n)
    ensures ReachIn(input, v, n)
  {
  }

  /** A scoped change affects nothing that the unscoped one does not, and nothing sooner. */
  lemma ScopedNeverSooner(input: Input)
    requires Plain(input) && input.delta != {}
    ensures InUniverse(input, input.delta + {Unknown})
    ensures InUniverse(Opened(input), Opened(input).delta + {Unknown})
    ensures var scoped := Analysis(input, input.delta + {Unknown}).affected;
            var unscoped := Analysis(Opened(input), Opened(input).delta + {Unknown}).affected;
            forall v :: v in scoped ==> v in unscoped && unscoped[v].generation <= scoped[v].generation
  {
    hide InUniverse, Analysis, Route;
    GenerationBounds(input);
    GenerationBounds(Opened(input));
    var scoped := Analysis(input, input.delta + {Unknown}).affected;
    var unscoped := Analysis(Opened(input), Opened(input).delta + {Unknown}).affected;
    forall v | v in scoped ensures v in unscoped && unscoped[v].generation <= scoped[v].generation {
      var route :| Route(Opened(input), route) && |route| == scoped[v].generation && EndOf(Opened(input), route) == v;
    }
  }
}
