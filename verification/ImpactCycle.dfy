/**
  Why the theorem of module ImpactDistance speaks of the way back to the source. On a cycle through the
  source a scoped delta comes back as an unknown selector and opens an edge it could not pass before; the
  version behind that edge moves nearer, but what was reached through it keeps its old generation.
 */
module ImpactCycle {
  import opened Tables
  import opened Selectors
  import opened Impact
  import opened ImpactRoutes

  const OUT := Edge(0, 0, 1, None, None)
  const ON := Edge(1, 1, 2, None, None)
  const END := Edge(2, 2, 3, None, None)
  const BACK := Edge(3, 1, 0, None, None)
  const SHORTCUT := Edge(4, 0, 2, Some(Symbol("b")), None)

  const GRAPH := Input(0, {Symbol("a")}, [OUT, ON, END, BACK, SHORTCUT], map[], map[], None)

  lemma LeavingOne(edges: seq<Edge>, e: Edge, v: VersionId)
    ensures Leaving(edges + [e], v) == if e.source == v then Leaving(edges, v) + [e] else Leaving(edges, v)
  {
    assert (edges + [e])[..|edges|] == edges;
  }

  lemma LeavingGraph(v: VersionId)
    ensures Leaving(GRAPH.edges, v) ==
              (if v == 0 then [OUT, SHORTCUT] else if v == 1 then [ON, BACK] else if v == 2 then [END] else [])
  {
    hide Leaving;
    Nothing(v);
    LeavingOne([], OUT, v);
    LeavingOne([] + [OUT], ON, v);
    LeavingOne([] + [OUT] + [ON], END, v);
    LeavingOne([] + [OUT] + [ON] + [END], BACK, v);
    LeavingOne([] + [OUT] + [ON] + [END] + [BACK], SHORTCUT, v);
    assert GRAPH.edges == [] + [OUT] + [ON] + [END] + [BACK] + [SHORTCUT];
  }

  lemma Nothing(v: VersionId)
    ensures Leaving([], v) == []
  {
  }

  lemma SortedPair(a: Edge, b: Edge)
    requires a.id < b.id
    ensures SortById([a, b]) == [a, b] && SortById([a]) == [a] && SortById([]) == []
  {
    assert [a][..0] == [] && SortById([a]) == Insert(a, SortById([]));
    assert [a, b][..1] == [a] && SortById([a, b]) == Insert(b, [a]);
  }

  lemma OutgoingGraph(v: VersionId)
    ensures Outgoing(GRAPH.edges, v) ==
              (if v == 0 then [OUT, SHORTCUT] else if v == 1 then [ON, BACK] else if v == 2 then [END] else [])
  {
    hide SortById;
    LeavingGraph(v);
    SortedPair(OUT, SHORTCUT);
    SortedPair(ON, BACK);
    SortedPair(END, BACK);
  }

  /** Unscoped edges carry everything; the shortcut carries only what may touch its selector. */
  lemma Decisions(news: set<Selector>)
    requires news == {Symbol("a")} || news == {Unknown}
    ensures forall e :: e in GRAPH.edges && e != SHORTCUT ==> Decide(GRAPH, e, news) == Propagate(UnknownSelector, {Unknown})
    ensures Decide(GRAPH, SHORTCUT, news)
         == if news == {Unknown} then Propagate(SelectorIntersection, {Unknown}) else Skip(SelectorDisjoint)
  {
    var s := if news == {Unknown} then Unknown else Symbol("a");
    assert s in news;
    assert SelectorsIntersect(s, Unknown);
    assert "a" != "b" && "a" != "*" && "b" != "*" by {
      assert "a"[0] != "b"[0] && "a"[0] != "*"[0] && "b"[0] != "*"[0];
    }
  }

  lemma VisitTwo(walk: Walk, a: Edge, b: Edge, news: set<Selector>, g: nat)
    ensures VisitAll(GRAPH, walk, [a, b], news, g)
         == Visit(Visit(walk, a, Decide(GRAPH, a, news), g), b, Decide(GRAPH, b, news), g)
  {
    hide Visit, Decide;
    VisitOne(walk, a, news, g);
    assert [a, b][..1] == [a];
  }

  lemma VisitOne(walk: Walk, a: Edge, news: set<Selector>, g: nat)
    ensures VisitAll(GRAPH, walk, [a], news, g) == Visit(walk, a, Decide(GRAPH, a, news), g)
  {
    hide Visit, Decide;
    assert [a][..0] == [] && VisitAll(GRAPH, walk, [], news, g) == walk;
  }

  predicate At(walk: Walk, v: VersionId, generation: nat, selectors: set<Selector>, propagated: set<Selector>) {
    && v in walk.affected && walk.affected[v].generation == generation && walk.affected[v].selectors == selectors
    && Propagated(walk, v) == propagated && (v in walk.propagated <==> propagated != {})
  }

  predicate Passed(walk: Walk, e: Edge) {
    exists k :: 0 <= k < |walk.reasons| && walk.reasons[k].affected
                && walk.reasons[k].source == e.source && walk.reasons[k].target == e.target
  }

  lemma Round1(w: Walk)
    requires w == Start(GRAPH)
    ensures var t := Dequeue(GRAPH, w);
            && t.queue == [1] && At(t, 0, 0, {Symbol("a")}, {Symbol("a")}) && At(t, 1, 1, {Unknown}, {})
            && 2 !in t.affected && 3 !in t.affected
  {
    hide Decide, Outgoing, VisitAll;
    assert NewSelectors(w, 0) == {Symbol("a")};
    OutgoingGraph(0);
    Decisions({Symbol("a")});
    VisitTwo(Marked(w, 0), OUT, SHORTCUT, {Symbol("a")}, 0);
  }

  /** The change comes back to the source as an unknown selector. */
  lemma Round2(w: Walk)
    requires w.queue == [1] && At(w, 0, 0, {Symbol("a")}, {Symbol("a")}) && At(w, 1, 1, {Unknown}, {})
    requires 2 !in w.affected && 3 !in w.affected && 2 !in w.propagated && 3 !in w.propagated
    ensures var t := Dequeue(GRAPH, w);
            && t.queue == [2, 0] && At(t, 0, 0, {Symbol("a"), Unknown}, {Symbol("a")}) && At(t, 1, 1, {Unknown}, {Unknown})
            && At(t, 2, 2, {Unknown}, {}) && 3 !in t.affected && 3 !in t.propagated
  {
    hide Decide, Outgoing, VisitAll;
    assert NewSelectors(w, 1) == {Unknown};
    OutgoingGraph(1);
    Decisions({Unknown});
    VisitTwo(Marked(w, 1), ON, BACK, {Unknown}, 1);
  }

  lemma Round3(w: Walk)
    requires w.queue == [2, 0] && At(w, 0, 0, {Symbol("a"), Unknown}, {Symbol("a")}) && At(w, 1, 1, {Unknown}, {Unknown})
    requires At(w, 2, 2, {Unknown}, {}) && 3 !in w.affected && 3 !in w.propagated
    ensures var t := Dequeue(GRAPH, w);
            && t.queue == [0, 3] && At(t, 0, 0, {Symbol("a"), Unknown}, {Symbol("a")}) && At(t, 1, 1, {Unknown}, {Unknown})
            && At(t, 2, 2, {Unknown}, {Unknown}) && At(t, 3, 3, {Unknown}, {}) && Passed(t, END)
  {
    hide Decide, Outgoing, VisitAll;
    assert NewSelectors(w, 2) == {Unknown};
    OutgoingGraph(2);
    Decisions({Unknown});
    VisitOne(Marked(w, 2), END, {Unknown}, 2);
    var t := Dequeue(GRAPH, w);
    assert t.reasons[|w.reasons|].target == 3;
  }

  /** The shortcut opens: version 2 moves to generation 1, version 3 stays where it is. */
  lemma Round4(w: Walk)
    requires w.queue == [0, 3] && At(w, 0, 0, {Symbol("a"), Unknown}, {Symbol("a")}) && At(w, 1, 1, {Unknown}, {Unknown})
    requires At(w, 2, 2, {Unknown}, {Unknown}) && At(w, 3, 3, {Unknown}, {}) && Passed(w, END)
    ensures var t := Dequeue(GRAPH, w);
            && t.queue == [3] && At(t, 2, 1, {Unknown}, {Unknown}) && At(t, 3, 3, {Unknown}, {})
            && Passed(t, END) && Passed(t, SHORTCUT)
  {
    hide Decide, Outgoing, VisitAll;
    assert NewSelectors(w, 0) == {Unknown};
    OutgoingGraph(0);
    Decisions({Unknown});
    VisitTwo(Marked(w, 0), OUT, SHORTCUT, {Unknown}, 0);
    var t := Dequeue(GRAPH, w);
    assert t.reasons[|w.reasons| + 1].target == 2;
    var k :| 0 <= k < |w.reasons| && w.reasons[k].affected && w.reasons[k].source == 2 && w.reasons[k].target == 3;
    assert t.reasons[k] == w.reasons[k];
  }

  lemma Round5(w: Walk)
    requires w.queue == [3] && At(w, 2, 1, {Unknown}, {Unknown}) && At(w, 3, 3, {Unknown}, {})
    ensures var t := Dequeue(GRAPH, w);
            && t.queue == [] && t.affected == w.affected && t.reasons == w.reasons
  {
    hide Decide, Outgoing;
    assert NewSelectors(w, 3) == {Unknown};
    OutgoingGraph(3);
  }

  lemma GraphCarries()
    ensures Carries(GRAPH, OUT) && Carries(GRAPH, BACK)
  {
    assert Symbol("a") in GRAPH.delta && DependencySelector(OUT) == Unknown;
    UnknownMeets(Symbol("a"));
  }

  lemma GraphReturns()
    ensures Returns(GRAPH)
  {
    hide Carries;
    GraphCarries();
    ExtendRoute(GRAPH, [], OUT);
    ExtendRoute(GRAPH, [] + [OUT], BACK);
  }

  /** Two affected edges lead from the source to version 3, and yet its generation is 3. */
  lemma GenerationIsNotDistance()
    ensures Plain(GRAPH) && Returns(GRAPH)
    ensures InUniverse(GRAPH, GRAPH.delta + {Unknown})
    ensures var walk := Analysis(GRAPH, GRAPH.delta + {Unknown});
            && 2 in walk.affected && walk.affected[2].generation == 1
            && 3 in walk.affected && walk.affected[3].generation == 3
            && Passed(walk, SHORTCUT) && Passed(walk, END)
            && SHORTCUT.source == GRAPH.source && SHORTCUT.target == END.source && END.target == 3
  {
    hide Dequeue, InUniverse, Remaining, Fits, Passed, Returns;
    GraphReturns();
    var universe := GRAPH.delta + {Unknown};
    PlainUniverse(GRAPH);
    StartFits(GRAPH, universe);
    var w0 := Start(GRAPH);
    Round1(w0);
    NotPropagated(w0);
    var w1 := Dequeue(GRAPH, w0);
    DequeueFits(GRAPH, w0, universe);
    Round2(w1);
    var w2 := Dequeue(GRAPH, w1);
    DequeueFits(GRAPH, w1, universe);
    Round3(w2);
    var w3 := Dequeue(GRAPH, w2);
    DequeueFits(GRAPH, w2, universe);
    Round4(w3);
    var w4 := Dequeue(GRAPH, w3);
    DequeueFits(GRAPH, w3, universe);
    Round5(w4);
    DequeueFits(GRAPH, w4, universe);
    assert Finish(GRAPH, w3, universe) == Finish(GRAPH, w4, universe) == Dequeue(GRAPH, w4);
    assert Finish(GRAPH, w1, universe) == Finish(GRAPH, w2, universe) == Finish(GRAPH, w3, universe);
    PassedSame(w4, Dequeue(GRAPH, w4));
  }

  lemma NotPropagated(w: Walk)
    requires w == Start(GRAPH)
    ensures 2 !in Dequeue(GRAPH, w).propagated && 3 !in Dequeue(GRAPH, w).propagated
  {
    hide Decide, Outgoing;
    OutgoingGraph(0);
    assert NewSelectors(w, 0) == {Symbol("a")};
    KeepsPropagated(Marked(w, 0), Outgoing(GRAPH.edges, 0), {Symbol("a")}, 0);
  }

  lemma {:induction false} KeepsPropagated(walk: Walk, batch: seq<Edge>, news: set<Selector>, g: nat)
    ensures VisitAll(GRAPH, walk, batch, news, g).propagated == walk.propagated
  {
    hide Decide;
    if batch != [] {
      KeepsPropagated(walk, batch[..|batch| - 1], news, g);
    }
  }

  lemma PassedSame(w: Walk, t: Walk)
    requires t.reasons == w.reasons
    ensures forall e :: Passed(w, e) <==> Passed(t, e)
  {
  }
}
