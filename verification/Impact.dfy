/**
  Impact analysis (packages/lineage/src/impact.ts): a worklist that pushes a change through the
  lineage graph, batch by batch of new selectors. This module is the algorithm as a function of its
  state; `ImpactWorklist` is the loop itself, and the theorems about the result follow in
  `ImpactFixpoint`, `ImpactCounts`, `ImpactDistance` and `ImpactOrder`.

  Selector lists are sorted by canonical text wherever they are stored, so they are modelled as
  sets; version and edge identifiers are numbers whose order stands for the locale order.
 */
module Impact {
  import opened Tables
  import opened Selectors

  type VersionId = nat
  type EdgeId = nat
  type TransferName = nat
  type Fingerprint = nat

  datatype Edge = Edge(
    id: EdgeId, source: VersionId, target: VersionId, selector: Option<Selector>, transfer: Option<TransferName>)

  datatype Transfer = NoImpact | Impacts(selectors: Option<set<Selector>>)

  type TransferFunction = (Edge, set<Selector>) -> Transfer
  type Resolver = (VersionId, Edge, set<Selector>, Option<Fingerprint>) -> Fingerprint

  datatype Input = Input(
    source: VersionId,
    delta: set<Selector>,
    edges: seq<Edge>,
    transfers: map<TransferName, TransferFunction>,
    fingerprints: map<VersionId, Fingerprint>,
    resolver: Option<Resolver>)

  datatype Reason =
    | SelectorIntersection
    | UnknownSelector
    | TransferFunctionApplied
    | MissingTransferFunction
    | SelectorDisjoint
    | TransferRejected
    | FingerprintUnchanged

  datatype ReasonEdge = ReasonEdge(
    edgeId: EdgeId, source: VersionId, target: VersionId, affected: bool, reason: Reason)

  datatype Node = Node(generation: nat, selectors: set<Selector>, via: set<EdgeId>)

  datatype Skipped = Skipped(via: set<EdgeId>, reasons: set<Reason>)

  /** The mutable state of the loop. */
  datatype Walk = Walk(
    affected: map<VersionId, Node>,
    skipped: map<VersionId, Skipped>,
    queue: seq<VersionId>,
    propagated: map<VersionId, set<Selector>>,
    reasons: seq<ReasonEdge>,
    visited: nat)

  // ---------------------------------------------------------------- outgoing edges

  function Leaving(edges: seq<Edge>, v: VersionId): seq<Edge> {
    if edges == [] then []
    else
      var init := Leaving(edges[..|edges| - 1], v);
      if edges[|edges| - 1].source == v then init + [edges[|edges| - 1]] else init
  }

  function Insert(edge: Edge, sorted: seq<Edge>): seq<Edge> {
    if sorted == [] then [edge]
    else if edge.id < sorted[|sorted| - 1].id then
      Insert(edge, sorted[..|sorted| - 1]) + [sorted[|sorted| - 1]]
    else sorted + [edge]
  }

  /** A stable sort by edge id. */
  function SortById(edges: seq<Edge>): seq<Edge> {
    if edges == [] then [] else Insert(edges[|edges| - 1], SortById(edges[..|edges| - 1]))
  }

  function Outgoing(edges: seq<Edge>, v: VersionId): seq<Edge> {
    SortById(Leaving(edges, v))
  }

  lemma {:induction false} InsertMembers(edge: Edge, sorted: seq<Edge>)
    ensures multiset(Insert(edge, sorted)) == multiset(sorted) + multiset{edge}
    ensures |Insert(edge, sorted)| == |sorted| + 1
  {
    if sorted != [] && edge.id < sorted[|sorted| - 1].id {
      InsertMembers(edge, sorted[..|sorted| - 1]);
      assert sorted == sorted[..|sorted| - 1] + [sorted[|sorted| - 1]];
    }
  }

  lemma {:induction false} SortMembers(edges: seq<Edge>)
    ensures multiset(SortById(edges)) == multiset(edges) && |SortById(edges)| == |edges|
  {
    if edges != [] {
      SortMembers(edges[..|edges| - 1]);
      InsertMembers(edges[|edges| - 1], SortById(edges[..|edges| - 1]));
      assert edges == edges[..|edges| - 1] + [edges[|edges| - 1]];
    }
  }

  lemma {:induction false} LeavingMembers(edges: seq<Edge>, v: VersionId)
    ensures forall e :: e in Leaving(edges, v) <==> e in edges && e.source == v
  {
    if edges != [] {
      LeavingMembers(edges[..|edges| - 1], v);
      assert edges == edges[..|edges| - 1] + [edges[|edges| - 1]];
    }
  }

  lemma OutgoingMembers(edges: seq<Edge>, v: VersionId)
    ensures forall e :: e in Outgoing(edges, v) <==> e in edges && e.source == v
    ensures |Outgoing(edges, v)| == |Leaving(edges, v)|
  {
    SortMembers(Leaving(edges, v));
    LeavingMembers(edges, v);
    forall e ensures e in Outgoing(edges, v) <==> e in Leaving(edges, v) {
      assert e in Outgoing(edges, v) <==> e in multiset(Outgoing(edges, v));
      assert e in Leaving(edges, v) <==> e in multiset(Leaving(edges, v));
    }
  }

  // ------------------------------------------------------------------- one edge

  datatype Decision = Skip(reason: Reason) | Propagate(reason: Reason, selectors: set<Selector>)

  function DependencySelector(edge: Edge): Selector {
    if edge.selector.Some? then edge.selector.value else Unknown
  }

  /** impact.ts:205-254, up to the fingerprint check. */
  function Transferred(input: Input, edge: Edge, news: set<Selector>): Decision {
    if !SelectorSetsIntersect(news, {DependencySelector(edge)}) then Skip(SelectorDisjoint)
    else if edge.transfer.None? then
      Propagate(if DependencySelector(edge) == Unknown then UnknownSelector else SelectorIntersection, {Unknown})
    else if edge.transfer.value !in input.transfers then Propagate(MissingTransferFunction, {Unknown})
    else
      match input.transfers[edge.transfer.value](edge, news)
      case NoImpact => Skip(TransferRejected)
      case Impacts(selectors) =>
        Propagate(TransferFunctionApplied, if selectors.Some? then selectors.value else {Unknown})
  }

  predicate Unchanged(input: Input, edge: Edge, selectors: set<Selector>) {
    && input.resolver.Some?
    && edge.target in input.fingerprints
    && var previous := input.fingerprints[edge.target];
       input.resolver.value(edge.target, edge, selectors, Some(previous)) == previous
  }

  function Decide(input: Input, edge: Edge, news: set<Selector>): Decision {
    match Transferred(input, edge, news)
    case Propagate(_, selectors) =>
      if Unchanged(input, edge, selectors) then Skip(FingerprintUnchanged) else Transferred(input, edge, news)
    case Skip(reason) => Skip(reason)
  }

  function Min(a: nat, b: nat): nat {
    if a <= b then a else b
  }

  function AddSkipped(skipped: map<VersionId, Skipped>, edge: Edge, reason: Reason): map<VersionId, Skipped> {
    var node := if edge.target in skipped then skipped[edge.target] else Skipped({}, {});
    skipped[edge.target := Skipped(node.via + {edge.id}, node.reasons + {reason})]
  }

  function TargetNode(affected: map<VersionId, Node>, v: VersionId, generation: nat): Node {
    if v in affected then affected[v] else Node(generation, {}, {})
  }

  /** What one decision does to the state; `generation` is that of the edge's source node. */
  function Visit(walk: Walk, edge: Edge, decision: Decision, generation: nat): Walk {
    match decision
    case Skip(reason) =>
      walk.(skipped := AddSkipped(walk.skipped, edge, reason),
            reasons := walk.reasons + [ReasonEdge(edge.id, edge.source, edge.target, false, reason)],
            visited := walk.visited + 1)
    case Propagate(reason, selectors) =>
      var node := TargetNode(walk.affected, edge.target, generation + 1);
      var updated := Node(Min(node.generation, generation + 1), node.selectors + selectors, node.via + {edge.id});
      var hasNew := !(selectors <= node.selectors);
      Walk(walk.affected[edge.target := updated],
           walk.skipped - {edge.target},
           if hasNew || edge.target !in walk.propagated then walk.queue + [edge.target] else walk.queue,
           walk.propagated,
           walk.reasons + [ReasonEdge(edge.id, edge.source, edge.target, true, reason)],
           walk.visited + 1)
  }

  function VisitAll(input: Input, walk: Walk, batch: seq<Edge>, news: set<Selector>, generation: nat): Walk {
    if batch == [] then walk
    else
      var edge := batch[|batch| - 1];
      Visit(VisitAll(input, walk, batch[..|batch| - 1], news, generation), edge, Decide(input, edge, news), generation)
  }

  // ------------------------------------------------------------------ the worklist

  function Propagated(walk: Walk, v: VersionId): set<Selector> {
    if v in walk.propagated then walk.propagated[v] else {}
  }

  function SelectorsOf(walk: Walk, v: VersionId): set<Selector> {
    if v in walk.affected then walk.affected[v].selectors else {}
  }

  function NewSelectors(walk: Walk, v: VersionId): set<Selector> {
    SelectorsOf(walk, v) - Propagated(walk, v)
  }

  /** The state in which the outgoing edges of `v` are visited. */
  function Marked(walk: Walk, v: VersionId): Walk {
    walk.(queue := walk.queue[if walk.queue == [] then 0 else 1..],
          propagated := walk.propagated[v := Propagated(walk, v) + NewSelectors(walk, v)])
  }

  /** One round of the loop. */
  function Dequeue(input: Input, walk: Walk): Walk
    requires walk.queue != []
  {
    var v := walk.queue[0];
    var news := NewSelectors(walk, v);
    if v !in walk.affected || news == {} then walk.(queue := walk.queue[1..])
    else VisitAll(input, Marked(walk, v), Outgoing(input.edges, v), news, walk.affected[v].generation)
  }

  function Start(input: Input): Walk {
    Walk(map[input.source := Node(0, input.delta, {})], map[], [input.source], map[], [], 0)
  }

  // ------------------------------------------------------------------- termination

  function Versions(input: Input): set<VersionId> {
    {input.source} + (set e | e in input.edges :: e.target)
  }

  /** Registered transfer functions stay inside a finite universe of selectors. */
  ghost predicate InUniverse(input: Input, universe: set<Selector>) {
    && input.delta <= universe
    && Unknown in universe
    && forall e, news :: e in input.edges && news <= universe && Decide(input, e, news).Propagate? ==>
         Decide(input, e, news).selectors <= universe
  }

  ghost predicate Fits(input: Input, walk: Walk, universe: set<Selector>) {
    && (forall v :: v in walk.affected ==> v in Versions(input) && walk.affected[v].selectors <= universe)
    && (forall v :: v in walk.propagated ==> v in walk.affected && walk.propagated[v] <= walk.affected[v].selectors)
    && (forall k :: 0 <= k < |walk.queue| ==> walk.queue[k] in walk.affected)
  }

  /** The (node, selector) pairs that have not been pushed over the edges yet. */
  ghost function Remaining(input: Input, walk: Walk, universe: set<Selector>): set<(VersionId, Selector)> {
    set v, s | v in Versions(input) && s in universe && s !in Propagated(walk, v) :: (v, s)
  }

  lemma VisitFits(input: Input, walk: Walk, edge: Edge, news: set<Selector>, generation: nat, universe: set<Selector>)
    requires InUniverse(input, universe) && Fits(input, walk, universe)
    requires edge in input.edges && news <= universe
    ensures Fits(input, Visit(walk, edge, Decide(input, edge, news), generation), universe)
    ensures Visit(walk, edge, Decide(input, edge, news), generation).propagated == walk.propagated
  {
    hide Decide;
  }

  lemma {:induction false} VisitAllFits(
    input: Input, walk: Walk, batch: seq<Edge>, news: set<Selector>, generation: nat, universe: set<Selector>)
    requires InUniverse(input, universe) && Fits(input, walk, universe)
    requires (forall e :: e in batch ==> e in input.edges) && news <= universe
    ensures Fits(input, VisitAll(input, walk, batch, news, generation), universe)
    ensures VisitAll(input, walk, batch, news, generation).propagated == walk.propagated
  {
    hide InUniverse, Fits, Decide;
    if batch != [] {
      var init := batch[..|batch| - 1];
      VisitAllFits(input, walk, init, news, generation, universe);
      VisitFits(input, VisitAll(input, walk, init, news, generation), batch[|batch| - 1], news, generation, universe);
    }
  }

  lemma MarkedFits(input: Input, walk: Walk, universe: set<Selector>)
    requires Fits(input, walk, universe) && walk.queue != []
    ensures Fits(input, walk.(queue := walk.queue[1..]), universe)
    ensures walk.queue[0] in walk.affected
    ensures Fits(input, Marked(walk, walk.queue[0]), universe)
    ensures NewSelectors(walk, walk.queue[0]) <= universe
  {
  }

  lemma DequeueFits(input: Input, walk: Walk, universe: set<Selector>)
    requires InUniverse(input, universe) && Fits(input, walk, universe) && walk.queue != []
    ensures Fits(input, Dequeue(input, walk), universe)
    ensures |Remaining(input, Dequeue(input, walk), universe)| < |Remaining(input, walk, universe)|
         || (|Remaining(input, Dequeue(input, walk), universe)| == |Remaining(input, walk, universe)|
             && |Dequeue(input, walk).queue| < |walk.queue|)
  {
    hide InUniverse, Fits, Outgoing, Versions, Remaining;
    var v := walk.queue[0];
    var news := NewSelectors(walk, v);
    MarkedFits(input, walk, universe);
    if v in walk.affected && news != {} {
      OutgoingMembers(input.edges, v);
      VisitAllFits(input, Marked(walk, v), Outgoing(input.edges, v), news, walk.affected[v].generation, universe);
      FewerRemain(input, walk, Dequeue(input, walk), v, universe);
    } else {
      SameRemain(input, walk, Dequeue(input, walk), universe);
    }
  }

  lemma SameRemain(input: Input, walk: Walk, next: Walk, universe: set<Selector>)
    requires next.propagated == walk.propagated
    ensures Remaining(input, next, universe) == Remaining(input, walk, universe)
  {
  }

  lemma FewerRemain(input: Input, walk: Walk, next: Walk, v: VersionId, universe: set<Selector>)
    requires Fits(input, walk, universe) && v in walk.affected && NewSelectors(walk, v) != {}
    requires next.propagated == Marked(walk, v).propagated
    ensures |Remaining(input, next, universe)| < |Remaining(input, walk, universe)|
  {
    var s :| s in NewSelectors(walk, v);
    var before, after := Remaining(input, walk, universe), Remaining(input, next, universe);
    assert (v, s) in before && (v, s) !in after;
    assert after <= before;
    Shrink(after, before);
  }

  lemma Shrink<T>(small: set<T>, large: set<T>)
    requires small < large
    ensures |small| < |large|
  {
    var rest := large - small;
    assert large == small + rest && rest != {};
  }

  /** The loop run to its end. */
  ghost function Finish(input: Input, walk: Walk, universe: set<Selector>): (done: Walk)
    requires InUniverse(input, universe) && Fits(input, walk, universe)
    ensures Fits(input, done, universe) && done.queue == []
    decreases |Remaining(input, walk, universe)|, |walk.queue|
  {
    if walk.queue == [] then walk
    else
      DequeueFits(input, walk, universe);
      Finish(input, Dequeue(input, walk), universe)
  }

  lemma StartFits(input: Input, universe: set<Selector>)
    requires InUniverse(input, universe)
    ensures Fits(input, Start(input), universe)
  {
  }

  ghost function Analysis(input: Input, universe: set<Selector>): Walk
    requires InUniverse(input, universe)
  {
    StartFits(input, universe);
    Finish(input, Start(input), universe)
  }

  // ------------------------------------------------------------------------ results

  datatype Result =
    | Invalid
    | Impact(affected: map<VersionId, Node>, skipped: map<VersionId, Skipped>, reasons: seq<ReasonEdge>, visited: nat)

  /** impact.ts:307-333; a node without selectors makes the result schema throw. */
  function Report(walk: Walk): Result {
    if exists v :: v in walk.affected && walk.affected[v].selectors == {} then Invalid
    else Impact(walk.affected, walk.skipped - walk.affected.Keys, walk.reasons, walk.visited)
  }

  /** Without registered transfer functions; the API registers no fingerprint resolver either. */
  predicate Plain(input: Input) {
    input.transfers == map[]
  }

  lemma PlainUniverse(input: Input)
    requires Plain(input)
    ensures InUniverse(input, input.delta + {Unknown})
  {
  }
}
