/**
  Explanations (packages/lineage/src/invalidation.ts:317-353): chains of affected edges from the
  source to a version, read backwards out of the reason graph.
 */
module ImpactExplain {
  import opened Tables
  import opened Selectors
  import opened Impact
  import opened ImpactFixpoint
  import opened ImpactCounts

  // ------------------------------------------------------------ what the reasons record

  /** Every affected edge starts at the source, or where an earlier affected edge ended. */
  ghost predicate Grounded(reasons: seq<ReasonEdge>, source: VersionId) {
    forall k :: 0 <= k < |reasons| && reasons[k].affected ==>
      reasons[k].source == source || Back(reasons[..k], reasons[k].source)
  }

  predicate Recorded(edges: seq<Edge>, reason: ReasonEdge) {
    exists e :: e in edges && e.id == reason.edgeId && e.source == reason.source && e.target == reason.target
  }

  ghost predicate ReasonInv(input: Input, walk: Walk) {
    && Grounded(walk.reasons, input.source)
    && (forall v :: v in walk.affected <==> v == input.source || Back(walk.reasons, v))
    && (forall k :: 0 <= k < |walk.reasons| ==> Recorded(input.edges, walk.reasons[k]))
  }

  lemma BackAppend(reasons: seq<ReasonEdge>, entry: ReasonEdge, v: VersionId)
    ensures Back(reasons + [entry], v) <==> Back(reasons, v) || (entry.affected && entry.target == v)
  {
    var all := reasons + [entry];
    if Back(reasons, v) {
      var k :| 0 <= k < |reasons| && reasons[k].affected && reasons[k].target == v;
      assert all[k] == reasons[k];
    }
    if entry.affected && entry.target == v {
      assert all[|reasons|] == entry;
    }
  }

  lemma GroundedAppend(reasons: seq<ReasonEdge>, entry: ReasonEdge, source: VersionId)
    requires Grounded(reasons, source)
    requires entry.affected ==> entry.source == source || Back(reasons, entry.source)
    ensures Grounded(reasons + [entry], source)
  {
    hide Back;
    var all := reasons + [entry];
    forall k | 0 <= k < |all| && all[k].affected ensures all[k].source == source || Back(all[..k], all[k].source) {
      assert all[..k] == reasons[..k];
      assert reasons[..|reasons|] == reasons;
    }
  }

  lemma VisitReasons(input: Input, walk: Walk, edge: Edge, decision: Decision, generation: nat)
    requires ReasonInv(input, walk) && edge in input.edges && edge.source in walk.affected
    ensures ReasonInv(input, Visit(walk, edge, decision, generation))
    ensures forall v :: v in walk.affected ==> v in Visit(walk, edge, decision, generation).affected
  {
    hide Back, Grounded;
    var after := Visit(walk, edge, decision, generation);
    var entry := ReasonEdge(edge.id, edge.source, edge.target, decision.Propagate?, decision.reason);
    assert after.reasons == walk.reasons + [entry];
    GroundedAppend(walk.reasons, entry, input.source);
    forall v ensures v in after.affected <==> v == input.source || Back(after.reasons, v) {
      BackAppend(walk.reasons, entry, v);
    }
    assert Recorded(input.edges, entry);
  }

  lemma {:induction false} BatchReasonInv(
    input: Input, walk: Walk, batch: seq<Edge>, news: set<Selector>, generation: nat, v: VersionId)
    requires ReasonInv(input, walk) && v in walk.affected
    requires forall e :: e in batch ==> e in input.edges && e.source == v
    ensures ReasonInv(input, VisitAll(input, walk, batch, news, generation))
    ensures v in VisitAll(input, walk, batch, news, generation).affected
  {
    hide Decide, ReasonInv, Visit;
    if batch != [] {
      var init, edge := batch[..|batch| - 1], batch[|batch| - 1];
      BatchReasonInv(input, walk, init, news, generation, v);
      VisitReasons(input, VisitAll(input, walk, init, news, generation), edge, Decide(input, edge, news), generation);
    }
  }

  lemma {:induction false} FinishReasonInv(input: Input, walk: Walk, universe: set<Selector>)
    requires InUniverse(input, universe) && Fits(input, walk, universe) && ReasonInv(input, walk)
    ensures ReasonInv(input, Finish(input, walk, universe))
    decreases |Remaining(input, walk, universe)|, |walk.queue|
  {
    hide InUniverse, Fits, Remaining, VisitAll, Outgoing, Grounded, Back, Recorded;
    if walk.queue != [] {
      DequeueFits(input, walk, universe);
      var v := walk.queue[0];
      if v in walk.affected && NewSelectors(walk, v) != {} {
        OutgoingMembers(input.edges, v);
        BatchReasonInv(input, Marked(walk, v), Outgoing(input.edges, v), NewSelectors(walk, v),
                       walk.affected[v].generation, v);
      }
      FinishReasonInv(input, Dequeue(input, walk), universe);
    }
  }

  /**
    The reason graph of an analysis records real edges, is grounded in the source, and has an affected
    edge into exactly the affected versions (the source is affected in any case).
   */
  lemma ReasonsAreGrounded(input: Input, universe: set<Selector>)
    requires InUniverse(input, universe)
    ensures ReasonInv(input, Analysis(input, universe))
  {
    hide InUniverse, Finish;
    StartFits(input, universe);
    FinishReasonInv(input, Start(input), universe);
  }

  // ------------------------------------------------------------------------ explanations

  datatype Explanation = SourceItself | Chains(chains: seq<seq<ReasonEdge>>)

  /** A chain of affected edges from `from` to `to`; the empty chain stays where it is. */
  predicate Leads(reasons: seq<ReasonEdge>, from: VersionId, to: VersionId, chain: seq<ReasonEdge>)
    decreases |chain|
  {
    if chain == [] then from == to
    else
      && chain[0] in reasons && chain[0].affected && chain[0].source == from
      && Leads(reasons, chain[0].target, to, chain[1..])
  }

  datatype Task = Task(version: VersionId, path: seq<ReasonEdge>)

  predicate Affecting(reasons: seq<ReasonEdge>, target: VersionId, edge: ReasonEdge) {
    edge in reasons && edge.affected && edge.target == target
  }

  lemma AffectingNext(reasons: seq<ReasonEdge>, k: nat)
    requires k < |reasons|
    ensures forall v, r ::
              Affecting(reasons[..k + 1], v, r) <==>
              Affecting(reasons[..k], v, r) || (r == reasons[k] && r.affected && r.target == v)
  {
    assert reasons[..k + 1] == reasons[..k] + [reasons[k]];
  }

  function Into(incoming: map<VersionId, seq<ReasonEdge>>, v: VersionId): seq<ReasonEdge> {
    if v in incoming then incoming[v] else []
  }

  lemma NothingAffecting()
    ensures forall v, r :: !Affecting([], v, r)
  {
  }

  method Predecessors(reasons: seq<ReasonEdge>) returns (incoming: map<VersionId, seq<ReasonEdge>>)
    ensures forall v, r :: r in Into(incoming, v) <==> Affecting(reasons, v, r)
  {
    hide Affecting;
    incoming := map[];
    NothingAffecting();
    for k := 0 to |reasons|
      invariant forall v, r :: r in Into(incoming, v) <==> Affecting(reasons[..k], v, r)
    {
      var r := reasons[k];
      AffectingNext(reasons, k);
      if r.affected {
        var current := if r.target in incoming then incoming[r.target] else [];
        assert current == Into(incoming, r.target);
        ghost var before := incoming;
        incoming := incoming[r.target := current + [r]];
        forall v, x ensures x in Into(incoming, v) <==> Affecting(reasons[..k + 1], v, x) {
          assert x in Into(before, v) <==> Affecting(reasons[..k], v, x);
        }
      }
    }
    assert reasons[..|reasons|] == reasons;
  }

  lemma LeadsStep(reasons: seq<ReasonEdge>, r: ReasonEdge, to: VersionId, chain: seq<ReasonEdge>)
    requires r in reasons && r.affected && Leads(reasons, r.target, to, chain)
    ensures Leads(reasons, r.source, to, [r] + chain)
  {
    assert ([r] + chain)[1..] == chain;
  }

  ghost predicate TasksLead(reasons: seq<ReasonEdge>, version: VersionId, queue: seq<Task>) {
    forall k :: 0 <= k < |queue| ==> Leads(reasons, queue[k].version, version, queue[k].path)
  }

  ghost predicate ChainsLead(reasons: seq<ReasonEdge>, source: VersionId, version: VersionId, chains: seq<seq<ReasonEdge>>) {
    forall k :: 0 <= k < |chains| ==> chains[k] != [] && Leads(reasons, source, version, chains[k])
  }

  predicate Pending(queue: seq<Task>, v: VersionId) {
    exists k :: 0 <= k < |queue| && queue[k].version == v
  }

  /** Some chain begins with the edge. */
  predicate Opens(chains: seq<seq<ReasonEdge>>, r: ReasonEdge) {
    exists k :: 0 <= k < |chains| && chains[k] != [] && chains[k][0] == r
  }

  lemma StillOpens(found: seq<seq<ReasonEdge>>, chains: seq<seq<ReasonEdge>>)
    requires found <= chains
    ensures forall r :: Opens(found, r) ==> Opens(chains, r)
  {
    forall r | Opens(found, r) ensures Opens(chains, r) {
      var k :| 0 <= k < |found| && found[k] != [] && found[k][0] == r;
      assert chains[k] == found[k];
    }
  }

  /** Behind every visited version, each affected edge has led on or opens an explanation. */
  ghost predicate Explored(
    reasons: seq<ReasonEdge>, source: VersionId, visited: set<VersionId>, queue: seq<Task>,
    chains: seq<seq<ReasonEdge>>)
  {
    forall r :: r in reasons && r.affected && r.target in visited ==>
      if r.source == source then Opens(chains, r) else r.source in visited || Pending(queue, r.source)
  }

  /** None of the edges comes from the source. */
  predicate Past(source: VersionId, chain: seq<ReasonEdge>) {
    forall k :: 0 <= k < |chain| ==> chain[k].source != source
  }

  /** Every affected edge that leaves the source, and from whose end the version is reached otherwise, is told. */
  ghost predicate AllTold(
    reasons: seq<ReasonEdge>, source: VersionId, version: VersionId, chains: seq<seq<ReasonEdge>>)
  {
    forall r, rest ::
      (&& r in reasons && r.affected && r.source == source
       && Past(source, rest) && Leads(reasons, r.target, version, rest)) ==> Opens(chains, r)
  }

  /** What leads to a visited version without coming from the source has been visited. */
  lemma {:induction false} VisitedBack(
    reasons: seq<ReasonEdge>, source: VersionId, version: VersionId, visited: set<VersionId>,
    chains: seq<seq<ReasonEdge>>, from: VersionId, rest: seq<ReasonEdge>)
    requires Explored(reasons, source, visited, [], chains) && version in visited
    requires Leads(reasons, from, version, rest) && Past(source, rest)
    ensures from in visited
    decreases |rest|
  {
    if rest != [] {
      VisitedBack(reasons, source, version, visited, chains, rest[0].target, rest[1..]);
      assert rest[0].source != source;
    }
  }

  lemma EverythingTold(
    reasons: seq<ReasonEdge>, source: VersionId, version: VersionId, visited: set<VersionId>,
    chains: seq<seq<ReasonEdge>>)
    requires Explored(reasons, source, visited, [], chains) && version in visited
    ensures AllTold(reasons, source, version, chains)
  {
    hide Opens;
    forall r, rest | r in reasons && r.affected && r.source == source
                     && Past(source, rest) && Leads(reasons, r.target, version, rest)
      ensures Opens(chains, r)
    {
      VisitedBack(reasons, source, version, visited, chains, r.target, rest);
    }
  }

  /** With nothing explained and nothing pending, a grounded reason graph cannot enter a visited version. */
  lemma {:induction false} NoEntrance(reasons: seq<ReasonEdge>, source: VersionId, visited: set<VersionId>, k: nat)
    requires Grounded(reasons, source) && Explored(reasons, source, visited, [], [])
    requires k < |reasons| && reasons[k].affected
    ensures reasons[k].target !in visited
  {
    if reasons[k].target in visited {
      assert reasons[k] in reasons;
      var j :| 0 <= j < k && reasons[..k][j].affected && reasons[..k][j].target == reasons[k].source;
      NoEntrance(reasons, source, visited, j);
    }
  }

  /** One version: its incoming affected edges either complete an explanation or queue their source. */
  method ExpandTask(reasons: seq<ReasonEdge>, source: VersionId, version: VersionId, incoming: seq<ReasonEdge>,
                    task: Task, waiting: seq<Task>, found: seq<seq<ReasonEdge>>)
    returns (queue: seq<Task>, chains: seq<seq<ReasonEdge>>)
    requires forall r :: r in incoming ==> Affecting(reasons, task.version, r)
    requires Leads(reasons, task.version, version, task.path)
    requires TasksLead(reasons, version, waiting) && ChainsLead(reasons, source, version, found)
    ensures TasksLead(reasons, version, queue) && ChainsLead(reasons, source, version, chains)
    ensures forall v :: Pending(waiting, v) ==> Pending(queue, v)
    ensures found <= chains
    ensures forall r :: r in incoming ==> if r.source == source then Opens(chains, r) else Pending(queue, r.source)
    ensures forall v :: Pending(queue, v) ==> Pending(waiting, v) || exists r :: r in incoming && r.source == v
  {
    hide Opens;
    queue, chains := waiting, found;
    for k := 0 to |incoming|
      invariant TasksLead(reasons, version, queue) && ChainsLead(reasons, source, version, chains)
      invariant forall v :: Pending(waiting, v) ==> Pending(queue, v)
      invariant found <= chains
      invariant forall n :: 0 <= n < k ==>
                  if incoming[n].source == source then Opens(chains, incoming[n]) else Pending(queue, incoming[n].source)
      invariant forall v :: Pending(queue, v) ==> Pending(waiting, v) || exists r :: r in incoming && r.source == v
    {
      var r := incoming[k];
      var path := [r] + task.path;
      assert Affecting(reasons, task.version, r);
      LeadsStep(reasons, r, version, task.path);
      if r.source == source {
        StillOpens(chains, chains + [path]);
        NowOpens(chains, r, task.path);
        chains := chains + [path];
      } else {
        queue := Enqueue(queue, Task(r.source, path));
      }
    }
  }

  lemma NowOpens(chains: seq<seq<ReasonEdge>>, r: ReasonEdge, rest: seq<ReasonEdge>)
    ensures Opens(chains + [[r] + rest], r)
  {
    assert (chains + [[r] + rest])[|chains|] == [r] + rest;
  }

  method Enqueue(queue: seq<Task>, task: Task) returns (next: seq<Task>)
    ensures next == queue + [task]
    ensures forall v :: Pending(next, v) <==> Pending(queue, v) || v == task.version
  {
    next := queue + [task];
    forall v ensures Pending(next, v) <==> Pending(queue, v) || v == task.version {
      if Pending(queue, v) {
        var k :| 0 <= k < |queue| && queue[k].version == v;
        assert next[k] == queue[k];
      }
      assert next[|queue|] == task;
    }
  }

  method ExplainImpact(reasons: seq<ReasonEdge>, source: VersionId, version: VersionId) returns (result: Explanation)
    ensures result.SourceItself? <==> version == source
    ensures result.Chains? ==> ChainsLead(reasons, source, version, result.chains)
    ensures result.Chains? ==> AllTold(reasons, source, version, result.chains)
    ensures result.Chains? && Grounded(reasons, source) ==> (result.chains != [] <==> Back(reasons, version))
  {
    if version == source {
      return SourceItself;
    }
    hide Leads, Grounded, Explored, TasksLead, ChainsLead, Pending, Affecting, Back, AllTold, Opens;
    var incoming := Predecessors(reasons);
    var chains: seq<seq<ReasonEdge>>, queue: seq<Task>, visited: set<VersionId> := [], [Task(version, [])], {};
    ghost var all := {version} + set r | r in reasons :: r.source;
    StartsAt(reasons, version);
    while queue != []
      invariant TasksLead(reasons, version, queue) && ChainsLead(reasons, source, version, chains)
      invariant Explored(reasons, source, visited, queue, chains)
      invariant version in visited || Pending(queue, version)
      invariant visited <= all && forall v :: Pending(queue, v) ==> v in all
      decreases |all - visited|, |queue|
    {
      var task := queue[0];
      PopTask(queue);
      TasksLeadRest(reasons, version, queue);
      assert queue == [task] + queue[1..];
      ghost var before, rest := visited, queue[1..];
      queue := queue[1..];
      if task.version in visited {
        AlreadyExplored(reasons, source, visited, task, queue, chains);
        continue;
      }
      visited := visited + {task.version};
      assert forall r :: Affecting(reasons, task.version, r) ==> r.source in all by {
        SourcesIn(reasons, task.version);
      }
      Shrink(all - visited, all - before);
      var edges := Into(incoming, task.version);
      ghost var told := chains;
      queue, chains := ExpandTask(reasons, source, version, edges, task, queue, chains);
      ExploreOne(reasons, source, before, task, rest, edges, queue, told, chains);
    }
    if Grounded(reasons, source) && Back(reasons, version) {
      SomethingExplained(reasons, source, version, visited, chains);
    }
    EverythingTold(reasons, source, version, visited, chains);
    ChainEndsThere(reasons, source, version, chains);
    result := Chains(chains);
  }

  lemma SomethingExplained(
    reasons: seq<ReasonEdge>, source: VersionId, version: VersionId, visited: set<VersionId>,
    chains: seq<seq<ReasonEdge>>)
    requires Grounded(reasons, source) && Back(reasons, version)
    requires version in visited && Explored(reasons, source, visited, [], chains)
    ensures chains != []
  {
    if chains == [] {
      var k :| 0 <= k < |reasons| && reasons[k].affected && reasons[k].target == version;
      NoEntrance(reasons, source, visited, k);
    }
  }

  lemma StartsAt(reasons: seq<ReasonEdge>, version: VersionId)
    ensures TasksLead(reasons, version, [Task(version, [])])
    ensures forall v :: Pending([Task(version, [])], v) <==> v == version
    ensures forall source :: ChainsLead(reasons, source, version, [])
    ensures forall source :: Explored(reasons, source, {}, [Task(version, [])], [])
  {
    assert [Task(version, [])][0].version == version;
  }

  lemma PopTask(queue: seq<Task>)
    requires queue != []
    ensures forall v :: Pending(queue, v) <==> v == queue[0].version || Pending(queue[1..], v)
  {
    forall v ensures Pending(queue, v) <==> v == queue[0].version || Pending(queue[1..], v) {
      if Pending(queue[1..], v) {
        var k :| 0 <= k < |queue[1..]| && queue[1..][k].version == v;
        assert queue[k + 1].version == v;
      }
      if k :| 0 < k < |queue| && queue[k].version == v {
        assert queue[1..][k - 1].version == v;
      }
    }
  }

  lemma TasksLeadRest(reasons: seq<ReasonEdge>, version: VersionId, queue: seq<Task>)
    requires queue != [] && TasksLead(reasons, version, queue)
    ensures Leads(reasons, queue[0].version, version, queue[0].path)
    ensures TasksLead(reasons, version, queue[1..])
  {
  }

  lemma AlreadyExplored(reasons: seq<ReasonEdge>, source: VersionId, visited: set<VersionId>, task: Task,
                        rest: seq<Task>, chains: seq<seq<ReasonEdge>>)
    requires Explored(reasons, source, visited, [task] + rest, chains) && task.version in visited
    ensures Explored(reasons, source, visited, rest, chains)
  {
    PopTask([task] + rest);
    assert ([task] + rest)[1..] == rest;
    hide Pending;
  }

  lemma SourcesIn(reasons: seq<ReasonEdge>, v: VersionId)
    ensures forall r :: Affecting(reasons, v, r) ==> r.source in (set x | x in reasons :: x.source)
  {
  }

  lemma ExploreOne(reasons: seq<ReasonEdge>, source: VersionId, visited: set<VersionId>, task: Task, rest: seq<Task>,
                   incoming: seq<ReasonEdge>, queue: seq<Task>, told: seq<seq<ReasonEdge>>,
                   chains: seq<seq<ReasonEdge>>)
    requires Explored(reasons, source, visited, [task] + rest, told)
    requires forall r :: r in incoming <==> Affecting(reasons, task.version, r)
    requires forall v :: Pending(rest, v) ==> Pending(queue, v)
    requires told <= chains
    requires forall r :: r in incoming ==> if r.source == source then Opens(chains, r) else Pending(queue, r.source)
    ensures Explored(reasons, source, visited + {task.version}, queue, chains)
  {
    StillOpens(told, chains);
    hide Opens;
    PopTask([task] + rest);
    assert ([task] + rest)[1..] == rest;
    hide Pending;
  }

  lemma ChainEndsThere(reasons: seq<ReasonEdge>, source: VersionId, version: VersionId, chains: seq<seq<ReasonEdge>>)
    requires ChainsLead(reasons, source, version, chains) && version != source
    ensures chains != [] ==> Back(reasons, version)
  {
    if chains != [] {
      EndsInReason(reasons, source, version, chains[0]);
    }
  }

  lemma {:induction false} EndsInReason(reasons: seq<ReasonEdge>, from: VersionId, to: VersionId, chain: seq<ReasonEdge>)
    requires chain != [] && Leads(reasons, from, to, chain)
    ensures Back(reasons, to)
    decreases |chain|
  {
    if chain[1..] == [] {
      var k :| 0 <= k < |reasons| && reasons[k] == chain[0];
      assert reasons[k].affected && reasons[k].target == to;
    } else {
      EndsInReason(reasons, chain[0].target, to, chain[1..]);
    }
  }
}
