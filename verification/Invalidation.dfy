/**
  Invalidation (packages/lineage/src/invalidation.ts): a plan computed from an impact analysis, what
  applying it leaves behind, and why nothing can be promoted afterwards on the evidence that existed
  before.
 */
module Invalidation {
  import opened Tables
  import opened Impact
  import opened ImpactWorklist
  import opened EvidencePolicy
  import opened OutputMachine
  import S = Selectors

  datatype OutputTransition = OutputTransition(version: VersionId, from: OutputState, to: OutputState)
  datatype EvidenceTransition = EvidenceTransition(id: nat, subject: VersionId, from: EvidenceVerdict)

  datatype Plan = Plan(
    source: VersionId, createdAt: int, outputs: seq<OutputTransition>, evidence: seq<EvidenceTransition>)

  /** invalidation.ts:144-154. */
  function TargetState(version: VersionId, source: VersionId, current: OutputState): Option<OutputState> {
    if current == Superseded || current == OutputState.Rejected || current == Invalidated then None
    else
      var target := if version == source then Invalidated else StaleOutput;
      if current == target then None else Some(target)
  }

  /** Every planned move is a move of the output machine, and there is none exactly where nothing is left to do. */
  lemma PlannedMovesAreLegal(version: VersionId, source: VersionId, current: OutputState)
    ensures var target := TargetState(version, source, current);
            && (target.Some? ==> CanMove(current, target.value) && Shut(target.value))
            && (target.None? ==> Shut(current))
            && (target.Some? ==> TargetState(version, source, target.value).None?)
  {
  }

  // -------------------------------------------------------------------------- the plan

  /** Version ids are the primary key of the outputs. */
  ghost predicate DistinctVersions(outputs: seq<Output>) {
    forall i, j :: 0 <= i < j < |outputs| ==> outputs[i].version != outputs[j].version
  }

  predicate Moves(o: Output, source: VersionId, t: OutputTransition) {
    && TargetState(o.version, source, o.state).Some?
    && t == OutputTransition(o.version, o.state, TargetState(o.version, source, o.state).value)
  }

  predicate Stales(e: Evidence, t: EvidenceTransition) {
    e.verdict != Stale && t == EvidenceTransition(e.id, e.subject, e.verdict)
  }

  /** What a plan contains for a set of affected versions: every move that is due, and nothing else. */
  ghost predicate Plans(plan: Plan, affected: set<VersionId>, outputs: seq<Output>, evidence: seq<Evidence>) {
    && (forall t :: t in plan.outputs <==>
          exists o :: o in outputs && o.version in affected && Moves(o, plan.source, t))
    && (forall t :: t in plan.evidence <==>
          exists e :: e in evidence && e.subject in affected && Stales(e, t))
  }

  predicate NodeBefore(affected: map<VersionId, Node>, a: VersionId, b: VersionId)
    requires a in affected && b in affected
  {
    affected[a].generation < affected[b].generation || (affected[a].generation == affected[b].generation && a <= b)
  }

  /** The affected nodes by generation, then by id. */
  method SortedNodes(affected: map<VersionId, Node>) returns (nodes: seq<VersionId>)
    ensures forall v :: v in nodes <==> v in affected
    ensures forall i, j :: 0 <= i < j < |nodes| ==>
              var first, second := affected[nodes[i]].generation, affected[nodes[j]].generation;
              first < second || (first == second && nodes[i] < nodes[j])
  {
    nodes := [];
    var rest := affected.Keys;
    while rest != {}
      invariant rest <= affected.Keys
      invariant forall v :: v in nodes || v in rest <==> v in affected
      invariant forall i, v :: 0 <= i < |nodes| && v in rest ==> nodes[i] != v && NodeBefore(affected, nodes[i], v)
      invariant forall i, j :: 0 <= i < j < |nodes| ==>
                  nodes[i] != nodes[j] && NodeBefore(affected, nodes[i], nodes[j])
      decreases rest
    {
      var first := FirstNode(affected, rest);
      nodes := nodes + [first];
      rest := rest - {first};
    }
  }

  method FirstNode(affected: map<VersionId, Node>, candidates: set<VersionId>) returns (first: VersionId)
    requires candidates != {} && candidates <= affected.Keys
    ensures first in candidates && forall v :: v in candidates ==> NodeBefore(affected, first, v)
  {
    first :| first in candidates;
    var rest := candidates - {first};
    while rest != {}
      invariant rest <= candidates && first in candidates
      invariant forall v :: v in candidates && v !in rest ==> NodeBefore(affected, first, v)
      decreases rest
    {
      var next :| next in rest;
      if !NodeBefore(affected, first, next) {
        first := next;
      }
      rest := rest - {next};
    }
  }

  method FindOutput(outputs: seq<Output>, version: VersionId) returns (found: Option<Output>)
    ensures found.Some? ==> found.value in outputs && found.value.version == version
    ensures found.None? ==> forall o :: o in outputs ==> o.version != version
  {
    found := None;
    for k := 0 to |outputs|
      invariant found.Some? ==> found.value in outputs && found.value.version == version
      invariant found.None? ==> forall j :: 0 <= j < k ==> outputs[j].version != version
    {
      if outputs[k].version == version {
        found := Some(outputs[k]);
      }
    }
  }

  method PlanOutputs(source: VersionId, nodes: seq<VersionId>, outputs: seq<Output>)
    returns (moves: seq<OutputTransition>)
    requires DistinctVersions(outputs)
    ensures forall t :: t in moves <==> exists o :: o in outputs && o.version in nodes && Moves(o, source, t)
    ensures (forall i, j :: 0 <= i < j < |nodes| ==> nodes[i] != nodes[j]) ==>
              forall i, j :: 0 <= i < j < |moves| ==> moves[i].version != moves[j].version
  {
    hide TargetState;
    moves := [];
    for k := 0 to |nodes|
      invariant forall i :: 0 <= i < |moves| ==> moves[i].version in nodes[..k]
      invariant (forall i, j :: 0 <= i < j < |nodes| ==> nodes[i] != nodes[j]) ==>
                  forall i, j :: 0 <= i < j < |moves| ==> moves[i].version != moves[j].version
      invariant forall t :: t in moves <==> exists o :: o in outputs && o.version in nodes[..k] && Moves(o, source, t)
    {
      assert nodes[..k + 1] == nodes[..k] + [nodes[k]];
      var output := FindOutput(outputs, nodes[k]);
      if output.Some? {
        var to := TargetState(nodes[k], source, output.value.state);
        if to.Some? {
          moves := moves + [OutputTransition(nodes[k], output.value.state, to.value)];
        }
      }
    }
    assert nodes[..|nodes|] == nodes;
  }

  method PlanEvidence(affected: set<VersionId>, evidence: seq<Evidence>) returns (moves: seq<EvidenceTransition>)
    ensures forall t :: t in moves <==> exists e :: e in evidence && e.subject in affected && Stales(e, t)
  {
    moves := [];
    for k := 0 to |evidence|
      invariant forall t :: t in moves <==> exists e :: e in evidence[..k] && e.subject in affected && Stales(e, t)
    {
      var e := evidence[k];
      assert evidence[..k + 1] == evidence[..k] + [e];
      if e.subject in affected && e.verdict != Stale {
        moves := moves + [EvidenceTransition(e.id, e.subject, e.verdict)];
      }
    }
    assert evidence[..|evidence|] == evidence;
  }

  method CreateInvalidationPlan(
    input: Input, createdAt: int, outputs: seq<Output>, evidence: seq<Evidence>, ghost universe: set<S.Selector>)
    returns (plan: Option<Plan>, result: Result)
    requires InUniverse(input, universe) && DistinctVersions(outputs)
    ensures result == if input.delta == {} then Result.Invalid else Report(Analysis(input, universe))
    ensures plan.Some? <==> result.Impact?
    ensures plan.Some? ==>
              && plan.value.source == input.source && plan.value.createdAt == createdAt
              && Plans(plan.value, result.affected.Keys, outputs, evidence)
              && (forall i, j :: 0 <= i < j < |plan.value.outputs| ==>
                    plan.value.outputs[i].version != plan.value.outputs[j].version)
              && forall k :: 0 <= k < |outputs| ==>
                   LeftAs(input.source, result.affected.Keys, outputs[k], createdAt,
                          ApplyOutputs(plan.value, outputs)[k])
  {
    hide InUniverse, Moves, Stales, Analysis, LeftAs, ApplyToOutput;
    result := ComputeImpact(input, universe);
    if result == Result.Invalid {
      return None, result;
    }
    var nodes := SortedNodes(result.affected);
    var moves := PlanOutputs(input.source, nodes, outputs);
    var stales := PlanEvidence(result.affected.Keys, evidence);
    plan := Some(Plan(input.source, createdAt, moves, stales));
    forall k | 0 <= k < |outputs|
      ensures LeftAs(input.source, result.affected.Keys, outputs[k], createdAt, ApplyOutputs(plan.value, outputs)[k])
    {
      StatesAfterPlan(plan.value, result.affected.Keys, outputs, evidence, k);
    }
  }

  // ------------------------------------------------------------------------- applying it

  function FindMove(moves: seq<OutputTransition>, version: VersionId): (found: Option<OutputTransition>)
    ensures found.Some? ==> found.value in moves && found.value.version == version
    ensures found.None? ==> forall t :: t in moves ==> t.version != version
  {
    if moves == [] then None
    else if moves[|moves| - 1].version == version then Some(moves[|moves| - 1])
    else
      var found := FindMove(moves[..|moves| - 1], version);
      assert moves == moves[..|moves| - 1] + [moves[|moves| - 1]];
      found
  }

  function ApplyToOutput(plan: Plan, o: Output): Output {
    var move := FindMove(plan.outputs, o.version);
    if move.None? then o else o.(state := move.value.to, updatedAt := plan.createdAt)
  }

  function ApplyToEvidence(plan: Plan, e: Evidence): Evidence {
    if exists t :: t in plan.evidence && t.id == e.id then e.(verdict := Stale) else e
  }

  function ApplyOutputs(plan: Plan, outputs: seq<Output>): (applied: seq<Output>)
    ensures |applied| == |outputs|
    ensures forall k :: 0 <= k < |outputs| ==> applied[k] == ApplyToOutput(plan, outputs[k])
  {
    seq(|outputs|, k requires 0 <= k < |outputs| => ApplyToOutput(plan, outputs[k]))
  }

  function ApplyEvidence(plan: Plan, evidence: seq<Evidence>): (applied: seq<Evidence>)
    ensures |applied| == |evidence|
    ensures forall k :: 0 <= k < |evidence| ==> applied[k] == ApplyToEvidence(plan, evidence[k])
  {
    seq(|evidence|, k requires 0 <= k < |evidence| => ApplyToEvidence(plan, evidence[k]))
  }

  // --------------------------------------------------------------------------- theorems

  lemma DueMove(plan: Plan, affected: set<VersionId>, outputs: seq<Output>, evidence: seq<Evidence>, k: nat)
    requires Plans(plan, affected, outputs, evidence) && DistinctVersions(outputs) && k < |outputs|
    ensures var o := outputs[k];
            ApplyToOutput(plan, o).state ==
            if o.version in affected && TargetState(o.version, plan.source, o.state).Some?
            then TargetState(o.version, plan.source, o.state).value else o.state
  {
    hide TargetState;
    var o := outputs[k];
    var move := FindMove(plan.outputs, o.version);
    if move.Some? {
      var p :| p in outputs && p.version in affected && Moves(p, plan.source, move.value);
      var j :| 0 <= j < |outputs| && outputs[j] == p;
      assert j == k;
    } else if o.version in affected {
      NoMoveDue(plan, affected, outputs, evidence, o);
    }
  }

  lemma NoMoveDue(plan: Plan, affected: set<VersionId>, outputs: seq<Output>, evidence: seq<Evidence>, o: Output)
    requires Plans(plan, affected, outputs, evidence) && o in outputs && o.version in affected
    requires forall t :: t in plan.outputs ==> t.version != o.version
    ensures TargetState(o.version, plan.source, o.state).None?
  {
    var target := TargetState(o.version, plan.source, o.state);
    if target.Some? {
      assert Moves(o, plan.source, OutputTransition(o.version, o.state, target.value));
    }
  }

  /** What the plan makes of an output: the source's own is lost, one that depends on it may be verified again. */
  predicate LeftAs(source: VersionId, affected: set<VersionId>, was: Output, createdAt: int, now: Output) {
    if was.version !in affected || was.state in {OutputState.Rejected, Superseded, Invalidated} then now == was
    else if was.version == source then now == was.(state := Invalidated, updatedAt := createdAt)
    else if was.state == StaleOutput then now == was
    else now == was.(state := StaleOutput, updatedAt := createdAt)
  }

  /**
    After the plan is applied the source's own output is INVALIDATED and every other affected one is STALE,
    except that rejected, superseded and invalidated ones stay what they are; unaffected ones are untouched.
   */
  lemma StatesAfterPlan(plan: Plan, affected: set<VersionId>, outputs: seq<Output>, evidence: seq<Evidence>, k: nat)
    requires Plans(plan, affected, outputs, evidence) && DistinctVersions(outputs) && k < |outputs|
    ensures LeftAs(plan.source, affected, outputs[k], plan.createdAt, ApplyOutputs(plan, outputs)[k])
  {
    var o := outputs[k];
    var move := FindMove(plan.outputs, o.version);
    if move.Some? {
      var p :| p in outputs && p.version in affected && Moves(p, plan.source, move.value);
      var j :| 0 <= j < |outputs| && outputs[j] == p;
      assert j == k;
    } else if o.version in affected {
      NoMoveDue(plan, affected, outputs, evidence, o);
    }
  }

  /**
    So every output that depended on the source can be verified again on fresh evidence, and even promoted, while
    the source's own output never can, whatever is offered.
   */
  lemma OnlyDependentsRecover(plan: Plan, affected: set<VersionId>, outputs: seq<Output>, evidence: seq<Evidence>, k: nat,
                              requests: seq<Request>)
    requires Plans(plan, affected, outputs, evidence) && DistinctVersions(outputs)
    requires k < |outputs| && outputs[k].version in affected
    requires outputs[k].state !in {OutputState.Rejected, Superseded, Invalidated}
    ensures var o := ApplyOutputs(plan, outputs)[k];
            if outputs[k].version == plan.source
            then AllAllowed(o, requests) ==> After(o, requests).state in {Invalidated, Superseded}
            else
              && (var again := Through(o, [Verified]); AllAllowed(o, again) && After(o, again).state == Verified)
              && (var again := Through(o, [Verified, ApprovedOutput, CommittedOutput, Promoted]);
                  AllAllowed(o, again) && After(o, again).state == Promoted)
  {
    hide Plans, ApplyToOutput, AllAllowed, After, Through;
    StatesAfterPlan(plan, affected, outputs, evidence, k);
    var o := ApplyOutputs(plan, outputs)[k];
    if outputs[k].version != plan.source {
      StaleCanRecover(o);
    } else if AllAllowed(o, requests) {
      InvalidatedIsLost(o, requests);
    }
  }

  /** After the plan is applied, every affected output is shut and every other one is as it was. */
  lemma AffectedOutputsShut(plan: Plan, affected: set<VersionId>, outputs: seq<Output>, evidence: seq<Evidence>)
    requires Plans(plan, affected, outputs, evidence) && DistinctVersions(outputs)
    ensures forall k :: 0 <= k < |outputs| ==>
              var o := ApplyOutputs(plan, outputs)[k];
              && o.version == outputs[k].version
              && (o.version in affected ==> Shut(o.state))
              && (o.version == plan.source && o.version in affected ==> o.state != StaleOutput)
              && (o.version !in affected ==> o.state == outputs[k].state)
  {
    hide Plans;
    forall k | 0 <= k < |outputs|
      ensures var o := ApplyToOutput(plan, outputs[k]);
              && o.version == outputs[k].version
              && (o.version in affected ==> Shut(o.state))
              && (o.version == plan.source && o.version in affected ==> o.state != StaleOutput)
              && (o.version !in affected ==> o.state == outputs[k].state)
    {
      DueMove(plan, affected, outputs, evidence, k);
      PlannedMovesAreLegal(outputs[k].version, plan.source, outputs[k].state);
    }
  }

  /** And every record of evidence about an affected version is stale. */
  lemma AffectedEvidenceStale(
    plan: Plan, affected: set<VersionId>, outputs: seq<Output>, evidence: seq<Evidence>, v: VersionId)
    requires Plans(plan, affected, outputs, evidence) && v in affected
    ensures AllStale(ApplyEvidence(plan, evidence), v)
  {
    hide TargetState;
    var applied := ApplyEvidence(plan, evidence);
    forall e | e in applied && e.subject == v ensures e.verdict == Stale {
      var k :| 0 <= k < |applied| && applied[k] == e;
      var old' := evidence[k];
      assert e == ApplyToEvidence(plan, old');
      if old'.verdict != Stale {
        var t := EvidenceTransition(old'.id, old'.subject, old'.verdict);
        assert old' in evidence && Stales(old', t);
        assert t in plan.evidence;
      }
    }
  }

  /** Record ids are the primary key of the evidence; then exactly the records about affected versions go stale. */
  lemma EvidenceAfterPlan(plan: Plan, affected: set<VersionId>, outputs: seq<Output>, evidence: seq<Evidence>, k: nat)
    requires Plans(plan, affected, outputs, evidence) && k < |evidence|
    requires forall i, j :: 0 <= i < j < |evidence| ==> evidence[i].id != evidence[j].id
    ensures ApplyEvidence(plan, evidence)[k]
         == if evidence[k].subject in affected then evidence[k].(verdict := Stale) else evidence[k]
  {
    hide TargetState;
    var e := evidence[k];
    if e.subject in affected && e.verdict != Stale {
      var due := EvidenceTransition(e.id, e.subject, e.verdict);
      assert Stales(e, due);
      assert due in plan.evidence;
    }
    if t :| t in plan.evidence && t.id == e.id {
      var other :| other in evidence && other.subject in affected && Stales(other, t);
      var j :| 0 <= j < |evidence| && evidence[j] == other;
      assert j == k;
    }
  }

  /** Every evidence policy denies every affected version on the evidence the plan leaves, at any time. */
  lemma EveryPolicyDenies(plan: Plan, affected: set<VersionId>, outputs: seq<Output>, evidence: seq<Evidence>,
                          v: VersionId, policy: Policy, now: int)
    requires Plans(plan, affected, outputs, evidence) && v in affected && ValidPolicy(policy)
    ensures !PolicyHolds(policy, ApplyEvidence(plan, evidence), v, now)
  {
    AffectedEvidenceStale(plan, affected, outputs, evidence, v);
    StaleDenies(policy, ApplyEvidence(plan, evidence), v, now);
  }

  /** Everything a request says about a version is what the plan left. */
  predicate OnlyOldEvidence(request: Request, evidence: seq<Evidence>, v: VersionId) {
    forall e :: e in request.evidence && e.subject == v ==> e in evidence
  }

  /**
    The promotion gate is closed: no sequence of allowed transitions of an affected output that offers
    only the evidence the plan left ever leaves the shut states, so none verifies, commits or promotes.
   */
  lemma GateClosed(plan: Plan, affected: set<VersionId>, outputs: seq<Output>, evidence: seq<Evidence>,
                   k: nat, requests: seq<Request>)
    requires Plans(plan, affected, outputs, evidence) && DistinctVersions(outputs)
    requires k < |outputs| && outputs[k].version in affected
    requires AllAllowed(ApplyOutputs(plan, outputs)[k], requests)
    requires forall n :: 0 <= n < |requests| ==>
               OnlyOldEvidence(requests[n], ApplyEvidence(plan, evidence), outputs[k].version)
    ensures Shut(After(ApplyOutputs(plan, outputs)[k], requests).state)
  {
    hide Plans, AllAllowed, After, ApplyToOutput, ApplyToEvidence;
    AffectedOutputsShut(plan, affected, outputs, evidence);
    AffectedEvidenceStale(plan, affected, outputs, evidence, outputs[k].version);
    ShutStaysShut(ApplyOutputs(plan, outputs)[k], requests);
  }

  /** Planning again on what the plan left finds nothing more to do. */
  lemma ReplanIsEmpty(plan: Plan, again: Plan, affected: set<VersionId>, outputs: seq<Output>, evidence: seq<Evidence>)
    requires Plans(plan, affected, outputs, evidence) && DistinctVersions(outputs)
    requires again.source == plan.source
    requires Plans(again, affected, ApplyOutputs(plan, outputs), ApplyEvidence(plan, evidence))
    ensures again.outputs == [] && again.evidence == []
  {
    hide TargetState, ApplyToEvidence;
    if again.outputs != [] {
      assert again.outputs[0] in again.outputs;
      var o :| o in ApplyOutputs(plan, outputs) && o.version in affected && Moves(o, plan.source, again.outputs[0]);
      var k :| 0 <= k < |outputs| && ApplyOutputs(plan, outputs)[k] == o;
      DueMove(plan, affected, outputs, evidence, k);
      PlannedMovesAreLegal(o.version, plan.source, outputs[k].state);
      assert false;
    }
    if again.evidence != [] {
      assert again.evidence[0] in again.evidence;
      var e :| e in ApplyEvidence(plan, evidence) && e.subject in affected && Stales(e, again.evidence[0]);
      AffectedEvidenceStale(plan, affected, outputs, evidence, e.subject);
      assert false;
    }
  }
}
