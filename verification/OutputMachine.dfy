/** The life cycle of an output (packages/lifecycle/src/output-machine.ts). */
module OutputMachine {
  import opened Tables
  import opened EvidencePolicy

  datatype OutputState =
    | Created
    | Staged
    | Verified
    | ApprovedOutput
    | CommittedOutput
    | Consumed
    | Promoted
    | Rejected
    | StaleOutput
    | Invalidated
    | Superseded

  datatype Output = Output(version: nat, state: OutputState, policyVersion: Option<nat>, updatedAt: int)

  predicate CanMove(from: OutputState, to: OutputState) {
    match from
    case Created => to.Staged? || to.Rejected? || to.StaleOutput? || to.Invalidated?
    case Staged => to.Verified? || to.Rejected? || to.StaleOutput? || to.Invalidated?
    case Verified => to.ApprovedOutput? || to.Rejected? || to.StaleOutput? || to.Invalidated?
    case ApprovedOutput => to.CommittedOutput? || to.Rejected? || to.StaleOutput? || to.Invalidated?
    case CommittedOutput => to.Consumed? || to.Promoted? || to.StaleOutput? || to.Invalidated? || to.Superseded?
    case Consumed => to.Promoted? || to.StaleOutput? || to.Invalidated? || to.Superseded?
    case Promoted => to.StaleOutput? || to.Invalidated? || to.Superseded?
    case Rejected => to.Superseded?
    case StaleOutput => to.Verified? || to.Invalidated? || to.Superseded?
    case Invalidated => to.Superseded?
    case Superseded => false
  }

  datatype Provenance = Provenance(complete: bool, missing: seq<nat>)
  datatype FencingToken = FencingToken(presented: nat, current: nat)
  datatype HeadReservation = HeadReservation(expected: Option<nat>, current: Option<nat>)

  datatype Request = Request(
    to: OutputState,
    occurredAt: int,
    evidence: seq<Evidence>,
    policy: Option<Policy>,
    provenance: Option<Provenance>,
    head: Option<HeadReservation>,
    fence: Option<FencingToken>)

  // ------------------------------------------------------------------------------ guards

  /** The policy guard, when a transition has to pass it. */
  ghost predicate PassesPolicy(output: Output, request: Request) {
    && request.policy.Some?
    && ValidPolicy(request.policy.value)
    && PolicyHolds(request.policy.value, request.evidence, output.version, request.occurredAt)
  }

  predicate FenceCurrent(request: Request) {
    request.fence.Some? && request.fence.value.presented == request.fence.value.current
  }

  ghost predicate Allowed(output: Output, request: Request) {
    && CanMove(output.state, request.to)
    && output.updatedAt <= request.occurredAt
    && (request.to == Verified ==> PassesPolicy(output, request))
    && ((request.to == ApprovedOutput || request.to == Promoted)
        && (output.policyVersion.Some? || request.policy.Some?) ==>
          && PassesPolicy(output, request)
          && (output.policyVersion.Some? ==> output.policyVersion.value == request.policy.value.version))
    && (request.to == CommittedOutput ==>
          && request.provenance.Some? && request.provenance.value.complete && request.provenance.value.missing == []
          && FenceCurrent(request))
    && (request.to == Promoted ==>
          && request.head.Some? && request.head.value.expected == request.head.value.current
          && FenceCurrent(request))
  }

  datatype Refusal =
    | InvalidTransition
    | TimeBackwards
    | PolicyMissing
    | SchemaError
    | EvidenceRequired
    | EvidenceStale
    | PolicyDenied
    | ProvenanceIncomplete
    | FenceMissing
    | FenceStale
    | HeadMissing
    | HeadConflict

  datatype Outcome = Refused(refusal: Refusal) | Moved(output: Output)

  function DenialOf(failures: seq<Failure>): Refusal {
    if exists f :: f in failures && f.kind == Missing then EvidenceRequired
    else if exists f :: f in failures && f.kind == StaleEvidence then EvidenceStale
    else PolicyDenied
  }

  /** Nobody has looked at what the requirement asks for. */
  ghost predicate Unseen(r: Requirement, evidence: seq<Evidence>, subject: nat) {
    forall e :: e in evidence ==> e.subject != subject || e.verifierType != r.verifierType
  }

  /** Somebody has, but no record of it is good any more. */
  ghost predicate Outdated(r: Requirement, policy: Policy, evidence: seq<Evidence>, subject: nat, now: int) {
    && !Unseen(r, evidence, subject)
    && forall e :: e in evidence && e.subject == subject && e.verifierType == r.verifierType ==>
         !Fresh(e, r, policy, subject, now)
  }

  /** The error a failing policy is reported as: missing evidence first, then stale evidence. */
  ghost predicate DeniedAs(policy: Policy, evidence: seq<Evidence>, subject: nat, now: int, refusal: Refusal) {
    && !PolicyHolds(policy, evidence, subject, now)
    && (refusal == EvidenceRequired <==> exists r :: r in policy.required && Unseen(r, evidence, subject))
    && (refusal == EvidenceStale <==>
          && (exists r :: r in policy.required && Outdated(r, policy, evidence, subject, now))
          && !(exists r :: r in policy.required && Unseen(r, evidence, subject)))
    && refusal in {EvidenceRequired, EvidenceStale, PolicyDenied}
  }

  lemma KindsMean(evidence: seq<Evidence>, r: Requirement, policy: Policy, subject: nat, now: int, kind: FailureKind)
    requires FailsWith(evidence, r, policy, subject, now, kind)
    ensures kind == Missing <==> Unseen(r, evidence, subject)
    ensures kind == StaleEvidence <==> Outdated(r, policy, evidence, subject, now)
  {
    hide Fresh, Confident;
    forall e | e in evidence && Candidate(e, r, subject)
      ensures Usable(evidence, e, r, policy, subject, now) <==> Fresh(e, r, policy, subject, now)
    {
    }
  }

  lemma UnseenFails(evidence: seq<Evidence>, r: Requirement, policy: Policy, subject: nat, now: int)
    requires Unseen(r, evidence, subject) || Outdated(r, policy, evidence, subject, now)
    ensures !Satisfied(evidence, r, policy, subject, now)
  {
    hide Fresh, Confident;
  }

  lemma DenialMeans(policy: Policy, evidence: seq<Evidence>, subject: nat, now: int, failures: seq<Failure>)
    requires ValidPolicy(policy) && failures != [] && !PolicyHolds(policy, evidence, subject, now)
    requires forall f :: f in failures ==>
               exists r :: r in policy.required && r.id == f.requirement
                           && FailsWith(evidence, r, policy, subject, now, f.kind)
    requires forall r :: r in policy.required && !Satisfied(evidence, r, policy, subject, now) ==>
               exists f :: f in failures && f.requirement == r.id
    ensures DeniedAs(policy, evidence, subject, now, DenialOf(failures))
  {
    hide FailsWith, Satisfied, Unseen, Outdated, PolicyHolds;
    forall r | r in policy.required
      ensures Unseen(r, evidence, subject) ==> exists f :: f in failures && f.kind == Missing
      ensures Outdated(r, policy, evidence, subject, now) ==> exists f :: f in failures && f.kind == StaleEvidence
    {
      if Unseen(r, evidence, subject) || Outdated(r, policy, evidence, subject, now) {
        UnseenFails(evidence, r, policy, subject, now);
        var f :| f in failures && f.requirement == r.id;
        var q :| q in policy.required && q.id == f.requirement && FailsWith(evidence, q, policy, subject, now, f.kind);
        assert q == r;
        KindsMean(evidence, r, policy, subject, now, f.kind);
      }
    }
    forall f | f in failures
      ensures f.kind == Missing ==> exists r :: r in policy.required && Unseen(r, evidence, subject)
      ensures f.kind == StaleEvidence ==>
                exists r :: r in policy.required && Outdated(r, policy, evidence, subject, now)
    {
      var r :| r in policy.required && r.id == f.requirement && FailsWith(evidence, r, policy, subject, now, f.kind);
      KindsMean(evidence, r, policy, subject, now, f.kind);
    }
  }

  /** Why the policy guard refuses. */
  ghost predicate PolicyRefusal(output: Output, request: Request, refusal: Refusal) {
    if request.policy.None? then refusal == PolicyMissing
    else if !ValidPolicy(request.policy.value) then refusal == SchemaError
    else DeniedAs(request.policy.value, request.evidence, output.version, request.occurredAt, refusal)
  }

  method RequireEvidencePolicy(output: Output, request: Request) returns (refusal: Option<Refusal>)
    ensures refusal.None? <==> PassesPolicy(output, request)
    ensures refusal.Some? ==> PolicyRefusal(output, request, refusal.value)
  {
    hide PolicyHolds, FailsWith, Satisfied, Satisfies, DeniedAs, DenialOf, MatchedIn, FailedIn;
    if request.policy.None? {
      return Some(PolicyMissing);
    }
    var policy := request.policy.value;
    if !ValidPolicy(policy) {
      return Some(SchemaError);
    }
    var evaluation := EvaluateEvidencePolicy(policy, request.evidence, output.version, request.occurredAt);
    refusal := None;
    if !Approved(evaluation) {
      FailuresMean(evaluation.failures, policy.required, policy, request.evidence, output.version, request.occurredAt);
      DenialMeans(policy, request.evidence, output.version, request.occurredAt, evaluation.failures);
      refusal := Some(DenialOf(evaluation.failures));
    }
  }

  /** Provenance, or the head, is in order. */
  predicate ReadyForFence(request: Request) {
    || (request.to == CommittedOutput && request.provenance == Some(Provenance(true, [])))
    || (request.to == Promoted && request.head.Some? && request.head.value.expected == request.head.value.current)
  }

  /** The error of the first guard that fails. */
  ghost predicate RefusedAs(output: Output, request: Request, refusal: Refusal) {
    var checked := request.to == Verified
                   || ((request.to == ApprovedOutput || request.to == Promoted)
                       && (output.policyVersion.Some? || request.policy.Some?));
    if !CanMove(output.state, request.to) then refusal == InvalidTransition
    else if request.occurredAt < output.updatedAt then refusal == TimeBackwards
    else if checked && !PassesPolicy(output, request) then PolicyRefusal(output, request, refusal)
    else
      match refusal
      case PolicyDenied =>
        && request.to != Verified && request.policy.Some?
        && output.policyVersion.Some? && output.policyVersion.value != request.policy.value.version
      case ProvenanceIncomplete =>
        request.to == CommittedOutput && (request.provenance.None? || !request.provenance.value.complete)
      case SchemaError =>
        && request.to == CommittedOutput
        && request.provenance.Some? && request.provenance.value.complete && request.provenance.value.missing != []
      case HeadMissing => request.to == Promoted && request.head.None?
      case HeadConflict =>
        request.to == Promoted && request.head.Some? && request.head.value.expected != request.head.value.current
      case FenceMissing => ReadyForFence(request) && request.fence.None?
      case FenceStale =>
        && ReadyForFence(request)
        && request.fence.Some? && request.fence.value.presented != request.fence.value.current
      case _ => false
  }

  /** The guards in the order of the source; whichever fails first throws. */
  method TransitionOutput(output: Output, request: Request) returns (outcome: Outcome)
    ensures outcome.Moved? <==> Allowed(output, request)
    ensures outcome.Moved? ==> outcome.output == output.(state := request.to, updatedAt := request.occurredAt)
    ensures outcome.Refused? ==> RefusedAs(output, request, outcome.refusal)
  {
    hide PassesPolicy, PolicyRefusal;
    if !CanMove(output.state, request.to) {
      return Refused(InvalidTransition);
    }
    if request.occurredAt < output.updatedAt {
      return Refused(TimeBackwards);
    }
    if request.to == Verified {
      var refusal := RequireEvidencePolicy(output, request);
      if refusal.Some? {
        return Refused(refusal.value);
      }
    }
    if (request.to == ApprovedOutput || request.to == Promoted)
       && (output.policyVersion.Some? || request.policy.Some?) {
      var refusal := RequireEvidencePolicy(output, request);
      if refusal.Some? {
        return Refused(refusal.value);
      }
      PolicyGiven(output, request);
      if output.policyVersion.Some? && output.policyVersion.value != request.policy.value.version {
        return Refused(PolicyDenied);
      }
    }
    if request.to == CommittedOutput {
      if request.provenance.None? || !request.provenance.value.complete {
        return Refused(ProvenanceIncomplete);
      }
      if request.provenance.value.missing != [] {
        return Refused(SchemaError);
      }
    }
    if request.to == Promoted {
      if request.head.None? {
        return Refused(HeadMissing);
      }
      if request.head.value.expected != request.head.value.current {
        return Refused(HeadConflict);
      }
    }
    if request.to == CommittedOutput || request.to == Promoted {
      if request.fence.None? {
        return Refused(FenceMissing);
      }
      if request.fence.value.presented != request.fence.value.current {
        return Refused(FenceStale);
      }
    }
    outcome := Moved(output.(state := request.to, updatedAt := request.occurredAt));
  }

  lemma PolicyGiven(output: Output, request: Request)
    requires PassesPolicy(output, request)
    ensures request.policy.Some?
  {
  }

  // --------------------------------------------------------------------------- sequences

  /** The output after a sequence of allowed transitions. */
  function After(output: Output, requests: seq<Request>): Output {
    if requests == [] then output
    else
      var last := requests[|requests| - 1];
      After(output, requests[..|requests| - 1]).(state := last.to, updatedAt := last.occurredAt)
  }

  ghost predicate AllAllowed(output: Output, requests: seq<Request>) {
    requests == [] ||
    (AllAllowed(output, requests[..|requests| - 1])
     && Allowed(After(output, requests[..|requests| - 1]), requests[|requests| - 1]))
  }

  predicate MetadataFixed(state: OutputState) {
    || state == CommittedOutput || state == Consumed || state == Promoted
    || state == StaleOutput || state == Invalidated || state == Superseded
  }

  /** Metadata cannot be edited at any point of a sequence. */
  predicate AlwaysFixed(output: Output, requests: seq<Request>) {
    && MetadataFixed(After(output, requests).state)
    && (requests != [] ==> AlwaysFixed(output, requests[..|requests| - 1]))
  }

  predicate Reverified(requests: seq<Request>) {
    requests != [] && (requests[|requests| - 1].to == Verified || Reverified(requests[..|requests| - 1]))
  }

  /** Metadata fixed by a commit stays fixed exactly as long as the output is not verified again. */
  lemma {:induction false} FixedUntilReverified(output: Output, requests: seq<Request>)
    requires AllAllowed(output, requests) && MetadataFixed(output.state)
    ensures AlwaysFixed(output, requests) <==> !Reverified(requests)
  {
    hide Allowed;
    if requests != [] {
      var init, last := requests[..|requests| - 1], requests[|requests| - 1];
      FixedUntilReverified(output, init);
      if AlwaysFixed(output, init) {
        MoveFromFixed(After(output, init), last);
      }
    }
  }

  lemma MoveFromFixed(output: Output, request: Request)
    requires Allowed(output, request) && MetadataFixed(output.state)
    ensures MetadataFixed(request.to) <==> request.to != Verified
  {
    hide PassesPolicy, FenceCurrent;
  }

  /** The policy version that an output insists on, or any. */
  function PolicyVersion(output: Output): nat {
    if output.policyVersion.Some? then output.policyVersion.value else 1
  }

  /** A passing record of the output's version, made now, and a policy that asks for nothing else. */
  function PassingRecord(output: Output, now: int): Evidence {
    Evidence(0, output.version, 0, 0, None, [], Some(PolicyVersion(output)), Pass, None, true, now, None)
  }

  const REQUIREMENT := Requirement(0, 0, None, None, None, None, None, None)

  function PolicyFor(output: Output): Policy {
    Policy(0, PolicyVersion(output), [REQUIREMENT])
  }

  lemma RecordSatisfies(output: Output, now: int)
    ensures Satisfies(PassingRecord(output, now), REQUIREMENT, PolicyFor(output), output.version, now)
  {
  }

  lemma RecordPasses(output: Output, request: Request)
    requires request.policy == Some(PolicyFor(output))
    requires request.evidence == [PassingRecord(output, request.occurredAt)]
    ensures PassesPolicy(output, request)
  {
    hide Satisfies, PassingRecord;
    RecordSatisfies(output, request.occurredAt);
    assert PassingRecord(output, request.occurredAt) in request.evidence;
  }

  /** A request that has everything: fresh evidence, complete provenance, the current head and token. */
  function Good(output: Output, to: OutputState): Request {
    Request(to, output.updatedAt, [PassingRecord(output, output.updatedAt)], Some(PolicyFor(output)),
            Some(Provenance(true, [])), Some(HeadReservation(None, None)), Some(FencingToken(0, 0)))
  }

  /** Any committed output can go stale and be verified again on fresh evidence: its metadata is editable again. */
  lemma EditableAgain(output: Output) returns (requests: seq<Request>)
    requires output.state == CommittedOutput
    ensures AllAllowed(output, requests)
    ensures MetadataFixed(output.state) && !MetadataFixed(After(output, requests).state)
  {
    requests := Through(output, [StaleOutput, Verified]);
    assert Leads(output.state, [StaleOutput]) && Leads(output.state, [StaleOutput, Verified]);
    ThroughAllowed(output, [StaleOutput, Verified]);
  }

  lemma OneStep(output: Output, requests: seq<Request>, request: Request)
    requires AllAllowed(output, requests) && Allowed(After(output, requests), request)
    ensures AllAllowed(output, requests + [request])
    ensures After(output, requests + [request])
         == After(output, requests).(state := request.to, updatedAt := request.occurredAt)
  {
    hide Allowed;
    assert (requests + [request])[..|requests|] == requests;
  }

  /** Good requests for one state after the other. */
  function Through(output: Output, states: seq<OutputState>): (requests: seq<Request>)
    ensures |requests| == |states|
  {
    seq(|states|, k requires 0 <= k < |states| => Good(output, states[k]))
  }

  /** Each of the states may follow the one before it. */
  predicate Leads(from: OutputState, states: seq<OutputState>) {
    states == [] ||
    var init := states[..|states| - 1];
    Leads(from, init) && CanMove(if init == [] then from else init[|init| - 1], states[|states| - 1])
  }

  lemma GoodAllowed(output: Output, current: Output, to: OutputState)
    requires CanMove(current.state, to) && current == output.(state := current.state)
    ensures Allowed(current, Good(output, to))
  {
    hide PassesPolicy, CanMove;
    RecordPasses(current, Good(output, to));
  }

  /** With fresh evidence, complete provenance and current tokens nothing but the table stands in the way. */
  lemma {:induction false} ThroughAllowed(output: Output, states: seq<OutputState>)
    requires Leads(output.state, states)
    ensures AllAllowed(output, Through(output, states))
    ensures After(output, Through(output, states))
         == output.(state := if states == [] then output.state else states[|states| - 1])
  {
    hide Allowed, CanMove;
    if states != [] {
      var init := states[..|states| - 1];
      ThroughAllowed(output, init);
      GoodAllowed(output, After(output, Through(output, init)), states[|states| - 1]);
      OneStep(output, Through(output, init), Good(output, states[|states| - 1]));
      assert Through(output, states) == Through(output, init) + [Good(output, states[|states| - 1])];
    }
  }

  /** The states an output is in before it is in the given one. */
  function Sources(to: OutputState): set<OutputState> {
    match to
    case Created => {}
    case Staged => {OutputState.Created}
    case Verified => {Staged, StaleOutput}
    case ApprovedOutput => {Verified}
    case CommittedOutput => {ApprovedOutput}
    case Consumed => {CommittedOutput}
    case Promoted => {CommittedOutput, Consumed}
    case Rejected => {OutputState.Created, Staged, Verified, ApprovedOutput}
    case StaleOutput => {OutputState.Created, Staged, Verified, ApprovedOutput, CommittedOutput, Consumed, Promoted}
    case Invalidated =>
      {OutputState.Created, Staged, Verified, ApprovedOutput, CommittedOutput, Consumed, Promoted, StaleOutput}
    case Superseded => {CommittedOutput, Consumed, Promoted, OutputState.Rejected, StaleOutput, Invalidated}
  }

  lemma EdgesInto(from: OutputState, to: OutputState)
    ensures CanMove(from, to) <==> from in Sources(to)
  {
  }

  /** A new output can be staged, verified, approved, committed, consumed, promoted and superseded, in this order. */
  lemma FullLife(output: Output)
    requires output.state == OutputState.Created
    ensures var life := [Staged, Verified, ApprovedOutput, CommittedOutput, Consumed, Promoted, Superseded];
            forall n :: 0 <= n <= |life| ==>
              && AllAllowed(output, Through(output, life[..n]))
              && After(output, Through(output, life[..n])).state == if n == 0 then OutputState.Created else life[n - 1]
  {
    var life := [Staged, Verified, ApprovedOutput, CommittedOutput, Consumed, Promoted, Superseded];
    LifeLeads(life);
    forall n | 0 <= n <= |life|
      ensures AllAllowed(output, Through(output, life[..n]))
      ensures After(output, Through(output, life[..n])).state == if n == 0 then OutputState.Created else life[n - 1]
    {
      ThroughAllowed(output, life[..n]);
    }
  }

  lemma LifeLeads(life: seq<OutputState>)
    requires life == [Staged, Verified, ApprovedOutput, CommittedOutput, Consumed, Promoted, Superseded]
    ensures forall n :: 0 <= n <= |life| ==> Leads(OutputState.Created, life[..n])
  {
    assert Leads(OutputState.Created, life[..0]);
    for n := 0 to |life|
      invariant forall m :: 0 <= m <= n ==> Leads(OutputState.Created, life[..m])
    {
      assert life[..n + 1][..n] == life[..n];
      assert n > 0 ==> life[..n][n - 1] == life[n - 1];
    }
  }

  // ------------------------------------------------------------------ what a state testifies

  /** Request `k` verified the output, passing its policy at that moment. */
  ghost predicate VerifiedAt(output: Output, requests: seq<Request>, k: int) {
    && 0 <= k < |requests| && requests[k].to == Verified
    && PassesPolicy(After(output, requests[..k]), requests[k])
  }

  /** Request `k` approved it, passing the policy if there is one, in the version the output insists on. */
  ghost predicate ApprovedAt(output: Output, requests: seq<Request>, k: int) {
    && 0 <= k < |requests| && requests[k].to == ApprovedOutput
    && (output.policyVersion.Some? || requests[k].policy.Some? ==>
          PassesPolicy(After(output, requests[..k]), requests[k]))
    && (output.policyVersion.Some? ==>
          requests[k].policy.Some? && requests[k].policy.value.version == output.policyVersion.value)
  }

  ghost predicate CommittedAt(requests: seq<Request>, k: int) {
    && 0 <= k < |requests| && requests[k].to == CommittedOutput
    && requests[k].provenance == Some(Provenance(true, []))
    && requests[k].fence.Some? && requests[k].fence.value.presented == requests[k].fence.value.current
  }

  ghost predicate PromotedAt(output: Output, requests: seq<Request>, k: int) {
    && 0 <= k < |requests| && requests[k].to == Promoted
    && requests[k].head.Some? && requests[k].head.value.expected == requests[k].head.value.current
    && requests[k].fence.Some? && requests[k].fence.value.presented == requests[k].fence.value.current
    && (output.policyVersion.Some? || requests[k].policy.Some? ==>
          PassesPolicy(After(output, requests[..k]), requests[k]))
    && (output.policyVersion.Some? ==>
          requests[k].policy.Some? && requests[k].policy.value.version == output.policyVersion.value)
  }

  /** How far the last requests have brought the output since it was verified. */
  ghost predicate Earned(output: Output, requests: seq<Request>, state: OutputState) {
    var n := |requests|;
    match state
    case Verified => VerifiedAt(output, requests, n - 1)
    case ApprovedOutput => VerifiedAt(output, requests, n - 2) && ApprovedAt(output, requests, n - 1)
    case CommittedOutput => CommittedThrough(output, requests, n - 1)
    case Consumed => CommittedThrough(output, requests, n - 2) && requests[n - 1].to == Consumed
    case Promoted =>
      && PromotedAt(output, requests, n - 1)
      && (|| CommittedThrough(output, requests, n - 2)
          || (CommittedThrough(output, requests, n - 3) && requests[n - 2].to == Consumed))
    case _ => true
  }

  ghost predicate CommittedThrough(output: Output, requests: seq<Request>, k: int) {
    VerifiedAt(output, requests, k - 2) && ApprovedAt(output, requests, k - 1) && CommittedAt(requests, k)
  }

  lemma AfterKeeps(output: Output, requests: seq<Request>)
    ensures After(output, requests).version == output.version
    ensures After(output, requests).policyVersion == output.policyVersion
    ensures After(output, requests).state == if requests == [] then output.state else requests[|requests| - 1].to
  {
  }

  lemma EarlierStays(output: Output, requests: seq<Request>, request: Request, k: int)
    ensures VerifiedAt(output, requests, k) ==> VerifiedAt(output, requests + [request], k)
    ensures ApprovedAt(output, requests, k) ==> ApprovedAt(output, requests + [request], k)
    ensures CommittedAt(requests, k) ==> CommittedAt(requests + [request], k)
  {
    hide PassesPolicy, After;
    if 0 <= k < |requests| {
      assert (requests + [request])[..k] == requests[..k];
      assert (requests + [request])[k] == requests[k];
    }
  }

  lemma EarnsNext(output: Output, requests: seq<Request>, request: Request)
    requires Earned(output, requests, After(output, requests).state)
    requires requests == [] ==> output.state == OutputState.Created
    requires Allowed(After(output, requests), request)
    ensures Earned(output, requests + [request], request.to)
  {
    hide PassesPolicy, VerifiedAt, ApprovedAt, CommittedAt, After;
    var n := |requests|;
    var all := requests + [request];
    AfterKeeps(output, requests);
    for k := n - 4 to n
      invariant forall j :: n - 4 <= j < k ==>
                  && (VerifiedAt(output, requests, j) ==> VerifiedAt(output, all, j))
                  && (ApprovedAt(output, requests, j) ==> ApprovedAt(output, all, j))
                  && (CommittedAt(requests, j) ==> CommittedAt(all, j))
    {
      EarlierStays(output, requests, request, k);
    }
    JustNow(output, requests, request);
  }

  lemma JustNow(output: Output, requests: seq<Request>, request: Request)
    requires Allowed(After(output, requests), request)
    ensures var all, n := requests + [request], |requests|;
            && (request.to == Verified ==> VerifiedAt(output, all, n))
            && (request.to == ApprovedOutput ==> ApprovedAt(output, all, n))
            && (request.to == CommittedOutput ==> CommittedAt(all, n))
            && (request.to == Promoted ==> PromotedAt(output, all, n))
  {
    hide PassesPolicy, After, CanMove;
    AfterKeeps(output, requests);
    assert (requests + [request])[..|requests|] == requests;
    if request.to == ApprovedOutput || request.to == Promoted {
      if output.policyVersion.Some? {
        PolicyGiven(After(output, requests), request);
      }
    }
  }

  /**
    Whatever has happened to a new output: if it is committed, consumed or promoted now, the requests that last
    brought it there verified it under its policy, then approved it, then committed it with complete
    provenance and the current token, one directly after the other.
   */
  lemma {:induction false} NothingUnearned(output: Output, requests: seq<Request>)
    requires output.state == OutputState.Created && AllAllowed(output, requests)
    ensures Earned(output, requests, After(output, requests).state)
  {
    hide Allowed, Earned;
    if requests != [] {
      var init, last := requests[..|requests| - 1], requests[|requests| - 1];
      NothingUnearned(output, init);
      EarnsNext(output, init, last);
      AfterKeeps(output, requests);
      assert init + [last] == requests;
    } else {
      NewIsEarned(output);
    }
  }

  lemma NewIsEarned(output: Output)
    requires output.state == OutputState.Created
    ensures Earned(output, [], output.state)
  {
  }

  /** Time never runs backwards along allowed requests. */
  lemma {:induction false} TimesRise(output: Output, requests: seq<Request>)
    requires AllAllowed(output, requests)
    ensures forall i, j :: 0 <= i < j < |requests| ==> requests[i].occurredAt <= requests[j].occurredAt
    ensures forall i :: 0 <= i < |requests| ==> output.updatedAt <= requests[i].occurredAt
    ensures After(output, requests).updatedAt
         == if requests == [] then output.updatedAt else requests[|requests| - 1].occurredAt
  {
    hide PassesPolicy, CanMove;
    if requests != [] {
      TimesRise(output, requests[..|requests| - 1]);
    }
  }

  /** The states in which nothing may be built on an output any more. */
  predicate Shut(state: OutputState) {
    state == StaleOutput || state == Invalidated || state == OutputState.Rejected || state == Superseded
  }

  /** With only stale evidence about it, a shut output stays shut through any sequence of transitions. */
  lemma {:induction false} ShutStaysShut(output: Output, requests: seq<Request>)
    requires AllAllowed(output, requests) && Shut(output.state)
    requires forall k :: 0 <= k < |requests| ==> AllStale(requests[k].evidence, output.version)
    ensures Shut(After(output, requests).state) && After(output, requests).version == output.version
  {
    hide Allowed, AllStale;
    if requests != [] {
      ShutStaysShut(output, requests[..|requests| - 1]);
      ShutStep(After(output, requests[..|requests| - 1]), requests[|requests| - 1]);
    }
  }

  lemma ShutStep(output: Output, request: Request)
    requires Allowed(output, request) && Shut(output.state) && AllStale(request.evidence, output.version)
    ensures Shut(request.to)
  {
    hide PolicyHolds, FenceCurrent;
    if request.to == Verified {
      StaleDenies(request.policy.value, request.evidence, output.version, request.occurredAt);
      assert false;
    }
  }

  /** A stale output can be verified again on fresh evidence, and go all the way to promotion. */
  lemma StaleCanRecover(output: Output)
    requires output.state == StaleOutput
    ensures var requests := Through(output, [Verified]);
            AllAllowed(output, requests) && After(output, requests).state == Verified
    ensures var requests := Through(output, [Verified, ApprovedOutput, CommittedOutput, Promoted]);
            AllAllowed(output, requests) && After(output, requests).state == Promoted
  {
    var way := [Verified, ApprovedOutput, CommittedOutput, Promoted];
    assert way[..1] == [Verified] && way[..1][..0] == [];
    assert way[..2][..1] == way[..1] && way[..3][..2] == way[..2];
    assert Leads(StaleOutput, way[..0]) && Leads(StaleOutput, way[..1]) && Leads(StaleOutput, way[..2]);
    assert Leads(StaleOutput, way[..3]) && Leads(StaleOutput, way);
    ThroughAllowed(output, [Verified]);
    ThroughAllowed(output, way);
  }

  /** An invalidated one cannot, whatever evidence is offered: it can only be superseded. */
  lemma {:induction false} InvalidatedIsLost(output: Output, requests: seq<Request>)
    requires AllAllowed(output, requests)
    requires output.state in {OutputState.Rejected, Invalidated, Superseded}
    ensures After(output, requests).state == output.state || After(output, requests).state == Superseded
  {
    hide PassesPolicy, FenceCurrent;
    if requests != [] {
      InvalidatedIsLost(output, requests[..|requests| - 1]);
    }
  }
}
