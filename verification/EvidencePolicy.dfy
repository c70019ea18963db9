/**
  Evidence policies (packages/lifecycle/src/evidence-policy.ts): when a record still speaks for the
  version it is about, and whether a set of records satisfies a policy.
 */
module EvidencePolicy {
  import opened Tables

  datatype EvidenceVerdict = Pass | Fail | Stale | Unknown

  /** `intact` is whether the stored fingerprint equals the one recomputed from the record's scope. */
  datatype Evidence = Evidence(
    id: nat,
    subject: nat,
    verifierType: nat,
    verifierVersion: nat,
    environment: Option<nat>,
    dependencies: seq<nat>,
    policyVersion: Option<nat>,
    verdict: EvidenceVerdict,
    confidence: Option<real>,
    intact: bool,
    createdAt: int,
    expiresAt: Option<int>)

  /** An absent field does not constrain; `Some(None)` asks for the field to be absent from the record. */
  datatype Requirement = Requirement(
    id: nat,
    verifierType: nat,
    verifierVersion: Option<nat>,
    environment: Option<Option<nat>>,
    dependencies: Option<seq<nat>>,
    policyVersion: Option<Option<nat>>,
    maxAge: Option<nat>,
    minimumConfidence: Option<real>)

  datatype Policy = Policy(id: nat, version: nat, required: seq<Requirement>)

  /** The policy schema: at least one requirement, no id twice. */
  predicate ValidPolicy(policy: Policy) {
    && policy.required != []
    && forall i, j :: 0 <= i < j < |policy.required| ==> policy.required[i].id != policy.required[j].id
  }

  // -------------------------------------------------------------------------- freshness

  datatype StaleReason =
    | ExplicitlyStale
    | FingerprintMismatch
    | SubjectVersionChanged
    | VerifierVersionChanged
    | EnvironmentChanged
    | DependenciesChanged
    | PolicyChanged
    | CreatedInFuture
    | Expired
    | MaxAgeExceeded

  function If(condition: bool, reason: StaleReason): seq<StaleReason> {
    if condition then [reason] else []
  }

  /** The policy version a requirement insists on: its own, or that of the policy. */
  function ExpectedPolicy(requirement: Requirement, policy: Policy): Option<nat> {
    if requirement.policyVersion.Some? then requirement.policyVersion.value else Some(policy.version)
  }

  function Staleness(e: Evidence, requirement: Requirement, policy: Policy, subject: nat, now: int): seq<StaleReason> {
    OutOfScope(e, requirement, policy, subject) + OutOfTime(e, requirement, now)
  }

  /** The record is damaged, or about something else. */
  function OutOfScope(e: Evidence, requirement: Requirement, policy: Policy, subject: nat): seq<StaleReason> {
    If(e.verdict == Stale, ExplicitlyStale)
    + If(!e.intact, FingerprintMismatch)
    + If(e.subject != subject, SubjectVersionChanged)
    + If(requirement.verifierVersion.Some? && e.verifierVersion != requirement.verifierVersion.value,
         VerifierVersionChanged)
    + If(requirement.environment.Some? && e.environment != requirement.environment.value, EnvironmentChanged)
    + If(requirement.dependencies.Some? && multiset(e.dependencies) != multiset(requirement.dependencies.value),
         DependenciesChanged)
    + If(e.policyVersion != ExpectedPolicy(requirement, policy), PolicyChanged)
  }

  function OutOfTime(e: Evidence, requirement: Requirement, now: int): seq<StaleReason> {
    If(e.createdAt > now, CreatedInFuture)
    + If(e.expiresAt.Some? && e.expiresAt.value <= now, Expired)
    + If(requirement.maxAge.Some? && now - e.createdAt > requirement.maxAge.value * 1000, MaxAgeExceeded)
  }

  predicate Fresh(e: Evidence, requirement: Requirement, policy: Policy, subject: nat, now: int) {
    Staleness(e, requirement, policy, subject, now) == []
  }

  predicate Confident(e: Evidence, requirement: Requirement) {
    requirement.minimumConfidence.Some? ==>
      (if e.confidence.Some? then e.confidence.value else 0.0) >= requirement.minimumConfidence.value
  }

  // ------------------------------------------------------------------------- evaluation

  datatype FailureKind = Missing | StaleEvidence | Failed | Inconclusive | LowConfidence

  datatype Failure = Failure(requirement: nat, kind: FailureKind)

  datatype Evaluation = Evaluation(matched: seq<nat>, failures: seq<Failure>)

  predicate Approved(evaluation: Evaluation) {
    evaluation.failures == []
  }

  predicate Candidate(e: Evidence, requirement: Requirement, subject: nat) {
    e.subject == subject && e.verifierType == requirement.verifierType
  }

  /** The record a requirement would accept, stated on its own. */
  predicate Satisfies(e: Evidence, requirement: Requirement, policy: Policy, subject: nat, now: int) {
    && Candidate(e, requirement, subject)
    && Fresh(e, requirement, policy, subject, now)
    && e.verdict == Pass
    && Confident(e, requirement)
  }

  ghost predicate Satisfied(evidence: seq<Evidence>, requirement: Requirement, policy: Policy, subject: nat, now: int) {
    exists e :: e in evidence && Satisfies(e, requirement, policy, subject, now)
  }

  predicate Usable(
    evidence: seq<Evidence>, e: Evidence, requirement: Requirement, policy: Policy, subject: nat, now: int)
  {
    e in evidence && Candidate(e, requirement, subject) && Fresh(e, requirement, policy, subject, now)
  }

  /** Why a requirement fails on records none of which it accepts (evidence-policy.ts:215-277). */
  ghost predicate FailsWith(
    evidence: seq<Evidence>, requirement: Requirement, policy: Policy, subject: nat, now: int, kind: FailureKind)
  {
    match kind
    case Missing => forall e :: e in evidence ==> !Candidate(e, requirement, subject)
    case StaleEvidence =>
      && (exists e :: e in evidence && Candidate(e, requirement, subject))
      && (forall e :: !Usable(evidence, e, requirement, policy, subject, now))
    case LowConfidence =>
      exists e :: Usable(evidence, e, requirement, policy, subject, now) && e.verdict == Pass && !Confident(e, requirement)
    case Failed =>
      && (exists e :: Usable(evidence, e, requirement, policy, subject, now) && e.verdict == Fail)
      && (forall e :: Usable(evidence, e, requirement, policy, subject, now) ==> e.verdict != Pass)
    case Inconclusive =>
      && (exists e :: Usable(evidence, e, requirement, policy, subject, now))
      && (forall e :: Usable(evidence, e, requirement, policy, subject, now) ==> e.verdict != Pass && e.verdict != Fail)
  }

  /** `id` is that of the first record that the requirement accepts. */
  ghost predicate FirstAccepted(
    evidence: seq<Evidence>, requirement: Requirement, policy: Policy, subject: nat, now: int, id: nat)
  {
    exists k ::
      && 0 <= k < |evidence| && Satisfies(evidence[k], requirement, policy, subject, now) && evidence[k].id == id
      && forall j :: 0 <= j < k ==> !Satisfies(evidence[j], requirement, policy, subject, now)
  }

  /** The candidates that are fresh, in order; `places` says where they come from. */
  method FreshCandidates(evidence: seq<Evidence>, requirement: Requirement, policy: Policy, subject: nat, now: int)
    returns (current: seq<Evidence>, any: bool, ghost places: seq<nat>)
    ensures any <==> exists e :: e in evidence && Candidate(e, requirement, subject)
    ensures forall e :: e in current <==> Usable(evidence, e, requirement, policy, subject, now)
    ensures PlacedIn(evidence, requirement, policy, subject, now, current, places)
  {
    hide Fresh, Candidate;
    current, any, places := [], false, [];
    for k := 0 to |evidence|
      invariant any <==> exists e :: e in evidence[..k] && Candidate(e, requirement, subject)
      invariant forall e :: e in current <==> Usable(evidence[..k], e, requirement, policy, subject, now)
      invariant PlacedIn(evidence[..k], requirement, policy, subject, now, current, places)
    {
      assert evidence[..k + 1] == evidence[..k] + [evidence[k]];
      if Candidate(evidence[k], requirement, subject) {
        any := true;
        if Fresh(evidence[k], requirement, policy, subject, now) {
          current := current + [evidence[k]];
          places := places + [k];
        }
      }
    }
    assert evidence[..|evidence|] == evidence;
  }

  ghost predicate PlacedIn(evidence: seq<Evidence>, requirement: Requirement, policy: Policy, subject: nat, now: int,
                           current: seq<Evidence>, places: seq<nat>)
  {
    && |places| == |current|
    && (forall i :: 0 <= i < |places| ==> places[i] < |evidence| && current[i] == evidence[places[i]])
    && (forall i, j :: 0 <= i < j < |places| ==> places[i] < places[j])
    && (forall j :: 0 <= j < |evidence| && Usable(evidence, evidence[j], requirement, policy, subject, now) ==>
          j in places)
  }

  /** One requirement against all records, in one pass. */
  method CheckRequirement(evidence: seq<Evidence>, requirement: Requirement, policy: Policy, subject: nat, now: int)
    returns (passing: Option<nat>, failure: Option<FailureKind>)
    ensures passing.Some? <==> Satisfied(evidence, requirement, policy, subject, now)
    ensures passing.Some? ==> FirstAccepted(evidence, requirement, policy, subject, now, passing.value)
    ensures failure.Some? <==> passing.None?
    ensures failure.Some? ==> FailsWith(evidence, requirement, policy, subject, now, failure.value)
  {
    hide Fresh, Confident, PlacedIn, FirstAccepted;
    passing := None;
    var current, any, places := FreshCandidates(evidence, requirement, policy, subject, now);
    if !any {
      return None, Some(Missing);
    }
    var low, failed := false, false;
    for k := 0 to |current|
      invariant forall j :: 0 <= j < k ==> !(current[j].verdict == Pass && Confident(current[j], requirement))
      invariant low <==> exists j :: 0 <= j < k && current[j].verdict == Pass && !Confident(current[j], requirement)
      invariant failed <==> exists j :: 0 <= j < k && current[j].verdict == Fail
    {
      assert current[k] in current;
      if current[k].verdict == Pass && Confident(current[k], requirement) {
        FirstOfCurrent(evidence, requirement, policy, subject, now, current, places, k);
        return Some(current[k].id), None;
      }
      low := low || current[k].verdict == Pass;
      failed := failed || current[k].verdict == Fail;
    }
    failure := Some(if current == [] then StaleEvidence else if low then LowConfidence
                    else if failed then Failed else Inconclusive);
    Explain(evidence, requirement, policy, subject, now, current, low, failed);
  }

  lemma FirstOfCurrent(evidence: seq<Evidence>, requirement: Requirement, policy: Policy, subject: nat, now: int,
                       current: seq<Evidence>, places: seq<nat>, k: nat)
    requires PlacedIn(evidence, requirement, policy, subject, now, current, places) && k < |current|
    requires forall j :: 0 <= j < k ==> !(current[j].verdict == Pass && Confident(current[j], requirement))
    requires Satisfies(current[k], requirement, policy, subject, now)
    ensures FirstAccepted(evidence, requirement, policy, subject, now, current[k].id)
  {
    hide Fresh, Confident, Candidate;
    forall j | 0 <= j < places[k] ensures !Satisfies(evidence[j], requirement, policy, subject, now) {
      assert Usable(evidence, evidence[j], requirement, policy, subject, now)
        <==> Candidate(evidence[j], requirement, subject) && Fresh(evidence[j], requirement, policy, subject, now);
    }
  }

  lemma Explain(evidence: seq<Evidence>, requirement: Requirement, policy: Policy, subject: nat, now: int,
                current: seq<Evidence>, low: bool, failed: bool)
    requires forall e :: e in current <==> Usable(evidence, e, requirement, policy, subject, now)
    requires exists e :: e in evidence && Candidate(e, requirement, subject)
    requires forall e :: e in current ==> !(e.verdict == Pass && Confident(e, requirement))
    requires low <==> exists j :: 0 <= j < |current| && current[j].verdict == Pass && !Confident(current[j], requirement)
    requires failed <==> exists j :: 0 <= j < |current| && current[j].verdict == Fail
    ensures FailsWith(evidence, requirement, policy, subject, now,
                      if current == [] then StaleEvidence else if low then LowConfidence
                      else if failed then Failed else Inconclusive)
  {
    hide Usable, Confident, Candidate;
    if current != [] {
      assert current[0] in current;
      if low {
        var j :| 0 <= j < |current| && current[j].verdict == Pass && !Confident(current[j], requirement);
        assert current[j] in current;
      } else if failed {
        var j :| 0 <= j < |current| && current[j].verdict == Fail;
        assert current[j] in current;
      }
    }
  }

  /** One record for every requirement that finds one: its first; in the order of the requirements. */
  ghost predicate MatchedIn(
    matched: seq<nat>, required: seq<Requirement>, policy: Policy, evidence: seq<Evidence>, subject: nat, now: int)
  {
    if required == [] then matched == []
    else
      var init, last := required[..|required| - 1], required[|required| - 1];
      if Satisfied(evidence, last, policy, subject, now)
      then matched != [] && FirstAccepted(evidence, last, policy, subject, now, matched[|matched| - 1])
           && MatchedIn(matched[..|matched| - 1], init, policy, evidence, subject, now)
      else MatchedIn(matched, init, policy, evidence, subject, now)
  }

  /** One failure, of the right kind, for every requirement that finds none. */
  ghost predicate FailedIn(
    failures: seq<Failure>, required: seq<Requirement>, policy: Policy, evidence: seq<Evidence>, subject: nat, now: int)
  {
    if required == [] then failures == []
    else
      var init, last := required[..|required| - 1], required[|required| - 1];
      if Satisfied(evidence, last, policy, subject, now) then FailedIn(failures, init, policy, evidence, subject, now)
      else
        && failures != [] && failures[|failures| - 1].requirement == last.id
        && FailsWith(evidence, last, policy, subject, now, failures[|failures| - 1].kind)
        && FailedIn(failures[..|failures| - 1], init, policy, evidence, subject, now)
  }

  lemma {:induction false} FailuresMean(
    failures: seq<Failure>, required: seq<Requirement>, policy: Policy, evidence: seq<Evidence>, subject: nat, now: int)
    requires FailedIn(failures, required, policy, evidence, subject, now)
    ensures failures == [] <==> forall r :: r in required ==> Satisfied(evidence, r, policy, subject, now)
    ensures forall f :: f in failures ==>
              exists r :: r in required && r.id == f.requirement && FailsWith(evidence, r, policy, subject, now, f.kind)
    ensures forall r :: r in required && !Satisfied(evidence, r, policy, subject, now) ==>
              exists f :: f in failures && f.requirement == r.id
  {
    hide Satisfied, FailsWith;
    if required != [] {
      var init, last := required[..|required| - 1], required[|required| - 1];
      assert required == init + [last];
      if Satisfied(evidence, last, policy, subject, now) {
        FailuresMean(failures, init, policy, evidence, subject, now);
      } else {
        FailuresMean(failures[..|failures| - 1], init, policy, evidence, subject, now);
        assert failures == failures[..|failures| - 1] + [failures[|failures| - 1]];
        assert failures[|failures| - 1] in failures;
        assert last in required;
      }
    }
  }

  /** A policy approves exactly when each requirement finds a record of its own to accept. */
  method EvaluateEvidencePolicy(policy: Policy, evidence: seq<Evidence>, subject: nat, now: int)
    returns (evaluation: Evaluation)
    ensures Approved(evaluation) <==> PolicyHolds(policy, evidence, subject, now)
    ensures MatchedIn(evaluation.matched, policy.required, policy, evidence, subject, now)
    ensures FailedIn(evaluation.failures, policy.required, policy, evidence, subject, now)
  {
    hide Satisfied, FailsWith, Satisfies, FirstAccepted;
    var matched: seq<nat>, failures: seq<Failure> := [], [];
    for k := 0 to |policy.required|
      invariant MatchedIn(matched, policy.required[..k], policy, evidence, subject, now)
      invariant FailedIn(failures, policy.required[..k], policy, evidence, subject, now)
    {
      assert policy.required[..k + 1][..k] == policy.required[..k];
      var passing, failure := CheckRequirement(evidence, policy.required[k], policy, subject, now);
      if passing.Some? {
        matched := matched + [passing.value];
        assert matched[..|matched| - 1] + [passing.value] == matched;
      } else {
        failures := failures + [Failure(policy.required[k].id, failure.value)];
        assert failures[..|failures| - 1] + [failures[|failures| - 1]] == failures;
      }
    }
    assert policy.required[..|policy.required|] == policy.required;
    FailuresMean(failures, policy.required, policy, evidence, subject, now);
    evaluation := Evaluation(matched, failures);
  }

  ghost predicate PolicyHolds(policy: Policy, evidence: seq<Evidence>, subject: nat, now: int) {
    forall r :: r in policy.required ==> Satisfied(evidence, r, policy, subject, now)
  }

  // --------------------------------------------------------------------------- acceptance

  /** What is wrong with a record, reason by reason. */
  predicate StaleBy(
    reason: StaleReason, e: Evidence, requirement: Requirement, policy: Policy, subject: nat, now: int)
  {
    match reason
    case ExplicitlyStale => e.verdict == Stale
    case FingerprintMismatch => !e.intact
    case SubjectVersionChanged => e.subject != subject
    case VerifierVersionChanged => requirement.verifierVersion !in {None, Some(e.verifierVersion)}
    case EnvironmentChanged => requirement.environment !in {None, Some(e.environment)}
    case DependenciesChanged =>
      requirement.dependencies.Some? && multiset(requirement.dependencies.value) != multiset(e.dependencies)
    case PolicyChanged =>
      if requirement.policyVersion == None then e.policyVersion != Some(policy.version)
      else requirement.policyVersion != Some(e.policyVersion)
    case CreatedInFuture => now < e.createdAt
    case Expired => e.expiresAt.Some? && now >= e.expiresAt.value
    case MaxAgeExceeded => requirement.maxAge.Some? && now > e.createdAt + 1000 * requirement.maxAge.value
  }

  /** The reasons listed are exactly those that apply. */
  lemma ReasonsApply(
    reason: StaleReason, e: Evidence, requirement: Requirement, policy: Policy, subject: nat, now: int)
    ensures reason in Staleness(e, requirement, policy, subject, now)
       <==> StaleBy(reason, e, requirement, policy, subject, now)
  {
    hide OutOfScope, OutOfTime;
    ScopeReasons(reason, e, requirement, policy, subject, now);
    TimeReasons(reason, e, requirement, policy, subject, now);
  }

  predicate TimeReason(reason: StaleReason) {
    reason in {CreatedInFuture, Expired, MaxAgeExceeded}
  }

  lemma ScopeReasons(
    reason: StaleReason, e: Evidence, requirement: Requirement, policy: Policy, subject: nat, now: int)
    ensures reason in OutOfScope(e, requirement, policy, subject)
       <==> !TimeReason(reason) && StaleBy(reason, e, requirement, policy, subject, now)
  {
    hide If, ExpectedPolicy;
    IfIn(e.verdict == Stale, ExplicitlyStale, reason);
    IfIn(!e.intact, FingerprintMismatch, reason);
    IfIn(e.subject != subject, SubjectVersionChanged, reason);
    IfIn(requirement.verifierVersion.Some? && e.verifierVersion != requirement.verifierVersion.value,
         VerifierVersionChanged, reason);
    IfIn(requirement.environment.Some? && e.environment != requirement.environment.value, EnvironmentChanged, reason);
    IfIn(requirement.dependencies.Some? && multiset(e.dependencies) != multiset(requirement.dependencies.value),
         DependenciesChanged, reason);
    IfIn(e.policyVersion != ExpectedPolicy(requirement, policy), PolicyChanged, reason);
    PolicyExpected(requirement, policy, e.policyVersion);
  }

  lemma TimeReasons(
    reason: StaleReason, e: Evidence, requirement: Requirement, policy: Policy, subject: nat, now: int)
    ensures reason in OutOfTime(e, requirement, now)
       <==> TimeReason(reason) && StaleBy(reason, e, requirement, policy, subject, now)
  {
  }

  lemma IfIn(condition: bool, reason: StaleReason, other: StaleReason)
    ensures other in If(condition, reason) <==> condition && other == reason
  {
  }

  lemma PolicyExpected(requirement: Requirement, policy: Policy, version: Option<nat>)
    ensures version != ExpectedPolicy(requirement, policy) <==>
              if requirement.policyVersion == None then version != Some(policy.version)
              else requirement.policyVersion != Some(version)
  {
  }

  /** A record is accepted exactly when no reason applies to it, it passes, and it is confident enough. */
  lemma AcceptedExactly(e: Evidence, requirement: Requirement, policy: Policy, subject: nat, now: int)
    ensures Satisfies(e, requirement, policy, subject, now) <==>
              && (forall reason :: !StaleBy(reason, e, requirement, policy, subject, now))
              && e.verifierType == requirement.verifierType
              && e.verdict == Pass
              && (requirement.minimumConfidence.Some? ==>
                    if e.confidence.Some? then e.confidence.value >= requirement.minimumConfidence.value
                    else requirement.minimumConfidence.value <= 0.0)
  {
    hide Staleness;
    var reasons := Staleness(e, requirement, policy, subject, now);
    if reasons != [] {
      ReasonsApply(reasons[0], e, requirement, policy, subject, now);
    }
    forall reason | StaleBy(reason, e, requirement, policy, subject, now) ensures reason in reasons {
      ReasonsApply(reason, e, requirement, policy, subject, now);
    }
    assert StaleBy(SubjectVersionChanged, e, requirement, policy, subject, now) <==> e.subject != subject;
  }

  /** A record speaks for its version for one stretch of time: from its creation until it expires or is too old. */
  lemma FreshInWindow(
    e: Evidence, requirement: Requirement, policy: Policy, subject: nat, moment: int, now: int)
    requires Fresh(e, requirement, policy, subject, moment)
    ensures Fresh(e, requirement, policy, subject, now) <==>
              && e.createdAt <= now
              && (e.expiresAt.Some? ==> now < e.expiresAt.value)
              && (requirement.maxAge.Some? ==> now <= e.createdAt + 1000 * requirement.maxAge.value)
  {
  }

  // ----------------------------------------------------------------------------- denials

  /** Every record about the subject has been marked stale. */
  predicate AllStale(evidence: seq<Evidence>, subject: nat) {
    forall e :: e in evidence && e.subject == subject ==> e.verdict == Stale
  }

  /** Stale records satisfy no requirement of any policy, at any time. */
  lemma StaleDenies(policy: Policy, evidence: seq<Evidence>, subject: nat, now: int)
    requires ValidPolicy(policy) && AllStale(evidence, subject)
    ensures !PolicyHolds(policy, evidence, subject, now)
  {
    assert !Satisfied(evidence, policy.required[0], policy, subject, now);
  }
}
