/**
  Why the theorem of module NoBlindReentry speaks of one durable job. The status swap carries no
  resource token (apps/worker/src/effects.ts:255-263), so with two jobs on one intent a paused run can
  report an absence it observed before somebody else's attempt, and so reopen the intent after it.
 */
module TwoJobs {
  import opened EffectTable
  import opened Tables
  import opened EffectRuntime
  import opened Protocol
  import opened NoBlindReentry

  const CONNECTOR := Connector(AutomaticWrite, true, true, true, false, false, false)

  const LEASE := 1000

  /** A quiet oracle: nothing fails, and a query finds definitively nothing. */
  const ABSENT := Oracle(NoFault, true, true, LEASE, ExecuteUnknown, NotFound(true), CompensateUnknown)

  /** One more action of an execution whose state is known. */
  lemma Then(actions: seq<Action>, s: State, act: Action) returns (longer: seq<Action>)
    requires Execution(actions) && StateAfter(actions) == s && Enabled(s, act)
    ensures Execution(longer) && StateAfter(longer) == Next(s, act)
  {
    longer := actions + [act];
    assert longer[..|actions|] == actions;
  }

  /** An intent the runs below work on, with no receipt of anything. */
  predicate Workable(s: State, status: Status) {
    && 0 in s.db.intents
    && s.db.intents[0].connector == CONNECTOR && s.db.intents[0].reversibility == R1
    && s.db.intents[0].token.Some? && s.db.intents[0].resource == 0
    && s.db.intents[0].status == status
    && s.db.receipts == [] && s.db.now == 0
  }

  predicate Ready(s: State, j: JobId) {
    Claimable(s.db, j) && s.db.jobs[j].jobType == ReconcileEffect && s.db.jobs[j].intentId == 0
  }

  /** The state in which a fresh run of job `j` stands at `pc`. */
  function AtPc(s: State, j: JobId, pc: Pc): State
    requires Ready(s, j) && 0 in s.db.intents
  {
    var db := ClaimJob(s.db, j, 0, LEASE);
    s.(db := db,
       runs := s.runs + [NewRun(db.jobs[j], j, 0).(local := s.db.intents[0], pc := pc)],
       log := s.log + [Claimed(j, db.jobs[j].token)])
  }

  /** Claim, load and resolve. */
  lemma Resolved(actions: seq<Action>, s: State, j: JobId, status: Status) returns (longer: seq<Action>)
    requires Execution(actions) && StateAfter(actions) == s && Workable(s, status) && Ready(s, j)
    ensures Execution(longer) && StateAfter(longer) == AtPc(s, j, Scan)
  {
    hide Execution, StateAfter, CanTransition, FenceHeld;
    var r := |s.runs|;
    longer := Then(actions, s, Claim(j, 0, LEASE));
    var claimed := Next(s, Claim(j, 0, LEASE));
    longer := Then(longer, claimed, Work(r, ABSENT));
    var loaded := Next(claimed, Work(r, ABSENT));
    assert loaded == AtPc(s, j, Resolve);
    longer := Then(longer, loaded, Work(r, ABSENT));
    assert Next(loaded, Work(r, ABSENT)) == AtPc(s, j, Scan);
  }

  lemma ScanStep(s: State, j: JobId)
    requires Workable(s, ReconciliationRequired) && Ready(s, j)
    ensures Enabled(AtPc(s, j, Scan), Work(|s.runs|, ABSENT))
    ensures Next(AtPc(s, j, Scan), Work(|s.runs|, ABSENT))
         == AtPc(s, j, Transition(ReconciliationRequired, ThenQueryExecution))
  {
    hide FenceHeld, CanTransition;
  }

  lemma MoveStep(s: State, j: JobId)
    requires Workable(s, ReconciliationRequired) && Ready(s, j)
    ensures Enabled(AtPc(s, j, Transition(ReconciliationRequired, ThenQueryExecution)), Work(|s.runs|, ABSENT))
    ensures Next(AtPc(s, j, Transition(ReconciliationRequired, ThenQueryExecution)), Work(|s.runs|, ABSENT))
         == AtPc(s, j, QueryExecution)
  {
    hide FenceHeld, CanTransition;
  }

  function Denying(s: State, j: JobId, pc: Pc): State
    requires Ready(s, j) && 0 in s.db.intents
  {
    AtPc(s, j, pc).(log := AtPc(s, j, pc).log + [Denied(0, |s.runs|)])
  }

  /** A fresh run of `j` has heard that nothing happened, and is about to report it. */
  function Heard(s: State, j: JobId): State
    requires Ready(s, j) && 0 in s.db.intents
  {
    Denying(s, j, Transition(Failed, ThenRaise(true)))
  }

  lemma QueryStep(s: State, j: JobId)
    requires Workable(s, ReconciliationRequired) && Ready(s, j)
    ensures Enabled(AtPc(s, j, QueryExecution), Work(|s.runs|, ABSENT))
    ensures Next(AtPc(s, j, QueryExecution), Work(|s.runs|, ABSENT)) == Denying(s, j, CheckQueried(NotFound(true)))
  {
    hide FenceHeld, CanTransition;
  }

  lemma AnswerStep(s: State, j: JobId)
    requires Workable(s, ReconciliationRequired) && Ready(s, j)
    ensures Enabled(Denying(s, j, CheckQueried(NotFound(true))), Work(|s.runs|, ABSENT))
    ensures Next(Denying(s, j, CheckQueried(NotFound(true))), Work(|s.runs|, ABSENT))
         == Heard(s, j)
  {
    hide CanTransition;
  }

  /** A run that finds the intent in reconciliation asks the connector, and hears that nothing happened. */
  lemma Asked(actions: seq<Action>, s: State, j: JobId) returns (longer: seq<Action>)
    requires Execution(actions) && StateAfter(actions) == s && Workable(s, ReconciliationRequired) && Ready(s, j)
    ensures Execution(longer) && StateAfter(longer) == Heard(s, j)
  {
    hide Execution, StateAfter, Next, Enabled, AtPc, Denying, Ready, FenceHeld;
    var work := Work(|s.runs|, ABSENT);
    longer := Resolved(actions, s, j, ReconciliationRequired);
    ScanStep(s, j);
    longer := Then(longer, AtPc(s, j, Scan), work);
    MoveStep(s, j);
    longer := Then(longer, AtPc(s, j, Transition(ReconciliationRequired, ThenQueryExecution)), work);
    QueryStep(s, j);
    longer := Then(longer, AtPc(s, j, QueryExecution), work);
    AnswerStep(s, j);
    longer := Then(longer, Denying(s, j, CheckQueried(NotFound(true))), work);
  }

  /** The state after a fresh run of `j` has begun the external execution. */
  function Begun(s: State, j: JobId): State
    requires Ready(s, j) && 0 in s.db.intents
  {
    Next(AtPc(s, j, Begin(Executing)), Work(|s.runs|, ABSENT))
  }

  lemma StartStep(s: State, j: JobId)
    requires Workable(s, Failed) && Ready(s, j)
    ensures Enabled(AtPc(s, j, Scan), Work(|s.runs|, ABSENT))
    ensures Enabled(AtPc(s, j, Begin(Executing)), Work(|s.runs|, ABSENT))
    ensures Next(AtPc(s, j, Scan), Work(|s.runs|, ABSENT)) == AtPc(s, j, Begin(Executing))
  {
    hide FenceHeld, CanTransition;
  }

  /** A run that finds the intent FAILED begins the external execution again. */
  lemma Started(actions: seq<Action>, s: State, j: JobId) returns (longer: seq<Action>)
    requires Execution(actions) && StateAfter(actions) == s && Workable(s, Failed) && Ready(s, j)
    ensures Execution(longer) && StateAfter(longer) == Begun(s, j)
  {
    hide Execution, StateAfter, Next, Enabled, AtPc, Ready, FenceHeld;
    longer := Resolved(actions, s, j, Failed);
    StartStep(s, j);
    longer := Then(longer, AtPc(s, j, Scan), Work(|s.runs|, ABSENT));
    longer := Then(longer, AtPc(s, j, Begin(Executing)), Work(|s.runs|, ABSENT));
  }

  // --------------------------------------------------------------- what each phase leaves

  /** A live run of job `j` about to report that nothing happened. */
  predicate Poised(s: State, r: nat, j: JobId) {
    && r < |s.runs| && s.runs[r].jobId == j && s.runs[r].intentId == 0
    && s.runs[r].local.status == ReconciliationRequired
    && s.runs[r].pc == Transition(Failed, ThenRaise(true)) && !s.runs[r].guarded
    && FenceHeld(s.db, FenceOf(s.runs[r]))
  }

  /** Everything but job `j` is as it was, and earlier runs are too. */
  predicate Elsewhere(s: State, t: State, j: JobId) {
    && (forall k :: k in s.db.jobs && k != j ==> k in t.db.jobs && t.db.jobs[k] == s.db.jobs[k])
    && |s.runs| <= |t.runs|
    && (forall r :: 0 <= r < |s.runs| && s.runs[r].jobId != j ==> t.runs[r] == s.runs[r])
  }

  lemma ElsewhereKeeps(s: State, t: State, j: JobId, r: nat, k: JobId)
    requires Elsewhere(s, t, j) && k != j && t.db.now == s.db.now
    ensures Poised(s, r, k) ==> Poised(t, r, k)
    ensures Ready(s, k) ==> Ready(t, k)
    ensures forall n, max :: Attempt(s, k, n, max) ==> Attempt(t, k, n, max)
  {
  }

  /** A claimed attempt number, and whether it is the last. */
  predicate Attempt(s: State, j: JobId, attempts: int, maxAttempts: int) {
    j in s.db.jobs && s.db.jobs[j].attempts == attempts && s.db.jobs[j].maxAttempts == maxAttempts
    && EffectJob(s.db.jobs[j]) && s.db.jobs[j].jobType == ReconcileEffect && s.db.jobs[j].intentId == 0
  }

  lemma AskLeaves(s: State, j: JobId, n: nat, max: nat)
    requires Workable(s, ReconciliationRequired) && Ready(s, j) && Attempt(s, j, n, max)
    ensures var t := Heard(s, j);
            && Workable(t, ReconciliationRequired) && Poised(t, |s.runs|, j) && |t.runs| == |s.runs| + 1
            && Elsewhere(s, t, j) && Attempt(t, j, n + 1, max)
  {
  }

  /** The late report: the swap finds RECONCILIATION_REQUIRED, and does not care whose. */
  lemma ReportLeaves(s: State, r: nat, j: JobId)
    requires Workable(s, ReconciliationRequired) && Poised(s, r, j)
    ensures Enabled(s, Work(r, ABSENT))
    ensures var t := Next(s, Work(r, ABSENT));
            && Workable(t, Failed) && t.db.jobs == s.db.jobs && |t.runs| == |s.runs|
            && t.runs[r].jobId == j && t.runs[r].intentId == 0 && t.runs[r].pc == Raise(true)
            && FenceHeld(t.db, FenceOf(t.runs[r]))
            && (forall k :: 0 <= k < |s.runs| && k != r ==> t.runs[k] == s.runs[k])
            && t.log == s.log + [Wrote(0, ReconciliationRequired, Failed, Some(r))]
  {
  }

  lemma RetryLeaves(s: State, r: nat, j: JobId, n: nat, max: nat, status: Status)
    requires Workable(s, status) && Attempt(s, j, n, max) && n < max
    requires r < |s.runs| && s.runs[r].jobId == j && !s.runs[r].pc.Halted? && FenceHeld(s.db, FenceOf(s.runs[r]))
    ensures Enabled(s, Fail(r, true, 0))
    ensures var t := Next(s, Fail(r, true, 0));
            && Workable(t, status) && Ready(t, j) && Attempt(t, j, n, max) && t.log == s.log
            && |t.runs| == |s.runs| && (forall k :: 0 <= k < |s.runs| && k != r ==> t.runs[k] == s.runs[k])
            && (forall k :: k in s.db.jobs && k != j ==> k in t.db.jobs && t.db.jobs[k] == s.db.jobs[k])
  {
  }

  lemma TimeoutLeaves(s: State, r: nat, j: JobId, n: nat)
    requires Attempt(s, j, n, n) && 0 in s.db.intents && s.runs != [] && r < |s.runs|
    requires s.runs[r].jobId == j && s.runs[r].intentId == 0 && !s.runs[r].pc.Halted?
    requires FenceHeld(s.db, FenceOf(s.runs[r])) && Rescuable(s.db.intents[0].status)
    requires Workable(s, s.db.intents[0].status)
    ensures Enabled(s, Fail(r, true, 0))
    ensures var t := Next(s, Fail(r, true, 0));
            && Workable(t, ReconciliationRequired)
            && t.log == s.log + [Wrote(0, s.db.intents[0].status, ReconciliationRequired, None)]
            && |t.runs| == |s.runs| && (forall k :: 0 <= k < |s.runs| && k != r ==> t.runs[k] == s.runs[k])
            && (forall k :: k in s.db.jobs && k != j ==> k in t.db.jobs && t.db.jobs[k] == s.db.jobs[k])
  {
  }

  /** The transaction of a begin, in full. */
  function BeginOf(s: State, j: JobId): StepResult
    requires Ready(s, j) && 0 in s.db.intents
  {
    var before := AtPc(s, j, Begin(Executing));
    StepBegin(before.db, before.runs[|s.runs|], |s.runs|, Executing, ABSENT)
  }

  lemma BeginStep(s: State, j: JobId)
    requires Workable(s, Failed) && Ready(s, j)
    ensures var result := BeginOf(s, j);
            && result.db.jobs == ClaimJob(s.db, j, 0, LEASE).jobs && result.db.now == 0
            && result.db.receipts == []
            && result.db.intents == s.db.intents[0 := result.run.local] && result.run.local.status == Executing
            && result.run.local == s.db.intents[0].(status := Executing, token := result.run.local.token)
            && result.run.local.token.Some? && result.run.pc == Execute
            && result.run.jobId == j && result.run.intentId == 0
            && FenceHeld(result.db, FenceOf(result.run))
            && |result.events| == 2 && Entry(result.events[0], 0) && result.events[1].Acquired?
  {
  }

  lemma BeginLeaves(s: State, j: JobId, n: nat, max: nat)
    requires Workable(s, Failed) && Ready(s, j) && Attempt(s, j, n, max)
    ensures var t := Begun(s, j);
            && Workable(t, Executing) && Elsewhere(s, t, j) && Attempt(t, j, n + 1, max)
            && |t.runs| == |s.runs| + 1
            && t.runs[|s.runs|].jobId == j && t.runs[|s.runs|].intentId == 0 && t.runs[|s.runs|].pc == Execute
            && FenceHeld(t.db, FenceOf(t.runs[|s.runs|]))
            && |t.log| == |s.log| + 3 && s.log <= t.log
            && t.log[|s.log|].Claimed? && Entry(t.log[|s.log| + 1], 0) && t.log[|s.log| + 2].Acquired?
  {
    hide FenceHeld, StepBegin, FenceOf;
    BeginStep(s, j);
    assert BeginOf(s, j) == Step(AtPc(s, j, Begin(Executing)).db, AtPc(s, j, Begin(Executing)).runs[|s.runs|], |s.runs|, ABSENT);
  }

  // ------------------------------------------------------------------------- the execution

  const PREPARE := Prepare(0, BLANK.(connector := CONNECTOR), LEASE, false)

  /** The intent, and a job that gives up on it at once. */
  const FIRST := Next(Next(INITIAL, PREPARE), Enqueue(0, ReconcileEffect, ExecuteKey(0), 0, 1, 0))

  /** Two more jobs on the same intent. */
  const THREE :=
    Next(Next(FIRST, Enqueue(1, ReconcileEffect, RequestKey(1), 0, 5, 0)),
         Enqueue(2, ReconcileEffect, RequestKey(2), 0, 2, 0))

  lemma Arranged() returns (actions: seq<Action>)
    ensures Execution(actions) && StateAfter(actions) == THREE
  {
    hide Next;
    assert Execution([]) && StateAfter([]) == INITIAL;
    actions := Then([], INITIAL, PREPARE);
    actions := Then(actions, Next(INITIAL, PREPARE), Enqueue(0, ReconcileEffect, ExecuteKey(0), 0, 1, 0));
    actions := Then(actions, FIRST, Enqueue(1, ReconcileEffect, RequestKey(1), 0, 5, 0));
    actions := Then(actions, Next(FIRST, Enqueue(1, ReconcileEffect, RequestKey(1), 0, 5, 0)),
                    Enqueue(2, ReconcileEffect, RequestKey(2), 0, 2, 0));
  }

  lemma EnqueueLeaves(s: State, j: JobId, key: JobKey, max: nat, status: Status)
    requires Workable(s, status) && j !in s.db.jobs && (ReconcileEffect, key) !in s.db.jobIndex && max > 0
    ensures var t := Next(s, Enqueue(j, ReconcileEffect, key, 0, max, 0));
            && Workable(t, status) && t.runs == s.runs && Ready(t, j) && Attempt(t, j, 0, max) && Elsewhere(s, t, j)
            && t.db.jobs.Keys == s.db.jobs.Keys + {j}
            && t.db.jobIndex.Keys == s.db.jobIndex.Keys + {(ReconcileEffect, key)}
  {
  }

  lemma PrepareLeaves()
    ensures var s := Next(INITIAL, PREPARE);
            Workable(s, Prepared) && s.runs == [] && s.db.jobs == map[] && s.db.jobIndex == map[]
  {
  }

  lemma ArrangedState()
    ensures Workable(THREE, Prepared) && THREE.runs == []
    ensures Ready(THREE, 0) && Attempt(THREE, 0, 0, 1)
    ensures Ready(THREE, 1) && Attempt(THREE, 1, 0, 5)
    ensures Ready(THREE, 2) && Attempt(THREE, 2, 0, 2)
  {
    hide Next, Workable, Ready, Attempt, Elsewhere;
    PrepareLeaves();
    EnqueueLeaves(Next(INITIAL, PREPARE), 0, ExecuteKey(0), 1, Prepared);
    EnqueueLeaves(FIRST, 1, RequestKey(1), 5, Prepared);
    var two := Next(FIRST, Enqueue(1, ReconcileEffect, RequestKey(1), 0, 5, 0));
    WorkableNow(FIRST, Prepared);
    WorkableNow(two, Prepared);
    ElsewhereKeeps(FIRST, two, 1, 0, 0);
    EnqueueLeaves(two, 2, RequestKey(2), 2, Prepared);
    WorkableNow(THREE, Prepared);
    ElsewhereKeeps(two, THREE, 2, 0, 0);
    ElsewhereKeeps(two, THREE, 2, 0, 1);
  }

  lemma ClaimLeaves(s: State, j: JobId, status: Status)
    requires Workable(s, status) && Ready(s, j) && Attempt(s, j, 0, 1) && s.runs == []
    ensures Enabled(s, Claim(j, 0, LEASE))
    ensures var t := Next(s, Claim(j, 0, LEASE));
            && Workable(t, status) && Elsewhere(s, t, j) && Attempt(t, j, 1, 1) && |t.runs| == 1
            && t.runs[0].jobId == j && t.runs[0].intentId == 0 && !t.runs[0].pc.Halted?
            && FenceHeld(t.db, FenceOf(t.runs[0]))
  {
  }

  /** Job 0 times out on its only attempt, and the intent goes to reconciliation. */
  lemma Abandoned() returns (actions: seq<Action>, s: State)
    ensures Execution(actions) && StateAfter(actions) == s
    ensures Workable(s, ReconciliationRequired) && |s.runs| == 1
    ensures Ready(s, 1) && Attempt(s, 1, 0, 5) && Ready(s, 2) && Attempt(s, 2, 0, 2)
  {
    hide Execution, StateAfter, Next, Enabled, FenceHeld, Claimable;
    actions := Arranged();
    ArrangedState();
    ClaimLeaves(THREE, 0, Prepared);
    actions := Then(actions, THREE, Claim(0, 0, LEASE));
    var claimed := Next(THREE, Claim(0, 0, LEASE));
    ElsewhereKeeps(THREE, claimed, 0, 0, 1);
    ElsewhereKeeps(THREE, claimed, 0, 0, 2);
    TimeoutLeaves(claimed, 0, 0, 1);
    actions := Then(actions, claimed, Fail(0, true, 0));
    s := Next(claimed, Fail(0, true, 0));
    ElsewhereKeeps(claimed, s, 0, 0, 1);
    ElsewhereKeeps(claimed, s, 0, 0, 2);
  }

  /** Steps of other runs, over jobs they leave alone, do not disturb a poised run. */
  lemma StaysPoised(s: State, t: State, r: nat, j: JobId, n: nat, max: nat)
    requires Poised(s, r, j) && Attempt(s, j, n, max) && t.db.now == s.db.now
    requires r < |t.runs| && t.runs[r] == s.runs[r] && j in t.db.jobs && t.db.jobs[j] == s.db.jobs[j]
    ensures Poised(t, r, j) && Attempt(t, j, n, max)
  {
  }

  /** Two runs of two jobs have both heard that nothing happened, and both are paused before saying so. */
  lemma BothAsked() returns (actions: seq<Action>, s: State)
    ensures Execution(actions) && StateAfter(actions) == s
    ensures Workable(s, ReconciliationRequired) && |s.runs| == 3
    ensures Poised(s, 1, 1) && Attempt(s, 1, 1, 5) && Poised(s, 2, 2) && Attempt(s, 2, 1, 2)
  {
    hide *;
    var s0;
    actions, s0 := Abandoned();
    actions := Asked(actions, s0, 1);
    AskLeaves(s0, 1, 0, 5);
    WorkableNow(s0, ReconciliationRequired);
    var s1 := Heard(s0, 1);
    WorkableNow(s1, ReconciliationRequired);
    ElsewhereKeeps(s0, s1, 1, 0, 2);
    actions := Asked(actions, s1, 2);
    AskLeaves(s1, 2, 0, 2);
    s := Heard(s1, 2);
    WorkableNow(s, ReconciliationRequired);
    ElsewhereKeeps(s1, s, 2, 1, 1);
  }

  lemma WorkableNow(s: State, status: Status)
    requires Workable(s, status)
    ensures s.db.now == 0 && 0 in s.db.intents && s.db.intents[0].status == status
  {
  }

  /** One of them reports, retries, begins the execution and times out; the other is still paused. */
  lemma FirstBegin() returns (actions: seq<Action>, s: State, p: nat)
    ensures Execution(actions) && StateAfter(actions) == s
    ensures Workable(s, ReconciliationRequired) && |s.runs| == 4
    ensures Poised(s, 1, 1) && Attempt(s, 1, 1, 5)
    ensures |s.log| == p + 3 && Entry(s.log[p], 0) && s.log[p + 1].Acquired? && s.log[p + 2].Wrote?
  {
    hide *;
    var s0;
    actions, s0 := BothAsked();
    ReportLeaves(s0, 2, 2);
    PoisedRun(s0, 1, 1);
    PoisedRun(s0, 2, 2);
    actions := Then(actions, s0, Work(2, ABSENT));
    var s1 := Next(s0, Work(2, ABSENT));
    SameAttempts(s0, s1);
    WorkableNow(s0, ReconciliationRequired);
    WorkableNow(s1, Failed);
    StaysPoised(s0, s1, 1, 1, 1, 5);
    NotHalted(s1, 2, true);
    RetryLeaves(s1, 2, 2, 1, 2, Failed);
    actions := Then(actions, s1, Fail(2, true, 0));
    var s2 := Next(s1, Fail(2, true, 0));
    WorkableNow(s2, Failed);
    AttemptKnown(s1, 1, 1, 5);
    StaysPoised(s1, s2, 1, 1, 1, 5);
    actions := Started(actions, s2, 2);
    BeginLeaves(s2, 2, 1, 2);
    var s3 := Begun(s2, 2);
    WorkableNow(s3, Executing);
    ElsewhereKeeps(s2, s3, 2, 1, 1);
    p := |s2.log| + 1;
    TimeoutLeaves(s3, 3, 2, 2);
    actions := Then(actions, s3, Fail(3, true, 0));
    s := Next(s3, Fail(3, true, 0));
    WorkableNow(s, ReconciliationRequired);
    PoisedRun(s3, 1, 1);
    AttemptKnown(s3, 1, 1, 5);
    StaysPoised(s3, s, 1, 1, 1, 5);
  }

  lemma PoisedRun(s: State, r: nat, j: JobId)
    requires Poised(s, r, j)
    ensures r < |s.runs| && s.runs[r].jobId == j
  {
  }

  lemma AttemptKnown(s: State, j: JobId, n: nat, max: nat)
    requires Attempt(s, j, n, max)
    ensures j in s.db.jobs
  {
  }

  lemma SameAttempts(s: State, t: State)
    requires t.db.jobs == s.db.jobs
    ensures forall j, n, max :: Attempt(s, j, n, max) ==> j in s.db.jobs && Attempt(t, j, n, max)
  {
  }

  lemma NotHalted(s: State, r: nat, retryable: bool)
    requires r < |s.runs| && s.runs[r].pc == Raise(retryable)
    ensures !s.runs[r].pc.Halted?
  {
  }

  /**
    With two jobs the execution is begun twice with no denial of the first begin anywhere in between:
    the denial that reopened the intent was observed before it.
   */
  lemma TwoJobsReenterBlindly() returns (actions: seq<Action>, p: nat, q: nat)
    ensures Execution(actions)
    ensures var s := StateAfter(actions);
            && Automatic(s.db, 0) && p < q < |s.log|
            && Entry(s.log[p], 0) && Entry(s.log[q], 0)
            && forall r :: p < r < q ==> !Denial(s.log[r], 0)
  {
    hide *;
    var s0;
    actions, s0, p := FirstBegin();
    ReportLeaves(s0, 1, 1);
    PoisedRun(s0, 1, 1);
    actions := Then(actions, s0, Work(1, ABSENT));
    var s1 := Next(s0, Work(1, ABSENT));
    SameAttempts(s0, s1);
    RetryLeaves(s1, 1, 1, 1, 5, Failed);
    actions := Then(actions, s1, Fail(1, true, 0));
    var s2 := Next(s1, Fail(1, true, 0));
    WorkableNow(s2, Failed);
    actions := Started(actions, s2, 1);
    BeginLeaves(s2, 1, 1, 5);
    var s3 := Begun(s2, 1);
    q := |s2.log| + 1;
    NoDenial(s0, s1, s3, p, q);
    WorkableIsAutomatic(s3, Executing);
  }

  lemma WorkableIsAutomatic(s: State, status: Status)
    requires Workable(s, status)
    ensures Automatic(s.db, 0)
  {
  }

  lemma NoDenial(s0: State, s1: State, s3: State, p: nat, q: nat)
    requires |s0.log| == p + 3 && Entry(s0.log[p], 0) && s0.log[p + 1].Acquired? && s0.log[p + 2].Wrote?
    requires s1.log == s0.log + [Wrote(0, ReconciliationRequired, Failed, Some(1))]
    requires s1.log <= s3.log && q == |s1.log| + 1 && |s3.log| == q + 2
    requires s3.log[q - 1].Claimed? && Entry(s3.log[q], 0)
    ensures Entry(s3.log[p], 0) && p < q && forall r :: p < r < q ==> !Denial(s3.log[r], 0)
  {
    assert forall r :: 0 <= r < |s1.log| ==> s3.log[r] == s1.log[r];
    assert forall r :: 0 <= r < |s0.log| ==> s1.log[r] == s0.log[r];
    assert s1.log[|s0.log|].Wrote?;
  }
}
