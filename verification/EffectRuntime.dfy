/**
  The worker side of the effect protocol (apps/worker/src/effects.ts).

  A `Run` is one execution of a job handler: a program counter, and a local copy
  of the intent that may be stale. `Step` is everything the handler does between
  two awaits that matter: one store transaction or one connector call. A run that
  is never stepped again has crashed; a run stepped after its lease expired, or
  after its processor gave up on it, is a zombie.
 */
module EffectRuntime {
  import opened EffectTable
  import opened Tables

  // ------------------------------------------------------ connector answers

  datatype Draft = Draft(receiptId: nat, body: nat)

  datatype ExecuteOutcome =
    | ExecuteSucceeded(draft: Draft)
    | WaitingForManualReceipt
    | ExecuteDenied(retryable: bool)
    | ExecuteUnknown

  datatype QueryOutcome =
    | Found(draft: Draft)
    | NotFound(definitive: bool)
    | QueryUnknown

  datatype CompensateOutcome =
    | CompensateSucceeded(draft: Draft)
    | CompensateDenied(retryable: bool)
    | CompensateUnknown

  /**
    A call that throws before taking effect, or after: then only its answer is lost. A connector may also
    throw the runtime's own error type, before or after taking effect, and that passes through the catch.
   */
  datatype Fault = NoFault | FaultBefore | FaultAfter | ConnectorError(retryable: bool)

  /** Everything outside the worker that decides how one step goes. */
  datatype Oracle = Oracle(
    fault: Fault,
    resolves: bool,
    approved: bool,
    leaseTime: nat,
    execute: ExecuteOutcome,
    query: QueryOutcome,
    compensate: CompensateOutcome)

  // ------------------------------------------------------------------- runs

  /** What a handler does once a status transition has succeeded. */
  datatype After =
    | ThenReturn
    | ThenRaise(retryable: bool)
    | ThenQueryExecution
    | ThenQueryCompensation
    | ThenCommit
    | ThenCompensated

  datatype Pc =
    | Load
    | Resolve
    | Scan
    | Begin(next: Status)
    | Execute
    | CheckExecuted(executed: ExecuteOutcome)
    | QueryExecution
    | CheckQueried(answer: QueryOutcome)
    | CheckBeforeCompensate
    | Compensate
    | CheckCompensated(compensated: CompensateOutcome)
    | QueryCompensation
    | CheckQueriedCompensation(found: QueryOutcome)
    | Persist(draft: Draft, mark: ReceiptMark)
    | Transition(to: Status, after: After)
    | Raise(retryable: bool)
    | Return
    | Halted

  datatype Run = Run(
    jobId: JobId,
    worker: WorkerId,
    token: nat,
    handler: JobType,
    intentId: IntentId,
    local: Intent,
    pc: Pc,
    guarded: bool)

  const BLANK := Intent(
    Operation(0, 0, 0, 0), R1, 0, Connector(AutomaticWrite, false, false, false, false, false, false), false,
    Prepared, None)

  function NewRun(job: Job, jobId: JobId, worker: WorkerId): Run {
    Run(jobId, worker, job.token, job.jobType, job.intentId, BLANK,
        if EffectJob(job) then Load else Return, false)
  }

  function FenceOf(run: Run): JobFence {
    JobFence(run.jobId, run.worker, run.token)
  }

  /** What one step leaves a trace of. `run` is the index of the acting run, if a run acted. */
  datatype Event =
    | Wrote(intentId: IntentId, from: Status, to: Status, writer: Option<nat>)
    | Denied(deniedIntent: IntentId, observer: nat)
    | Recorded(receipt: Receipt)
    | Acquired(resource: ResourceKey, token: nat)
    | Claimed(jobId: JobId, jobToken: nat)

  datatype StepResult = StepResult(db: Db, run: Run, events: seq<Event>)

  /** Control flow alone: nothing but the program counter and the guard differs. */
  ghost predicate Redirected(before: Run, after: Run) {
    after == before.(pc := after.pc, guarded := after.guarded)
  }

  /** Throwing inside a try block leads to its catch: move to reconciliation, then rethrow. */
  function Throw(run: Run, retryable: bool): (next: Run)
    ensures Redirected(run, next)
  {
    if run.guarded
    then run.(pc := Transition(ReconciliationRequired, ThenRaise(true)), guarded := false)
    else run.(pc := Raise(retryable))
  }

  /** effects.ts:532-545. */
  function FinalizeExecution(run: Run): (next: Run)
    ensures Redirected(run, next)
  {
    var desired := TerminalStatus(run.local.reversibility);
    if run.local.status == desired then run.(pc := Return)
    else if CanTransition(run.local.status, desired) then run.(pc := Transition(desired, ThenReturn))
    else run.(pc := Transition(ReconciliationRequired, ThenCommit))
  }

  /** effects.ts:646-656. */
  function FinalizeCompensation(run: Run): (next: Run)
    ensures Redirected(run, next)
  {
    if run.local.status == Compensated then run.(pc := Return)
    else if run.local.status == ReconciliationRequired
    then run.(pc := Transition(CompensationPending, ThenCompensated))
    else run.(pc := Transition(Compensated, ThenReturn))
  }

  function Continue(run: Run, after: After): (next: Run)
    ensures Redirected(run, next)
  {
    match after
    case ThenReturn => run.(pc := Return)
    case ThenRaise(retryable) => run.(pc := Raise(retryable), guarded := false)
    case ThenQueryExecution =>
      if run.local.connector.queryByKey || run.local.connector.queryByExternalId
      then run.(pc := QueryExecution) else run.(pc := Return)
    case ThenQueryCompensation =>
      if run.local.connector.reconcileCompensation
      then run.(pc := QueryCompensation) else run.(pc := Return)
    case ThenCommit => run.(pc := Transition(TerminalStatus(run.local.reversibility), ThenReturn))
    case ThenCompensated => run.(pc := Transition(Compensated, ThenReturn))
  }

  /** connectors/registry.ts:27-57, 82-131: what registration and resolution insist on. */
  predicate Registered(intent: Intent) {
    && (intent.connector.mode == AutomaticWrite ==>
          && intent.connector.idempotencyKey
          && intent.connector.queryByKey
          && intent.token.Some?
          && (intent.connector.compensation ==> intent.connector.compensate))
    && (intent.reversibility == R0 ==> intent.connector.compensation)
  }

  /** effects.ts:119-171 after the receipts are read. */
  function DispatchReconcile(db: Db, run: Run, oracle: Oracle): (next: Run)
    ensures Redirected(run, next)
  {
    var status := run.local.status;
    if HasExecutionReceipt(db, run.intentId) then FinalizeExecution(run)
    else if status == Committed || status == IrreversibleCommitted
            || status == Compensated || status == RemediationRequired then
      run.(pc := Return)
    else if run.local.connector.mode == ManualReceipt then
      if status == ReconciliationRequired then run.(pc := Return)
      else if oracle.execute != WaitingForManualReceipt then Throw(run, false)
      else run.(pc := Transition(ReconciliationRequired, ThenReturn))
    else if status == Executing || status == ReconciliationRequired then
      run.(pc := Transition(ReconciliationRequired, ThenQueryExecution))
    else if status == Prepared || status == Failed then
      if run.local.reversibility == R3 && !oracle.approved
      then run.(pc := Transition(ReconciliationRequired, ThenRaise(false)))
      else run.(pc := Begin(Executing))
    else Throw(run, false)
  }

  /** effects.ts:173-219 after the receipts are read. */
  function DispatchCompensation(db: Db, run: Run): (next: Run)
    ensures Redirected(run, next)
  {
    var status := run.local.status;
    if HasCompensationReceipt(db, run.intentId) then FinalizeCompensation(run)
    else if status == Compensated then run.(pc := Return)
    else if status == Committed || status == RemediationRequired then
      run.(pc := Begin(CompensationPending))
    else if status == ReconciliationRequired || status == CompensationPending then
      run.(pc := Transition(ReconciliationRequired, ThenQueryCompensation))
    else Throw(run, false)
  }

  /** effects.ts:236-253, then the capability checks of effects.ts:179-190. */
  function ResolveConnector(run: Run, oracle: Oracle): (next: Run)
    ensures Redirected(run, next)
  {
    if !oracle.resolves || !Registered(run.local) then
      if Rescuable(run.local.status)
      then run.(pc := Transition(ReconciliationRequired, ThenRaise(false)))
      else Throw(run, false)
    else if run.handler == RunCompensation
            && (!run.local.connector.compensation || !run.local.connector.compensate
                || !run.local.compensationHandler) then
      run.(pc := Transition(RemediationRequired, ThenReturn))
    else run.(pc := Scan)
  }

  /** effects.ts:345-366. */
  predicate ExternalFenceHeld(db: Db, run: Run) {
    && FenceHeld(db, FenceOf(run))
    && run.local.token.Some?
    && ResourceFenceCurrent(db, run.local.resource, run.local.token.value)
  }

  /** effects.ts:265-297. */
  function StepTransition(db: Db, run: Run, index: nat, to: Status, after: After, fault: Fault): StepResult {
    var from := run.local.status;
    if from == to then StepResult(db, Continue(run, after), [])
    else if !CanTransition(from, to) then StepResult(db, Throw(run, false), [])
    else
      var (db', result) := TransitionIntent(db, FenceOf(run), run.intentId, from, to);
      match result
      case Written(updated) =>
        StepResult(db',
                   if fault == FaultAfter then Throw(run, false)
                   else Continue(run.(local := updated), after),
                   [Wrote(run.intentId, from, to, Some(index))])
      case _ => StepResult(db, Throw(run, true), [])
  }

  /** effects.ts:299-335. */
  function StepBegin(db: Db, run: Run, index: nat, next: Status, oracle: Oracle): StepResult {
    var from := run.local.status;
    if !CanTransition(from, next) then StepResult(db, Throw(run, false), [])
    else
      var (db', result) := BeginOperation(db, FenceOf(run), run.intentId, from, next, oracle.leaseTime);
      match result
      case Written(updated) =>
        StepResult(db',
                   if oracle.fault == FaultAfter then Throw(run, false)
                   else run.(local := updated, guarded := true,
                             pc := if next == Executing then Execute else CheckBeforeCompensate),
                   [Wrote(run.intentId, from, next, Some(index)),
                    Acquired(updated.resource, updated.token.value)])
      case _ => StepResult(db, Throw(run, true), [])
  }

  /** effects.ts:504-530. */
  function StepPersist(db: Db, run: Run, draft: Draft, mark: ReceiptMark, fault: Fault): StepResult {
    var receipt := Receipt(draft.receiptId, run.intentId, mark, mark == MarkCompensated, draft.body);
    var (db', result) := AppendReceipt(db, FenceOf(run), receipt);
    var finalized := if mark == MarkExecuted then FinalizeExecution(run) else FinalizeCompensation(run);
    match result
    case AppendFenceLost => StepResult(db, Throw(run, true), [])
    case AppendRefused => StepResult(db, Throw(run, false), [])
    case AlreadyStored => StepResult(db, if fault == FaultAfter then Throw(run, false) else finalized, [])
    case Stored =>
      StepResult(db', if fault == FaultAfter then Throw(run, false) else finalized, [Recorded(receipt)])
  }

  /** effects.ts:415-451. */
  function HandleExecuted(run: Run, outcome: ExecuteOutcome): (next: Run)
    ensures Redirected(run, next)
  {
    match outcome
    case ExecuteSucceeded(draft) => run.(pc := Persist(draft, MarkExecuted))
    case WaitingForManualReceipt => run.(pc := Transition(ReconciliationRequired, ThenReturn))
    case ExecuteUnknown => run.(pc := Transition(ReconciliationRequired, ThenReturn))
    case ExecuteDenied(retryable) =>
      run.(pc := Transition(Failed, if retryable then ThenRaise(true) else ThenReturn))
  }

  /** effects.ts:453-502. */
  function HandleQueried(run: Run, answer: QueryOutcome): (next: Run)
    ensures Redirected(run, next)
  {
    match answer
    case Found(draft) => run.(pc := Persist(draft, MarkExecuted))
    case NotFound(definitive) =>
      if definitive && run.local.connector.idempotencyKey
      then run.(pc := Transition(Failed, ThenRaise(true)))
      else run.(pc := Return)
    case QueryUnknown => run.(pc := Return)
  }

  /** effects.ts:547-606. The failure branch is returned without await, so the catch never sees it. */
  function HandleCompensated(run: Run, outcome: CompensateOutcome): (next: Run)
    ensures Redirected(run, next)
  {
    match outcome
    case CompensateSucceeded(draft) => run.(pc := Persist(draft, MarkCompensated))
    case CompensateUnknown => run.(pc := Transition(ReconciliationRequired, ThenReturn), guarded := false)
    case CompensateDenied(retryable) =>
      run.(pc := Transition(RemediationRequired, if retryable then ThenRaise(true) else ThenReturn),
           guarded := false)
  }

  /** effects.ts:608-644. */
  function HandleQueriedCompensation(run: Run, answer: QueryOutcome): (next: Run)
    ensures Redirected(run, next)
  {
    match answer
    case Found(draft) => run.(pc := Persist(draft, MarkCompensated))
    case NotFound(definitive) =>
      if definitive && run.local.connector.idempotencyKey
      then run.(pc := Begin(CompensationPending))
      else run.(pc := Return)
    case QueryUnknown => run.(pc := Return)
  }

  predicate Finished(pc: Pc) {
    pc.Raise? || pc.Return? || pc.Halted?
  }

  /** The try blocks around the two reconciliation queries make every error retryable. */
  predicate Querying(pc: Pc) {
    pc.QueryExecution? || pc.CheckQueried? || pc.QueryCompensation? || pc.CheckQueriedCompensation?
  }

  /** After connector.execute or connector.compensate, inside its try block. */
  function Called(run: Run, fault: Fault, next: Pc): (after: Run)
    ensures Redirected(run, after)
  {
    match fault
    case FaultAfter => Throw(run, false)
    case ConnectorError(retryable) => run.(pc := Raise(retryable), guarded := false)
    case _ => run.(pc := next)
  }

  /** One step of the handler of run number `index`. */
  function Step(db: Db, run: Run, index: nat, oracle: Oracle): StepResult {
    if Finished(run.pc) then StepResult(db, run, [])
    else if oracle.fault == FaultBefore then
      StepResult(db, if Querying(run.pc) then run.(pc := Raise(true)) else Throw(run, false), [])
    else
      match run.pc
      case Load =>
        if run.intentId in db.intents
        then StepResult(db, run.(local := db.intents[run.intentId], pc := Resolve), [])
        else StepResult(db, Throw(run, false), [])
      case Resolve => StepResult(db, ResolveConnector(run, oracle), [])
      case Scan =>
        StepResult(db,
                   if run.handler == ReconcileEffect then DispatchReconcile(db, run, oracle)
                   else DispatchCompensation(db, run),
                   [])
      case Begin(next) => StepBegin(db, run, index, next, oracle)
      case Execute =>
        StepResult(db,
                   Called(run, oracle.fault, CheckExecuted(oracle.execute)),
                   if oracle.fault == NoFault && oracle.execute.ExecuteDenied?
                   then [Denied(run.intentId, index)] else [])
      case CheckExecuted(outcome) =>
        StepResult(db, if ExternalFenceHeld(db, run) then HandleExecuted(run, outcome) else Throw(run, true), [])
      case QueryExecution =>
        StepResult(db,
                   if oracle.fault != NoFault then run.(pc := Raise(true))
                   else run.(pc := CheckQueried(oracle.query)),
                   if oracle.fault == NoFault && oracle.query == NotFound(true)
                   then [Denied(run.intentId, index)] else [])
      case CheckQueried(answer) =>
        StepResult(db,
                   if FenceHeld(db, FenceOf(run)) then HandleQueried(run, answer) else run.(pc := Raise(true)),
                   [])
      case CheckBeforeCompensate =>
        StepResult(db, if ExternalFenceHeld(db, run) then run.(pc := Compensate) else Throw(run, true), [])
      case Compensate =>
        StepResult(db,
                   Called(run, oracle.fault, CheckCompensated(oracle.compensate)),
                   [])
      case CheckCompensated(outcome) =>
        StepResult(db, if ExternalFenceHeld(db, run) then HandleCompensated(run, outcome) else Throw(run, true), [])
      case QueryCompensation =>
        StepResult(db,
                   if oracle.fault != NoFault then run.(pc := Raise(true))
                   else run.(pc := CheckQueriedCompensation(oracle.query)),
                   [])
      case CheckQueriedCompensation(answer) =>
        StepResult(db,
                   if FenceHeld(db, FenceOf(run)) then HandleQueriedCompensation(run, answer)
                   else run.(pc := Raise(true)),
                   [])
      case Persist(draft, mark) => StepPersist(db, run, draft, mark, oracle.fault)
      case Transition(to, after) => StepTransition(db, run, index, to, after, oracle.fault)
  }
}
