/**
  The PostgreSQL tables behind the effect protocol, as values, and every
  transaction on them as a function from one database value to the next.
  Class `PostgresStore` of module `Database` carries the same transactions out
  step by step and is proved equal to these functions.

  Sources: packages/db/src/repositories/control.ts,
  packages/db/src/repositories/lifecycle.ts, apps/worker/src/effect-store.ts,
  apps/worker/src/job-store.ts, apps/api/src/routes/effects.ts.
 */
module Tables {
  import opened EffectTable

  datatype Option<+T> = None | Some(value: T)

  type JobId = nat
  type WorkerId = nat
  type IntentId = nat
  type ResourceKey = nat

  // ---------------------------------------------------------------- jobs

  datatype JobType = ReconcileEffect | RunCompensation | OtherWork

  datatype JobStatus = Pending | Running | Succeeded | JobFailed | DeadLetter

  /** The caller's idempotency key; the commit route always uses `ExecuteKey`. */
  datatype JobKey = ExecuteKey(intentId: IntentId) | RequestKey(request: nat)

  datatype Lease = Lease(worker: WorkerId, expiresAt: nat)

  datatype Job = Job(
    jobType: JobType,
    intentId: IntentId,
    status: JobStatus,
    attempts: nat,
    maxAttempts: nat,
    availableAt: nat,
    lease: Option<Lease>,
    token: nat)

  /** What a worker presents to prove that it still owns a claim. */
  datatype JobFence = JobFence(jobId: JobId, worker: WorkerId, token: nat)

  // ------------------------------------------------------------- intents

  datatype ConnectorMode = AutomaticWrite | ManualReceipt

  /** The prepared snapshot of a connector: mode, capabilities and optional operations. */
  datatype Connector = Connector(
    mode: ConnectorMode,
    idempotencyKey: bool,
    queryByKey: bool,
    queryByExternalId: bool,
    compensation: bool,
    compensate: bool,
    reconcileCompensation: bool)

  /** Connector type and idempotency key. */
  type OperationKey = (nat, nat)

  /** `digest` stands for what the operation digest covers, `columns` for what an insert compares. */
  datatype Operation = Operation(connectorType: nat, idempotencyKey: nat, digest: nat, columns: nat)

  datatype Intent = Intent(
    operation: Operation,
    reversibility: Reversibility,
    resource: ResourceKey,
    connector: Connector,
    compensationHandler: bool,
    status: Status,
    token: Option<nat>)

  datatype Fence = Fence(token: nat, expiresAt: nat)

  // ------------------------------------------------------------ receipts

  datatype ReceiptMark = MarkExecuted | MarkCompensated | Unmarked

  /** `compensated` is the compensation_status column; `body` stands for the other columns. */
  datatype Receipt = Receipt(
    id: nat,
    intentId: IntentId,
    mark: ReceiptMark,
    compensated: bool,
    body: nat)

  predicate ExecutionReceipt(receipt: Receipt) {
    receipt.mark == MarkExecuted
  }

  predicate CompensationReceipt(receipt: Receipt) {
    receipt.mark == MarkCompensated || receipt.compensated
  }

  // ------------------------------------------------------------ database

  /** `jobIndex` is the unique index on (job type, idempotency key). */
  datatype Db = Db(
    now: nat,
    jobs: map<JobId, Job>,
    jobIndex: map<(JobType, JobKey), JobId>,
    intents: map<IntentId, Intent>,
    intentIndex: map<OperationKey, IntentId>,
    fences: map<ResourceKey, Fence>,
    receipts: seq<Receipt>)

  const EMPTY_DB := Db(0, map[], map[], map[], map[], map[], [])

  ghost predicate HasReceipt(db: Db, intentId: IntentId) {
    exists k :: 0 <= k < |db.receipts| && db.receipts[k].intentId == intentId
  }

  predicate HasExecutionReceipt(db: Db, intentId: IntentId) {
    exists k :: 0 <= k < |db.receipts| && db.receipts[k].intentId == intentId && ExecutionReceipt(db.receipts[k])
  }

  predicate HasCompensationReceipt(db: Db, intentId: IntentId) {
    exists k :: 0 <= k < |db.receipts| && db.receipts[k].intentId == intentId && CompensationReceipt(db.receipts[k])
  }

  // --------------------------------------------------- job transactions

  predicate Terminal(status: JobStatus) {
    status == Succeeded || status == DeadLetter
  }

  predicate EffectJob(job: Job) {
    job.jobType == ReconcileEffect || job.jobType == RunCompensation
  }

  /** The WHERE clause shared by every fenced write (effect-store.ts:64-91). */
  predicate FenceHeld(db: Db, fence: JobFence) {
    && fence.jobId in db.jobs
    && var job := db.jobs[fence.jobId];
    && job.status == Running
    && job.token == fence.token
    && job.lease.Some?
    && job.lease.value.worker == fence.worker
    && job.lease.value.expiresAt > db.now
  }

  predicate Claimable(db: Db, jobId: JobId) {
    && jobId in db.jobs
    && var job := db.jobs[jobId];
    && (job.status == Pending || job.status == JobFailed)
    && job.availableAt <= db.now
    && job.attempts < job.maxAttempts
  }

  predicate Stalled(db: Db, jobId: JobId) {
    && jobId in db.jobs
    && var job := db.jobs[jobId];
    && job.status == Running
    && job.lease.Some?
    && job.lease.value.expiresAt <= db.now
  }

  datatype EnqueueResult = Enqueued(jobId: JobId) | EnqueueConflict

  function EnqueueJob(
    db: Db, jobId: JobId, jobType: JobType, key: JobKey, intentId: IntentId, maxAttempts: nat, availableAt: nat
  ): (Db, EnqueueResult)
  {
    if (jobType, key) in db.jobIndex then
      var existing := db.jobIndex[(jobType, key)];
      if existing in db.jobs && db.jobs[existing].intentId == intentId
      then (db, Enqueued(existing))
      else (db, EnqueueConflict)
    else if jobId in db.jobs || maxAttempts == 0 then
      (db, EnqueueConflict)  // primary key or CHECK violation: the insert is refused
    else
      (db.(jobs := db.jobs[jobId := Job(jobType, intentId, Pending, 0, maxAttempts, availableAt, None, 0)],
           jobIndex := db.jobIndex[(jobType, key) := jobId]),
       Enqueued(jobId))
  }

  function ClaimJob(db: Db, jobId: JobId, worker: WorkerId, leaseTime: nat): Db
    requires Claimable(db, jobId)
  {
    var job := db.jobs[jobId];
    db.(jobs := db.jobs[jobId := job.(
          status := Running,
          attempts := job.attempts + 1,
          lease := Some(Lease(worker, db.now + leaseTime)),
          token := job.token + 1)])
  }

  function HeartbeatJob(db: Db, fence: JobFence, leaseTime: nat): Db {
    if FenceHeld(db, fence) then
      var job := db.jobs[fence.jobId];
      db.(jobs := db.jobs[fence.jobId := job.(lease := Some(Lease(fence.worker, db.now + leaseTime)))])
    else db
  }

  function CompleteJob(db: Db, fence: JobFence): Db {
    if FenceHeld(db, fence) then
      db.(jobs := db.jobs[fence.jobId := db.jobs[fence.jobId].(status := Succeeded, lease := None)])
    else db
  }

  predicate Rescuable(status: Status) {
    status == Prepared || status == Executing || status == Failed || status == CompensationPending
  }

  /** job-store.ts:106-126: a dead-lettered effect job hands its intent to reconciliation. */
  function MarkDeadLetter(db: Db, job: Job): Db {
    if job.status == DeadLetter && EffectJob(job) && job.intentId in db.intents
       && Rescuable(db.intents[job.intentId].status)
    then SetStatus(db, job.intentId, ReconciliationRequired)
    else db
  }

  function SetStatus(db: Db, intentId: IntentId, status: Status): Db
    requires intentId in db.intents
  {
    db.(intents := db.intents[intentId := db.intents[intentId].(status := status)])
  }

  /** The row a job is left with when its attempt ends without success. */
  function Released(job: Job, retryable: bool, retryAt: nat): Job {
    if retryable && job.attempts < job.maxAttempts
    then job.(status := JobFailed, availableAt := retryAt, lease := None)
    else job.(status := DeadLetter, lease := None)
  }

  function FailJob(db: Db, fence: JobFence, retryable: bool, retryAt: nat): Db {
    if FenceHeld(db, fence) then
      var job := Released(db.jobs[fence.jobId], retryable, retryAt);
      MarkDeadLetter(db.(jobs := db.jobs[fence.jobId := job]), job)
    else db
  }

  function RecoverJob(db: Db, jobId: JobId): Db {
    if Stalled(db, jobId) then
      var job := Released(db.jobs[jobId], true, db.now);
      var recovered := if job.status == DeadLetter then job.(availableAt := db.now) else job;
      MarkDeadLetter(db.(jobs := db.jobs[jobId := recovered]), recovered)
    else db
  }

  /** One recovery transaction over a batch of jobs (job-store.ts:291-329). */
  function RecoverJobs(db: Db, jobIds: seq<JobId>): Db
    decreases |jobIds|
  {
    if jobIds == [] then db
    else RecoverJob(RecoverJobs(db, jobIds[..|jobIds| - 1]), jobIds[|jobIds| - 1])
  }

  // ------------------------------------------------ effect transactions

  datatype StoreResult = FenceLost | Conflict | Written(intent: Intent)

  function AcquireFence(db: Db, resource: ResourceKey, leaseTime: nat): Db {
    var token := if resource in db.fences then db.fences[resource].token + 1 else 1;
    db.(fences := db.fences[resource := Fence(token, db.now + leaseTime)])
  }

  predicate ResourceFenceCurrent(db: Db, resource: ResourceKey, token: nat) {
    && resource in db.fences
    && db.fences[resource].token == token
    && db.fences[resource].expiresAt > db.now
  }

  /** effect-store.ts:117-170: one transaction that fences the resource and moves the status. */
  function BeginOperation(
    db: Db, fence: JobFence, intentId: IntentId, expected: Status, next: Status, leaseTime: nat
  ): (Db, StoreResult)
  {
    if !FenceHeld(db, fence) then (db, FenceLost)
    else if intentId !in db.intents || db.intents[intentId].status != expected then (db, Conflict)
    else
      var resource := db.intents[intentId].resource;
      var fenced := AcquireFence(db, resource, leaseTime);
      var updated := db.intents[intentId].(status := next, token := Some(fenced.fences[resource].token));
      (fenced.(intents := fenced.intents[intentId := updated]), Written(updated))
  }

  /** effect-store.ts:172-188: the fenced compare-and-swap on status. */
  function TransitionIntent(
    db: Db, fence: JobFence, intentId: IntentId, expected: Status, next: Status
  ): (Db, StoreResult)
  {
    if !FenceHeld(db, fence) then (db, FenceLost)
    else if intentId !in db.intents || db.intents[intentId].status != expected then (db, Conflict)
    else
      var next' := SetStatus(db, intentId, next);
      (next', Written(next'.intents[intentId]))
  }

  datatype AppendResult = AppendFenceLost | AppendRefused | AlreadyStored | Stored

  /** effect-store.ts:190-230: append-only, idempotent on the receipt id. */
  function AppendReceipt(db: Db, fence: JobFence, receipt: Receipt): (Db, AppendResult) {
    if !FenceHeld(db, fence) then (db, AppendFenceLost)
    else if receipt in db.receipts then (db, AlreadyStored)
    else if (exists k :: 0 <= k < |db.receipts| && db.receipts[k].id == receipt.id)
            || receipt.intentId !in db.intents then
      (db, AppendRefused)  // a different receipt under the same id is immutable
    else
      (db.(receipts := db.receipts + [receipt]), Stored)
  }

  // --------------------------------------------- writers outside the worker

  function KeyOf(intent: Intent): OperationKey {
    (intent.operation.connectorType, intent.operation.idempotencyKey)
  }

  function IntentByKey(db: Db, key: OperationKey): Option<IntentId> {
    if key in db.intentIndex && db.intentIndex[key] in db.intents then Some(db.intentIndex[key]) else None
  }

  datatype PrepareResult = Created(id: IntentId) | Replayed(id: IntentId) | PrepareConflict

  /**
    apps/api/src/routes/effects.ts:204-355: look the key up, fence the resource, insert a PREPARED intent.
    `late` says that somebody else's intent under the key was committed after the lookup, so that only the
    unique index of the insert finds it (packages/db/src/repositories/lifecycle.ts:495-577).
   */
  function PrepareIntent(db: Db, intentId: IntentId, draft: Intent, leaseTime: nat, late: bool): (Db, PrepareResult) {
    var existing := IntentByKey(db, KeyOf(draft));
    if existing.Some? && !late then
      (db, if db.intents[existing.value].operation.digest == draft.operation.digest then Replayed(existing.value)
           else PrepareConflict)
    else if existing.Some? then
      if db.intents[existing.value].operation.columns == draft.operation.columns
      then (AcquireFence(db, draft.resource, leaseTime), Replayed(existing.value))
      else (db, PrepareConflict)
    else if intentId in db.intents then (db, PrepareConflict)
    else
      var fenced := AcquireFence(db, draft.resource, leaseTime);
      var intent := draft.(status := Prepared, token := Some(fenced.fences[draft.resource].token));
      (fenced.(intents := fenced.intents[intentId := intent],
               intentIndex := fenced.intentIndex[KeyOf(draft) := intentId]), Created(intentId))
  }

  predicate FreshReceipt(db: Db, receipt: Receipt) {
    && receipt.intentId in db.intents
    && forall k :: 0 <= k < |db.receipts| ==> db.receipts[k].id != receipt.id
  }

  predicate Receiptable(status: Status) {
    status == Prepared || status == Executing || status == Failed || status == ReconciliationRequired
  }

  /**
    The statuses a manual receipt writes (effect-store.ts:250-290), given the status the service
    read before the transaction. The list is empty when the transaction rolls back.
   */
  function ManualPath(seen: Status, terminal: Status): seq<Status> {
    if seen == Prepared || seen == Failed then [ReconciliationRequired, terminal] else [terminal]
  }

  function RecordManualReceipt(db: Db, seen: Status, receipt: Receipt): Db {
    if !FreshReceipt(db, receipt) then db
    else
      var intent := db.intents[receipt.intentId];
      if intent.connector.mode != ManualReceipt || !Receiptable(seen) || intent.status != seen then db
      else
        SetStatus(db.(receipts := db.receipts + [receipt]), receipt.intentId, TerminalStatus(intent.reversibility))
  }

  /** How the API reads the caller's external status (apps/api/src/routes/effects.ts:168-177). */
  datatype Verdict = Applied | Rejected | Uncertain

  function VerdictStatus(verdict: Verdict, reversibility: Reversibility): Status {
    match verdict
    case Applied => TerminalStatus(reversibility)
    case Rejected => Failed
    case Uncertain => ReconciliationRequired
  }

  /** The status writes of the receipts route, in order; `seen` is the status it read first. */
  function ApiReceiptPath(seen: Status, next: Status): seq<Status> {
    if seen == next then []
    else if seen == Prepared || seen == Failed then [Executing, next]
    else [next]
  }

  /** Every write of a path is guarded by the table; one refusal rolls the transaction back. */
  predicate LegalPath(from: Status, path: seq<Status>)
    decreases |path|
  {
    path == [] || (CanTransition(from, path[0]) && LegalPath(path[0], path[1..]))
  }

  function Last(from: Status, path: seq<Status>): Status {
    if path == [] then from else path[|path| - 1]
  }

  /** apps/api/src/routes/effects.ts:513-640. */
  function RecordApiReceipt(db: Db, seen: Status, verdict: Verdict, receipt: Receipt): Db {
    if !FreshReceipt(db, receipt) then db
    else
      var intent := db.intents[receipt.intentId];
      var next := VerdictStatus(verdict, intent.reversibility);
      var path := ApiReceiptPath(seen, next);
      var appended := db.(receipts := db.receipts + [receipt]);
      if intent.connector.mode != ManualReceipt then db
      else if path == [] then appended
      else if intent.status != seen || !LegalPath(seen, path) then db
      else SetStatus(appended, receipt.intentId, next)
  }

  /** apps/api/src/routes/effects.ts:642-710: move to reconciliation, then enqueue a job. */
  function RequestReconciliation(
    db: Db, intentId: IntentId, seen: Status, jobId: JobId, request: nat
  ): Db
  {
    if intentId !in db.intents then db
    else if seen == Committed || seen == IrreversibleCommitted || seen == Compensated then db
    else if seen != ReconciliationRequired
            && (!CanTransition(seen, ReconciliationRequired) || db.intents[intentId].status != seen) then db
    else
      var moved :=
        if seen == ReconciliationRequired then db else SetStatus(db, intentId, ReconciliationRequired);
      var (queued, result) := EnqueueJob(moved, jobId, ReconcileEffect, RequestKey(request), intentId, 8, db.now);
      if result == EnqueueConflict then db else queued
  }

  /** Statuses behind which something may have happened outside (invalidation.ts:106-113). */
  predicate ExternalReality(status: Status) {
    || status == Committed
    || status == CompensationPending
    || status == Compensated
    || status == RemediationRequired
    || status == IrreversibleCommitted
    || status == ReconciliationRequired
  }

  /** apps/api/src/routes/lineage.ts:492-505: invalidation demands remediation of the effect. */
  function InvalidateIntent(db: Db, intentId: IntentId, seen: Status): Db {
    if intentId in db.intents && db.intents[intentId].status == seen
       && ExternalReality(seen) && seen != RemediationRequired && seen != Compensated
    then SetStatus(db, intentId, RemediationRequired)
    else db
  }
}
