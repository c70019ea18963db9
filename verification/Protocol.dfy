/**
  The whole system as a state machine: one database, any number of handler runs,
  and the writers outside the worker, interleaved transaction by transaction.
 */
module Protocol {
  import opened EffectTable
  import opened Tables
  import opened EffectRuntime

  /**
    `log` and `owner` are history: every event in order, and for each intent the job that
    last moved it into an in-flight status.
   */
  datatype State = State(db: Db, runs: seq<Run>, log: seq<Event>, owner: map<IntentId, JobId>)

  const INITIAL := State(EMPTY_DB, [], [], map[])

  datatype Action =
    | Tick(elapsed: nat)
    | Enqueue(jobId: JobId, jobType: JobType, key: JobKey, intentId: IntentId, maxAttempts: nat, availableAt: nat)
    | Claim(claimed: JobId, worker: WorkerId, leaseTime: nat)
    | Heartbeat(run: nat, leaseTime: nat)
    | Work(run: nat, oracle: Oracle)
    | Complete(run: nat)
    | Fail(run: nat, retryable: bool, retryAt: nat)
    | Recover(jobId: JobId)
    | Prepare(intentId: IntentId, draft: Intent, leaseTime: nat, late: bool)
    | ManualReceiptRecorded(seen: Status, receipt: Receipt)
    | ApiReceiptRecorded(seen: Status, verdict: Verdict, receipt: Receipt)
    | ReconciliationRequested(intentId: IntentId, seen: Status, jobId: JobId, request: nat)
    | Invalidated(intentId: IntentId, seen: Status)

  /**
    processor.ts:217-301: a thrown error is reported with its own retryability, a timeout may be
    reported at any moment and is retryable, and a malformed result is not.
   */
  predicate MayFail(pc: Pc, retryable: bool) {
    || (pc.Raise? && pc.retryable == retryable)
    || (pc.Return? && !retryable)
    || (!pc.Halted? && retryable)
  }

  predicate Enabled(s: State, act: Action) {
    match act
    case Claim(jobId, _, _) => Claimable(s.db, jobId)
    case Heartbeat(run, _) => run < |s.runs| && s.runs[run].pc != Halted
    case Work(run, _) => run < |s.runs|
    case Complete(run) => run < |s.runs| && s.runs[run].pc == Return
    case Fail(run, retryable, _) => run < |s.runs| && MayFail(s.runs[run].pc, retryable)
    case _ => true
  }

  function PathEvents(intentId: IntentId, from: Status, path: seq<Status>): seq<Event>
    decreases |path|
  {
    if path == [] then []
    else [Wrote(intentId, from, path[0], None)] + PathEvents(intentId, path[0], path[1..])
  }

  /** The reconciliation event of a job that was dead-lettered on behalf of its intent, if any. */
  function RescueEvents(before: Db, after: Db, intentId: IntentId): seq<Event> {
    if intentId in before.intents && intentId in after.intents
       && before.intents[intentId].status != after.intents[intentId].status
    then [Wrote(intentId, before.intents[intentId].status, after.intents[intentId].status, None)]
    else []
  }

  function Owners(owner: map<IntentId, JobId>, run: Run, events: seq<Event>): map<IntentId, JobId> {
    if |events| > 0 && events[0].Wrote? && InFlight(events[0].to) then owner[run.intentId := run.jobId]
    else owner
  }

  /** A run that reported its error, or its completion, is over; one that timed out keeps running. */
  function Ended(s: State, run: nat): seq<Run>
    requires run < |s.runs|
  {
    if Finished(s.runs[run].pc) then s.runs[run := s.runs[run].(pc := Halted)] else s.runs
  }

  function Next(s: State, act: Action): State
    requires Enabled(s, act)
  {
    match act
    case Tick(elapsed) => s.(db := s.db.(now := s.db.now + elapsed))
    case Enqueue(jobId, jobType, key, intentId, maxAttempts, availableAt) =>
      s.(db := EnqueueJob(s.db, jobId, jobType, key, intentId, maxAttempts, availableAt).0)
    case Claim(jobId, worker, leaseTime) =>
      var db := ClaimJob(s.db, jobId, worker, leaseTime);
      s.(db := db,
         runs := s.runs + [NewRun(db.jobs[jobId], jobId, worker)],
         log := s.log + [Claimed(jobId, db.jobs[jobId].token)])
    case Heartbeat(run, leaseTime) => s.(db := HeartbeatJob(s.db, FenceOf(s.runs[run]), leaseTime))
    case Work(run, oracle) =>
      var result := Step(s.db, s.runs[run], run, oracle);
      State(result.db, s.runs[run := result.run], s.log + result.events,
            Owners(s.owner, s.runs[run], result.events))
    case Complete(run) =>
      s.(db := CompleteJob(s.db, FenceOf(s.runs[run])), runs := Ended(s, run))
    case Fail(run, retryable, retryAt) =>
      var db := FailJob(s.db, FenceOf(s.runs[run]), retryable, retryAt);
      s.(db := db, runs := Ended(s, run), log := s.log + RescueEvents(s.db, db, s.runs[run].intentId))
    case Recover(jobId) =>
      var db := RecoverJob(s.db, jobId);
      if jobId in s.db.jobs
      then s.(db := db, log := s.log + RescueEvents(s.db, db, s.db.jobs[jobId].intentId))
      else s
    case Prepare(intentId, draft, leaseTime, late) =>
      var (db, result) := PrepareIntent(s.db, intentId, draft, leaseTime, late);
      if db == s.db then s
      else s.(db := db, log := s.log + [Acquired(draft.resource, db.fences[draft.resource].token)])
    case ManualReceiptRecorded(seen, receipt) =>
      var db := RecordManualReceipt(s.db, seen, receipt);
      if db == s.db then s
      else s.(db := db, log := s.log + [Recorded(receipt)] + PathEvents(receipt.intentId, seen,
                ManualPath(seen, db.intents[receipt.intentId].status)))
    case ApiReceiptRecorded(seen, verdict, receipt) =>
      var db := RecordApiReceipt(s.db, seen, verdict, receipt);
      if db == s.db then s
      else s.(db := db, log := s.log + [Recorded(receipt)] + PathEvents(receipt.intentId, seen,
                ApiReceiptPath(seen, VerdictStatus(verdict, db.intents[receipt.intentId].reversibility))))
    case ReconciliationRequested(intentId, seen, jobId, request) =>
      var db := RequestReconciliation(s.db, intentId, seen, jobId, request);
      s.(db := db, log := s.log + RescueEvents(s.db, db, intentId))
    case Invalidated(intentId, seen) =>
      var db := InvalidateIntent(s.db, intentId, seen);
      s.(db := db, log := s.log + RescueEvents(s.db, db, intentId))
  }

  /** A run of the system is a sequence of actions, each enabled when it is taken. */
  predicate Execution(actions: seq<Action>)
    decreases |actions|, 0
  {
    actions == [] ||
    (Execution(actions[..|actions| - 1]) && Enabled(StateAfter(actions[..|actions| - 1]), actions[|actions| - 1]))
  }

  function StateAfter(actions: seq<Action>): State
    requires Execution(actions)
    decreases |actions|, 1
  {
    if actions == [] then INITIAL
    else Next(StateAfter(actions[..|actions| - 1]), actions[|actions| - 1])
  }
}
