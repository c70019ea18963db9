/**
  Idempotent enqueueing (packages/db/src/repositories/control.ts:59-104): the unique index over job type and
  idempotency key, and what it means over whole executions.
 */
module JobKeys {
  import opened EffectTable
  import opened Tables
  import opened EffectRuntime
  import opened RunSteps
  import opened Protocol
  import opened Leases

  /** Every indexed job exists and is of the type it is indexed under. */
  ghost predicate JobsIndexed(db: Db) {
    forall k :: k in db.jobIndex ==> db.jobIndex[k] in db.jobs && db.jobs[db.jobIndex[k]].jobType == k.0
  }

  ghost predicate IndexGrows(before: Db, after: Db) {
    forall k :: k in before.jobIndex ==> k in after.jobIndex && after.jobIndex[k] == before.jobIndex[k]
  }

  function Answer(s: State, act: Action): EnqueueResult
    requires act.Enqueue?
  {
    EnqueueJob(s.db, act.jobId, act.jobType, act.key, act.intentId, act.maxAttempts, act.availableAt).1
  }

  lemma EnqueueIndexed(
    db: Db, jobId: JobId, jobType: JobType, key: JobKey, intentId: IntentId, maxAttempts: nat, availableAt: nat)
    requires JobsIndexed(db)
    ensures var (after, result) := EnqueueJob(db, jobId, jobType, key, intentId, maxAttempts, availableAt);
            && JobsIndexed(after) && IndexGrows(db, after) && after.intents == db.intents
            && (result.Enqueued? ==>
                  && result.jobId in after.jobs && after.jobs[result.jobId].intentId == intentId
                  && (jobType, key) in after.jobIndex && after.jobIndex[(jobType, key)] == result.jobId)
            && (result == EnqueueConflict ==> after == db)
  {
  }

  /** A key that was never used starts a job that can be claimed, for the first time, exactly from `availableAt` on. */
  lemma NewKeyStartsJob(s: State, act: Action, elapsed: nat)
    requires act.Enqueue? && (act.jobType, act.key) !in s.db.jobIndex
    requires act.jobId !in s.db.jobs && act.maxAttempts > 0
    ensures Answer(s, act) == Enqueued(act.jobId)
    ensures var t := Next(Next(s, act), Tick(elapsed));
            && (Claimable(t.db, act.jobId) <==> act.availableAt <= s.db.now + elapsed)
            && t.db.jobs[act.jobId].attempts == 0 && t.db.jobs[act.jobId].maxAttempts == act.maxAttempts
            && t.db.jobs[act.jobId].jobType == act.jobType && t.db.jobs[act.jobId].intentId == act.intentId
            && t.db.jobs.Keys == s.db.jobs.Keys + {act.jobId}
  {
  }

  /** A used key never starts another: it names the job it started, if that is for the same intent. */
  lemma UsedKeyNamesJob(s: State, act: Action)
    requires act.Enqueue? && (act.jobType, act.key) in s.db.jobIndex && JobsIndexed(s.db)
    ensures Next(s, act) == s
    ensures var first := s.db.jobIndex[(act.jobType, act.key)];
            Answer(s, act) == if s.db.jobs[first].intentId == act.intentId then Enqueued(first) else EnqueueConflict
  {
  }

  // --------------------------------------------------------------------------- one action

  ghost predicate KeepsIndex(before: Db, after: Db) {
    JobsIndexed(before) ==> JobsIndexed(after) && IndexGrows(before, after)
  }

  lemma SameIndex(before: Db, after: Db)
    requires after.jobIndex == before.jobIndex && JobsOk(before) && JobsAdvance(before, after)
    ensures KeepsIndex(before, after)
  {
  }

  lemma FinishedLeaveIndex(db: Db, fence: JobFence, retryable: bool, retryAt: nat, j: JobId)
    ensures FailJob(db, fence, retryable, retryAt).jobIndex == db.jobIndex
    ensures RecoverJob(db, j).jobIndex == db.jobIndex
  {
  }

  lemma WritersLeaveIndex(db: Db, seen: Status, verdict: Verdict, receipt: Receipt, intentId: IntentId, draft: Intent,
                          leaseTime: nat, late: bool)
    ensures RecordManualReceipt(db, seen, receipt).jobIndex == db.jobIndex
    ensures RecordApiReceipt(db, seen, verdict, receipt).jobIndex == db.jobIndex
    ensures InvalidateIntent(db, intentId, seen).jobIndex == db.jobIndex
    ensures PrepareIntent(db, intentId, draft, leaseTime, late).0.jobIndex == db.jobIndex
  {
    hide FreshReceipt, LegalPath, CanTransition;
  }

  lemma RequestIndexed(db: Db, intentId: IntentId, seen: Status, jobId: JobId, request: nat)
    ensures KeepsIndex(db, RequestReconciliation(db, intentId, seen, jobId, request))
  {
    hide EnqueueJob, CanTransition;
    if JobsIndexed(db) {
      EnqueueIndexed(db, jobId, ReconcileEffect, RequestKey(request), intentId, 8, db.now);
      if intentId in db.intents {
        EnqueueIndexed(SetStatus(db, intentId, ReconciliationRequired), jobId, ReconcileEffect, RequestKey(request),
                       intentId, 8, db.now);
      }
    }
  }

  lemma WorkLeavesIndex(s: State, act: Action)
    requires Enabled(s, act) && act.Work?
    ensures Next(s, act).db.jobIndex == s.db.jobIndex
  {
    hide Step, FenceHeld, CanTransition;
    var kind := StepKind(s.db, s.runs[act.run], act.run, act.oracle);
  }

  lemma IndexStep(s: State, act: Action)
    requires LeaseInv(s) && Enabled(s, act)
    ensures KeepsIndex(s.db, Next(s, act).db)
  {
    hide Step, EnqueueJob, FailJob, RecoverJob, RequestReconciliation, RecordManualReceipt, RecordApiReceipt,
         InvalidateIntent, PrepareIntent, KeepsIndex, JobsOk, JobsAdvance, FenceHeld;
    JobsStep(s, act);
    var t := Next(s, act);
    match act
    case Enqueue(jobId, jobType, key, intentId, maxAttempts, availableAt) =>
      EnqueueKeeps(s.db, jobId, jobType, key, intentId, maxAttempts, availableAt);
    case ReconciliationRequested(intentId, seen, jobId, request) =>
      RequestIndexed(s.db, intentId, seen, jobId, request);
    case Work(run, oracle) =>
      WorkLeavesIndex(s, act);
      SameIndex(s.db, t.db);
    case Fail(run, retryable, retryAt) =>
      FinishedLeaveIndex(s.db, FenceOf(s.runs[run]), retryable, retryAt, 0);
      SameIndex(s.db, t.db);
    case Recover(jobId) =>
      FinishedLeaveIndex(s.db, JobFence(0, 0, 0), false, 0, jobId);
      SameIndex(s.db, t.db);
    case Prepare(intentId, draft, leaseTime, late) =>
      WritersLeaveIndex(s.db, Prepared, Applied, Receipt(0, 0, Unmarked, false, 0), intentId, draft, leaseTime, late);
      SameIndex(s.db, t.db);
    case ManualReceiptRecorded(seen, receipt) =>
      WritersLeaveIndex(s.db, seen, Applied, receipt, 0, BLANK, 0, false);
      SameIndex(s.db, t.db);
    case ApiReceiptRecorded(seen, verdict, receipt) =>
      WritersLeaveIndex(s.db, seen, verdict, receipt, 0, BLANK, 0, false);
      SameIndex(s.db, t.db);
    case Invalidated(intentId, seen) =>
      WritersLeaveIndex(s.db, seen, Applied, Receipt(0, 0, Unmarked, false, 0), intentId, BLANK, 0, false);
      SameIndex(s.db, t.db);
    case _ => SameIndex(s.db, t.db);
  }

  lemma EnqueueKeeps(
    db: Db, jobId: JobId, jobType: JobType, key: JobKey, intentId: IntentId, maxAttempts: nat, availableAt: nat)
    ensures KeepsIndex(db, EnqueueJob(db, jobId, jobType, key, intentId, maxAttempts, availableAt).0)
  {
    hide EnqueueJob;
    if JobsIndexed(db) {
      EnqueueIndexed(db, jobId, jobType, key, intentId, maxAttempts, availableAt);
    }
  }

  // ---------------------------------------------------------------------------- executions

  lemma {:induction false} IndexHolds(actions: seq<Action>)
    requires Execution(actions)
    ensures JobsIndexed(StateAfter(actions).db)
  {
    hide Next, Enabled;
    if actions != [] {
      IndexHolds(actions[..|actions| - 1]);
      LeasesHold(actions[..|actions| - 1]);
      IndexStep(StateAfter(actions[..|actions| - 1]), actions[|actions| - 1]);
    }
  }

  lemma {:induction false} KeysStay(earlier: seq<Action>, later: seq<Action>)
    requires Execution(earlier) && Execution(later) && |earlier| <= |later| && later[..|earlier|] == earlier
    ensures IndexGrows(StateAfter(earlier).db, StateAfter(later).db)
    decreases |later|
  {
    hide Next, Enabled;
    if |earlier| < |later| {
      var before := later[..|later| - 1];
      assert before[..|earlier|] == earlier;
      KeysStay(earlier, before);
      LeasesHold(before);
      IndexHolds(before);
      IndexStep(StateAfter(before), later[|later| - 1]);
    } else {
      assert earlier == later;
    }
  }

  /**
    Over any execution: once an enqueue has answered with a job, every later enqueue under the same type and key
    names that very job, or is a conflict exactly because it is for another intent.
   */
  lemma EnqueuedOnce(earlier: seq<Action>, first: Action, later: seq<Action>, second: Action)
    requires Execution(earlier) && Execution(later)
    requires |earlier| < |later| && later[..|earlier|] == earlier && later[|earlier|] == first
    requires first.Enqueue? && second.Enqueue? && first.jobType == second.jobType && first.key == second.key
    requires Answer(StateAfter(earlier), first).Enqueued?
    ensures Answer(StateAfter(later), second)
         == if first.intentId == second.intentId then Answer(StateAfter(earlier), first) else EnqueueConflict
  {
    hide Next, Enabled, EnqueueJob;
    var done := later[..|earlier| + 1];
    assert done[..|earlier|] == earlier && done[|earlier|] == first;
    PrefixRuns(later, |earlier| + 1);
    IndexHolds(earlier);
    EnqueueIndexed(StateAfter(earlier).db, first.jobId, first.jobType, first.key, first.intentId, first.maxAttempts,
                   first.availableAt);
    EnqueueNext(StateAfter(earlier), first);
    KeysStay(done, later);
    IndexHolds(later);
    IntentsStay(done, later, Answer(StateAfter(earlier), first).jobId);
    UsedKeyNamesJob(StateAfter(later), second);
  }

  lemma EnqueueNext(s: State, act: Action)
    requires act.Enqueue?
    ensures Next(s, act).db
         == EnqueueJob(s.db, act.jobId, act.jobType, act.key, act.intentId, act.maxAttempts, act.availableAt).0
  {
    hide EnqueueJob;
  }

  lemma {:induction false} IntentsStay(earlier: seq<Action>, later: seq<Action>, j: JobId)
    requires Execution(earlier) && Execution(later) && |earlier| <= |later| && later[..|earlier|] == earlier
    requires j in StateAfter(earlier).db.jobs
    ensures j in StateAfter(later).db.jobs
    ensures StateAfter(later).db.jobs[j].intentId == StateAfter(earlier).db.jobs[j].intentId
    decreases |later|
  {
    hide Next, Enabled;
    if |earlier| < |later| {
      var before := later[..|later| - 1];
      assert before[..|earlier|] == earlier;
      IntentsStay(earlier, before, j);
      LeasesHold(before);
      JobsStep(StateAfter(before), later[|later| - 1]);
    } else {
      assert earlier == later;
    }
  }
}
