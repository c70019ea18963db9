/**
  Job leases: tokens only grow, at most one run holds a job's fence, terminal jobs stay
  terminal, and whoever has lost the fence can no longer change anything.
 */
module Leases {
  import opened EffectTable
  import opened Tables
  import opened EffectRuntime
  import opened RunSteps
  import opened RunInvariant
  import opened Protocol

  ghost predicate JobOk(job: Job) {
    && 0 < job.maxAttempts
    && job.attempts <= job.maxAttempts
    && (job.status == Pending || job.status == JobFailed ==> job.attempts < job.maxAttempts)
    && (job.status == Running <==> job.lease.Some?)
    && job.token == job.attempts
  }

  /**
    How one row of the jobs table may change: its identity is fixed, its token never falls, a
    terminal job is frozen, and a lease is only ever renewed while it lasts.
   */
  ghost predicate JobAdvances(now: nat, before: Job, after: Job) {
    && after.jobType == before.jobType
    && after.intentId == before.intentId
    && after.maxAttempts == before.maxAttempts
    && before.token <= after.token
    && (Terminal(before.status) ==> after == before)
    && (after.status == Running && after.token == before.token ==>
          && before.status == Running
          && (|| after.lease == before.lease
              || (&& before.lease.Some? && after.lease.Some?
                  && after.lease.value.worker == before.lease.value.worker
                  && before.lease.value.expiresAt > now)))
  }

  ghost predicate JobsAdvance(before: Db, after: Db) {
    && before.now <= after.now
    && forall j :: j in before.jobs ==> j in after.jobs && JobAdvances(before.now, before.jobs[j], after.jobs[j])
  }

  ghost predicate JobsOk(db: Db) {
    forall j :: j in db.jobs ==> JobOk(db.jobs[j])
  }

  ghost predicate RunFits(db: Db, run: Run) {
    && run.jobId in db.jobs
    && run.token <= db.jobs[run.jobId].token
    && run.intentId == db.jobs[run.jobId].intentId
    && run.handler == db.jobs[run.jobId].jobType
    && (run.handler == OtherWork ==> Finished(run.pc))
  }

  ghost predicate RunsFit(db: Db, runs: seq<Run>) {
    forall r :: 0 <= r < |runs| ==> RunFits(db, runs[r])
  }

  /** Later runs of a job carry larger tokens. */
  ghost predicate Ordered(runs: seq<Run>) {
    forall a, b :: 0 <= a < b < |runs| && runs[a].jobId == runs[b].jobId ==> runs[a].token < runs[b].token
  }

  ghost predicate LeaseInv(s: State) {
    JobsOk(s.db) && RunsFit(s.db, s.runs) && Ordered(s.runs)
  }

  /** Run `r` holds the fence of its job. */
  predicate Live(s: State, r: nat)
    requires r < |s.runs|
  {
    FenceHeld(s.db, FenceOf(s.runs[r]))
  }

  // --------------------------------------------------------------- jobs only advance

  ghost predicate KeepsJobs(before: Db, after: Db) {
    JobsOk(before) ==> JobsOk(after) && JobsAdvance(before, after)
  }

  lemma EnqueueKeepsJobs(
    db: Db, jobId: JobId, jobType: JobType, key: JobKey, intentId: IntentId, maxAttempts: nat, availableAt: nat)
    ensures KeepsJobs(db, EnqueueJob(db, jobId, jobType, key, intentId, maxAttempts, availableAt).0)
  {
  }

  lemma ClaimKeepsJobs(db: Db, jobId: JobId, worker: WorkerId, leaseTime: nat)
    requires Claimable(db, jobId)
    ensures KeepsJobs(db, ClaimJob(db, jobId, worker, leaseTime))
  {
  }

  lemma HeartbeatKeepsJobs(db: Db, fence: JobFence, leaseTime: nat)
    ensures KeepsJobs(db, HeartbeatJob(db, fence, leaseTime))
  {
  }

  lemma CompleteKeepsJobs(db: Db, fence: JobFence)
    ensures KeepsJobs(db, CompleteJob(db, fence))
  {
  }

  lemma ReleasedOk(job: Job, retryable: bool, retryAt: nat)
    requires JobOk(job) && job.status == Running
    ensures JobOk(Released(job, retryable, retryAt))
    ensures Released(job, retryable, retryAt).status != Running
    ensures forall now: nat :: JobAdvances(now, job, Released(job, retryable, retryAt))
  {
  }

  lemma OneJobKeeps(db: Db, after: Db, jobId: JobId, job: Job)
    requires jobId in db.jobs && after.now == db.now && after.jobs == db.jobs[jobId := job]
    requires JobsOk(db) ==> JobOk(job) && JobAdvances(db.now, db.jobs[jobId], job)
    ensures KeepsJobs(db, after)
  {
    hide JobOk;
  }

  lemma DeadLetterLeavesJobs(db: Db, job: Job)
    ensures MarkDeadLetter(db, job).jobs == db.jobs && MarkDeadLetter(db, job).now == db.now
  {
  }

  lemma FailKeepsJobs(db: Db, fence: JobFence, retryable: bool, retryAt: nat)
    ensures KeepsJobs(db, FailJob(db, fence, retryable, retryAt))
  {
    hide Released, MarkDeadLetter, KeepsJobs;
    if FenceHeld(db, fence) {
      var job := Released(db.jobs[fence.jobId], retryable, retryAt);
      if JobsOk(db) {
        ReleasedOk(db.jobs[fence.jobId], retryable, retryAt);
      }
      DeadLetterLeavesJobs(db.(jobs := db.jobs[fence.jobId := job]), job);
      OneJobKeeps(db, FailJob(db, fence, retryable, retryAt), fence.jobId, job);
    } else {
      NothingKeeps(db);
    }
  }

  lemma NothingKeeps(db: Db)
    ensures KeepsJobs(db, db)
  {
  }

  lemma RecoverKeepsJobs(db: Db, jobId: JobId)
    ensures KeepsJobs(db, RecoverJob(db, jobId))
  {
    hide Released, MarkDeadLetter, KeepsJobs;
    if Stalled(db, jobId) {
      var released := Released(db.jobs[jobId], true, db.now);
      var job := if released.status == DeadLetter then released.(availableAt := db.now) else released;
      if JobsOk(db) {
        ReleasedOk(db.jobs[jobId], true, db.now);
        assert JobAdvances(db.now, db.jobs[jobId], released);
      }
      DeadLetterLeavesJobs(db.(jobs := db.jobs[jobId := job]), job);
      OneJobKeeps(db, RecoverJob(db, jobId), jobId, job);
    } else {
      NothingKeeps(db);
    }
  }

  lemma ReconciliationKeepsJobs(db: Db, intentId: IntentId, seen: Status, jobId: JobId, request: nat)
    ensures KeepsJobs(db, RequestReconciliation(db, intentId, seen, jobId, request))
  {
    hide EnqueueJob, CanTransition;
    EnqueueKeepsJobs(db, jobId, ReconcileEffect, RequestKey(request), intentId, 8, db.now);
    if intentId in db.intents {
      EnqueueKeepsJobs(SetStatus(db, intentId, ReconciliationRequired),
                       jobId, ReconcileEffect, RequestKey(request), intentId, 8, db.now);
    }
  }

  lemma OutsideLeavesJobs(
    db: Db, seen: Status, verdict: Verdict, receipt: Receipt, intentId: IntentId)
    ensures var after := RecordManualReceipt(db, seen, receipt); after.jobs == db.jobs && after.now == db.now
    ensures var after := RecordApiReceipt(db, seen, verdict, receipt); after.jobs == db.jobs && after.now == db.now
    ensures var after := InvalidateIntent(db, intentId, seen); after.jobs == db.jobs && after.now == db.now
  {
    hide FreshReceipt, CanTransition, LegalPath;
  }

  lemma JobsStep(s: State, act: Action)
    requires JobsOk(s.db) && Enabled(s, act)
    ensures JobsOk(Next(s, act).db) && JobsAdvance(s.db, Next(s, act).db)
  {
    hide Step, JobsOk, JobAdvances, EnqueueJob, ClaimJob, HeartbeatJob, CompleteJob, FailJob, RecoverJob,
         RequestReconciliation, RecordManualReceipt, RecordApiReceipt, InvalidateIntent;
    assert JobsAdvance(s.db, s.db) by { JobsAdvanceSame(s.db, s.db); }
    match act
    case Enqueue(jobId, jobType, key, intentId, maxAttempts, availableAt) =>
      EnqueueKeepsJobs(s.db, jobId, jobType, key, intentId, maxAttempts, availableAt);
    case Claim(jobId, worker, leaseTime) => ClaimKeepsJobs(s.db, jobId, worker, leaseTime);
    case Heartbeat(run, leaseTime) => HeartbeatKeepsJobs(s.db, FenceOf(s.runs[run]), leaseTime);
    case Complete(run) => CompleteKeepsJobs(s.db, FenceOf(s.runs[run]));
    case Fail(run, retryable, retryAt) => FailKeepsJobs(s.db, FenceOf(s.runs[run]), retryable, retryAt);
    case Recover(jobId) => RecoverKeepsJobs(s.db, jobId);
    case ReconciliationRequested(intentId, seen, jobId, request) =>
      ReconciliationKeepsJobs(s.db, intentId, seen, jobId, request);
    case ManualReceiptRecorded(seen, receipt) =>
      OutsideLeavesJobs(s.db, seen, Applied, receipt, 0);
      JobsAdvanceSame(s.db, Next(s, act).db);
    case ApiReceiptRecorded(seen, verdict, receipt) =>
      OutsideLeavesJobs(s.db, seen, verdict, receipt, 0);
      JobsAdvanceSame(s.db, Next(s, act).db);
    case Invalidated(intentId, seen) =>
      OutsideLeavesJobs(s.db, seen, Applied, Receipt(0, 0, Unmarked, false, 0), intentId);
      JobsAdvanceSame(s.db, Next(s, act).db);
    case Work(run, oracle) =>
      var kind := StepKind(s.db, s.runs[run], run, oracle);
      JobsAdvanceSame(s.db, Next(s, act).db);
    case _ => JobsAdvanceSame(s.db, Next(s, act).db);
  }

  lemma JobsAdvanceSame(before: Db, after: Db)
    requires after.jobs == before.jobs && before.now <= after.now
    ensures JobsAdvance(before, after) && (JobsOk(before) ==> JobsOk(after))
  {
  }

  // ------------------------------------------------------------ runs stay within their jobs

  lemma RunsFitAdvance(before: Db, after: Db, runs: seq<Run>)
    requires RunsFit(before, runs) && JobsAdvance(before, after)
    ensures RunsFit(after, runs)
  {
  }

  /** How the list of runs may change: each keeps its identity, and a finished one stays put. */
  ghost predicate RunsAdvance(before: seq<Run>, after: seq<Run>) {
    && |before| <= |after|
    && forall r :: 0 <= r < |before| ==>
         && SameRun(before[r], after[r])
         && (Finished(before[r].pc) ==> Finished(after[r].pc))
  }

  lemma RunsStep(s: State, act: Action)
    requires Enabled(s, act)
    ensures RunsAdvance(s.runs, Next(s, act).runs)
    ensures if act.Claim?
            then Next(s, act).runs
                 == s.runs + [NewRun(Next(s, act).db.jobs[act.claimed], act.claimed, act.worker)]
            else |Next(s, act).runs| == |s.runs|
  {
    hide Step, EnqueueJob, ClaimJob, HeartbeatJob, CompleteJob, FailJob, RecoverJob,
         RequestReconciliation, RecordManualReceipt, RecordApiReceipt, InvalidateIntent;
    if act.Work? {
      StepLocal(s.db, s.runs[act.run], act.run, act.oracle);
    }
  }

  lemma ClaimedJob(db: Db, jobId: JobId, worker: WorkerId, leaseTime: nat)
    requires Claimable(db, jobId)
    ensures var after := ClaimJob(db, jobId, worker, leaseTime);
            && jobId in after.jobs
            && after.jobs[jobId].token == db.jobs[jobId].token + 1
            && FenceHeld(after, JobFence(jobId, worker, after.jobs[jobId].token)) == (leaseTime > 0)
            && forall j :: j in db.jobs && j != jobId ==> j in after.jobs && after.jobs[j] == db.jobs[j]
  {
  }

  lemma LeaseStep(s: State, act: Action)
    requires LeaseInv(s) && Enabled(s, act)
    ensures LeaseInv(Next(s, act))
  {
    JobsStep(s, act);
    RunsStep(s, act);
    RunsFitAdvance(s.db, Next(s, act).db, s.runs);
    if act.Claim? {
      ClaimedJob(s.db, act.claimed, act.worker, act.leaseTime);
    }
    LeaseStepFrom(s, act, Next(s, act));
  }

  lemma LeaseStepFrom(s: State, act: Action, t: State)
    requires Ordered(s.runs) && RunsFit(s.db, s.runs) && RunsFit(t.db, s.runs) && JobsOk(t.db)
    requires RunsAdvance(s.runs, t.runs)
    requires act.Claim? ==>
               && act.claimed in s.db.jobs && act.claimed in t.db.jobs
               && t.db.jobs[act.claimed].token == s.db.jobs[act.claimed].token + 1
               && t.runs == s.runs + [NewRun(t.db.jobs[act.claimed], act.claimed, act.worker)]
    requires !act.Claim? ==> |t.runs| == |s.runs|
    ensures LeaseInv(t)
  {
  }

  /** The run that reports a failure belongs to its job. */
  lemma FailedRunFits(s: State, act: Action)
    requires LeaseInv(s) && Enabled(s, act) && act.Fail?
    ensures act.run < |s.runs| && RunFits(s.db, s.runs[act.run])
  {
  }

  // ------------------------------------------------------------------------- theorems

  lemma {:induction false} LeasesHold(actions: seq<Action>)
    requires Execution(actions)
    ensures LeaseInv(StateAfter(actions))
  {
    if actions != [] {
      LeasesHold(actions[..|actions| - 1]);
      LeaseStep(StateAfter(actions[..|actions| - 1]), actions[|actions| - 1]);
    }
  }

  /** Of all the runs a job has ever had, at most one holds its fence, and it is the latest. */
  lemma OneHolder(actions: seq<Action>, a: nat, b: nat)
    requires Execution(actions)
    requires var s := StateAfter(actions);
             && a < |s.runs| && b < |s.runs| && s.runs[a].jobId == s.runs[b].jobId && Live(s, a)
    ensures b <= a
    ensures Live(StateAfter(actions), b) ==> a == b
  {
    LeasesHold(actions);
  }

  /** A run without the fence changes no table, whatever it tries. */
  lemma StaleChangesNothing(s: State, act: Action, r: nat)
    requires Enabled(s, act) && r < |s.runs| && !Live(s, r)
    requires match act
             case Work(run, _) => run == r
             case Heartbeat(run, _) => run == r
             case Complete(run) => run == r
             case Fail(run, _, _) => run == r
             case _ => false
    ensures Next(s, act).db == s.db
  {
    if act.Work? {
      var kind := StepKind(s.db, s.runs[r], r, act.oracle);
    }
  }

  /** A fence that is not held under the job's current or an earlier token is lost for good. */
  lemma LostFenceStaysLost(before: Db, after: Db, fence: JobFence)
    requires JobsOk(before) && JobsAdvance(before, after)
    requires fence.jobId in before.jobs && fence.token <= before.jobs[fence.jobId].token
    ensures FenceHeld(after, fence) ==> FenceHeld(before, fence)
  {
  }

  /** A run that has lost the fence never gets it back. */
  lemma StaleStaysStale(s: State, act: Action, r: nat)
    requires LeaseInv(s) && Enabled(s, act) && r < |s.runs| && !Live(s, r)
    ensures r < |Next(s, act).runs| && !Live(Next(s, act), r)
  {
    hide Next, FenceHeld;
    JobsStep(s, act);
    RunsStep(s, act);
    LostFenceStaysLost(s.db, Next(s, act).db, FenceOf(s.runs[r]));
  }

  /** How many runs a job has had. */
  function RunsOf(runs: seq<Run>, jobId: JobId): nat {
    if runs == [] then 0
    else RunsOf(runs[..|runs| - 1], jobId) + (if runs[|runs| - 1].jobId == jobId then 1 else 0)
  }

  lemma {:induction false} RunsOfSame(before: seq<Run>, after: seq<Run>, jobId: JobId)
    requires |before| == |after| && forall r :: 0 <= r < |before| ==> SameRun(before[r], after[r])
    ensures RunsOf(before, jobId) == RunsOf(after, jobId)
  {
    if before != [] {
      RunsOfSame(before[..|before| - 1], after[..|after| - 1], jobId);
    }
  }

  ghost predicate CountInv(s: State) {
    forall j :: RunsOf(s.runs, j) == if j in s.db.jobs then s.db.jobs[j].attempts else 0
  }

  /** Only a claim starts an attempt, and only of the job it claims. */
  lemma AttemptsStep(s: State, act: Action, j: JobId)
    requires Enabled(s, act)
    ensures var t := Next(s, act);
            (if j in t.db.jobs then t.db.jobs[j].attempts else 0)
            == (if j in s.db.jobs then s.db.jobs[j].attempts else 0) + (if act.Claim? && act.claimed == j then 1 else 0)
  {
    hide Step, RequestReconciliation, RecordManualReceipt, RecordApiReceipt, InvalidateIntent,
         FailJob, RecoverJob, EnqueueJob;
    match act
    case Work(run, oracle) => var kind := StepKind(s.db, s.runs[run], run, oracle);
    case Enqueue(jobId, jobType, key, intentId, maxAttempts, availableAt) =>
      EnqueueAttempts(s.db, jobId, jobType, key, intentId, maxAttempts, availableAt, j);
    case Fail(run, retryable, retryAt) => FailAttempts(s.db, FenceOf(s.runs[run]), retryable, retryAt, j);
    case Recover(jobId) => RecoverAttempts(s.db, jobId, j);
    case ManualReceiptRecorded(seen, receipt) => OutsideLeavesJobs(s.db, seen, Applied, receipt, 0);
    case ApiReceiptRecorded(seen, verdict, receipt) => OutsideLeavesJobs(s.db, seen, verdict, receipt, 0);
    case Invalidated(intentId, seen) =>
      OutsideLeavesJobs(s.db, seen, Applied, Receipt(0, 0, Unmarked, false, 0), intentId);
    case ReconciliationRequested(intentId, seen, jobId, request) =>
      ReconciliationAttempts(s.db, intentId, seen, jobId, request, j);
    case _ =>
  }

  function Attempts(db: Db, j: JobId): nat {
    if j in db.jobs then db.jobs[j].attempts else 0
  }

  lemma EnqueueAttempts(db: Db, jobId: JobId, jobType: JobType, key: JobKey, intentId: IntentId, maxAttempts: nat,
                        availableAt: nat, j: JobId)
    ensures Attempts(EnqueueJob(db, jobId, jobType, key, intentId, maxAttempts, availableAt).0, j) == Attempts(db, j)
  {
  }

  lemma FailAttempts(db: Db, fence: JobFence, retryable: bool, retryAt: nat, j: JobId)
    ensures Attempts(FailJob(db, fence, retryable, retryAt), j) == Attempts(db, j)
  {
  }

  lemma RecoverAttempts(db: Db, jobId: JobId, j: JobId)
    ensures Attempts(RecoverJob(db, jobId), j) == Attempts(db, j)
  {
  }

  lemma ReconciliationAttempts(db: Db, intentId: IntentId, seen: Status, jobId: JobId, request: nat, j: JobId)
    ensures Attempts(RequestReconciliation(db, intentId, seen, jobId, request), j) == Attempts(db, j)
  {
    hide EnqueueJob, CanTransition;
    EnqueueAttempts(db, jobId, ReconcileEffect, RequestKey(request), intentId, 8, db.now, j);
    if intentId in db.intents {
      EnqueueAttempts(SetStatus(db, intentId, ReconciliationRequired),
                      jobId, ReconcileEffect, RequestKey(request), intentId, 8, db.now, j);
    }
  }

  lemma CountStep(s: State, act: Action)
    requires CountInv(s) && Enabled(s, act)
    ensures CountInv(Next(s, act))
  {
    hide Next, RunsOf;
    var t := Next(s, act);
    RunsStep(s, act);
    forall j ensures RunsOf(t.runs, j) == Attempts(t.db, j) {
      AttemptsStep(s, act, j);
      if act.Claim? {
        AttemptsStep(s, act, act.claimed);
        var run := NewRun(t.db.jobs[act.claimed], act.claimed, act.worker);
        RunsOfOne(s.runs, run, j);
      } else {
        RunsOfSame(s.runs, t.runs, j);
      }
    }
  }

  lemma RunsOfOne(runs: seq<Run>, run: Run, j: JobId)
    ensures RunsOf(runs + [run], j) == RunsOf(runs, j) + (if run.jobId == j then 1 else 0)
  {
    assert (runs + [run])[..|runs|] == runs;
  }

  lemma {:induction false} CountsHold(actions: seq<Action>)
    requires Execution(actions)
    ensures CountInv(StateAfter(actions))
  {
    if actions != [] {
      CountsHold(actions[..|actions| - 1]);
      CountStep(StateAfter(actions[..|actions| - 1]), actions[|actions| - 1]);
    }
  }

  /** No job is ever run more often than its max_attempts allows. */
  lemma AttemptsBounded(actions: seq<Action>, jobId: JobId)
    requires Execution(actions) && jobId in StateAfter(actions).db.jobs
    ensures RunsOf(StateAfter(actions).runs, jobId) <= StateAfter(actions).db.jobs[jobId].maxAttempts
  {
    hide Next, Enabled;
    LeasesHold(actions);
    CountsHold(actions);
  }

  /**
    An unfinished job is never stuck: after waiting long enough it can be claimed, or its lease has
    run out and recovery gives it back or dead-letters it.
   */
  lemma NoJobIsStuck(actions: seq<Action>, jobId: JobId) returns (wait: nat)
    requires Execution(actions) && jobId in StateAfter(actions).db.jobs
    requires !Terminal(StateAfter(actions).db.jobs[jobId].status)
    ensures var db := Next(StateAfter(actions), Tick(wait)).db;
            Claimable(db, jobId)
            || (Stalled(db, jobId)
                && var status := RecoverJob(db, jobId).jobs[jobId].status;
                   status == JobFailed || status == DeadLetter)
  {
    LeasesHold(actions);
    var s := StateAfter(actions);
    var job := s.db.jobs[jobId];
    assert JobOk(job);
    hide *;
    wait := job.availableAt + (if job.lease.Some? then job.lease.value.expiresAt else 0);
    TimePasses(s, wait);
    WaitedEnough(s.db, jobId, s.db.now + wait);
  }

  lemma TimePasses(s: State, elapsed: nat)
    ensures Enabled(s, Tick(elapsed)) && Next(s, Tick(elapsed)).db == s.db.(now := s.db.now + elapsed)
  {
  }

  lemma WaitedEnough(before: Db, jobId: JobId, now: nat)
    requires jobId in before.jobs && JobOk(before.jobs[jobId]) && !Terminal(before.jobs[jobId].status)
    requires before.jobs[jobId].availableAt <= now
    requires before.jobs[jobId].lease.Some? ==> before.jobs[jobId].lease.value.expiresAt <= now
    ensures var db := before.(now := now);
            Claimable(db, jobId)
            || (Stalled(db, jobId)
                && jobId in RecoverJob(db, jobId).jobs
                && var status := RecoverJob(db, jobId).jobs[jobId].status;
                   status == JobFailed || status == DeadLetter)
  {
  }

  lemma {:induction false} PrefixRuns(actions: seq<Action>, k: nat)
    requires Execution(actions) && k <= |actions|
    ensures Execution(actions[..k])
  {
    if k == |actions| {
      assert actions[..k] == actions;
    } else {
      PrefixRuns(actions[..|actions| - 1], k);
      assert actions[..|actions| - 1][..k] == actions[..k];
    }
  }

  /** A finished job is finished in every continuation. */
  lemma {:induction false} TerminalIsForever(earlier: seq<Action>, later: seq<Action>, jobId: JobId)
    requires Execution(earlier) && Execution(later)
    requires |earlier| <= |later| && later[..|earlier|] == earlier
    requires jobId in StateAfter(earlier).db.jobs && Terminal(StateAfter(earlier).db.jobs[jobId].status)
    ensures jobId in StateAfter(later).db.jobs
    ensures StateAfter(later).db.jobs[jobId] == StateAfter(earlier).db.jobs[jobId]
    decreases |later|
  {
    if |earlier| < |later| {
      var before := later[..|later| - 1];
      assert before[..|earlier|] == earlier;
      TerminalIsForever(earlier, before, jobId);
      LeasesHold(before);
      JobsStep(StateAfter(before), later[|later| - 1]);
    } else {
      assert earlier == later;
    }
  }
}
