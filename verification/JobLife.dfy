/**
  The life of a durable job, told by what can be observed of it: when it can be claimed, how long a claim
  lasts, what ends it and what its end does to its intent (packages/db/src/repositories/control.ts:59-249,
  apps/worker/src/job-store.ts:106-329).
 */
module JobLife {
  import opened EffectTable
  import opened Tables
  import opened EffectRuntime
  import opened RunSteps
  import opened RunInvariant
  import opened Protocol
  import opened Leases

  function Later(s: State, elapsed: nat): State {
    Next(s, Tick(elapsed))
  }

  // ------------------------------------------------------------------------- claims

  /** Nobody claims a job that is running, has ended, is not due yet, or has used up its attempts. */
  lemma NotClaimable(db: Db, j: JobId)
    requires j in db.jobs
    requires || db.jobs[j].status in {Running, Succeeded, DeadLetter}
             || db.now < db.jobs[j].availableAt || db.jobs[j].maxAttempts <= db.jobs[j].attempts
    ensures !Claimable(db, j)
  {
  }

  /** A claimed job is held by its new run for exactly the time of the lease. */
  lemma ClaimLasts(s: State, j: JobId, worker: WorkerId, leaseTime: nat, elapsed: nat)
    requires Claimable(s.db, j)
    ensures var t := Later(Next(s, Claim(j, worker, leaseTime)), elapsed);
            && |t.runs| == |s.runs| + 1 && t.runs[|s.runs|].jobId == j && t.runs[|s.runs|].worker == worker
            && (Live(t, |s.runs|) <==> elapsed < leaseTime)
            && (Stalled(t.db, j) <==> elapsed >= leaseTime)
            && !Claimable(t.db, j)
  {
  }

  /** A heartbeat of the holder lets its lease last that long from now. */
  lemma HeartbeatLasts(s: State, r: nat, leaseTime: nat, elapsed: nat)
    requires r < |s.runs| && s.runs[r].pc != Halted && Live(s, r)
    ensures var t := Later(Next(s, Heartbeat(r, leaseTime)), elapsed);
            && |t.runs| == |s.runs| && t.runs[r].jobId in t.db.jobs
            && (Live(t, r) <==> elapsed < leaseTime)
            && (Stalled(t.db, t.runs[r].jobId) <==> elapsed >= leaseTime)
  {
  }

  /** Only the worker that made a claim, under the token of that claim and before it runs out, holds the fence. */
  lemma HoldersAreClaimants(db: Db, fence: JobFence)
    requires FenceHeld(db, fence)
    ensures fence.jobId in db.jobs
    ensures db.jobs[fence.jobId].status == Running && db.jobs[fence.jobId].token == fence.token
    ensures db.jobs[fence.jobId].lease.Some? && db.jobs[fence.jobId].lease.value.worker == fence.worker
    ensures db.now < db.jobs[fence.jobId].lease.value.expiresAt
  {
  }

  // ---------------------------------------------------------------------------- ends

  predicate Outstanding(status: Status) {
    status in {Prepared, Executing, Failed, CompensationPending}
  }

  /** What becomes of an intent when a job of some type is given up on. */
  function HandedOver(jobType: JobType, status: Status): Status {
    if jobType != OtherWork && Outstanding(status) then ReconciliationRequired else status
  }

  /** A job that is given up on: dead, with its intent handed over and everything else as it was. */
  predicate GivenUp(before: Db, after: Db, j: JobId)
    requires j in before.jobs
  {
    var job := before.jobs[j];
    && after.jobs.Keys == before.jobs.Keys && after.intents.Keys == before.intents.Keys
    && after.jobs[j].status == DeadLetter && after.jobs[j].lease == None
    && (forall k :: k in before.jobs && k != j ==> after.jobs[k] == before.jobs[k])
    && (forall i :: i in before.intents ==>
          after.intents[i] == before.intents[i].(
            status := if i == job.intentId then HandedOver(job.jobType, before.intents[i].status)
                      else before.intents[i].status))
    && after.receipts == before.receipts && after.fences == before.fences
  }

  lemma MarkedGivenUp(before: Db, j: JobId, job: Job)
    requires j in before.jobs && job.status == DeadLetter && job.lease == None
    requires job.jobType == before.jobs[j].jobType && job.intentId == before.jobs[j].intentId
    ensures GivenUp(before, MarkDeadLetter(before.(jobs := before.jobs[j := job]), job), j)
  {
  }

  /** A completion reported by the holder ends the job as succeeded and touches nothing else. */
  lemma CompletionEnds(s: State, r: nat)
    requires r < |s.runs| && s.runs[r].pc == Return && Live(s, r)
    ensures var j, t := s.runs[r].jobId, Next(s, Complete(r));
            && j in t.db.jobs && t.db.jobs[j] == s.db.jobs[j].(status := Succeeded, lease := None)
            && t.db == s.db.(jobs := s.db.jobs[j := t.db.jobs[j]])
  {
  }

  /** A permanent failure reported by the holder ends the job at once, whatever attempts are left. */
  lemma PermanentFailureEnds(s: State, r: nat, retryAt: nat)
    requires r < |s.runs| && MayFail(s.runs[r].pc, false) && Live(s, r)
    ensures GivenUp(s.db, Next(s, Fail(r, false, retryAt)).db, s.runs[r].jobId)
  {
    var j := s.runs[r].jobId;
    MarkedGivenUp(s.db, j, s.db.jobs[j].(status := DeadLetter, lease := None));
  }

  /** So does any failure of the last attempt. */
  lemma LastFailureEnds(s: State, r: nat, retryable: bool, retryAt: nat)
    requires r < |s.runs| && MayFail(s.runs[r].pc, retryable) && Live(s, r)
    requires s.db.jobs[s.runs[r].jobId].attempts >= s.db.jobs[s.runs[r].jobId].maxAttempts
    ensures GivenUp(s.db, Next(s, Fail(r, retryable, retryAt)).db, s.runs[r].jobId)
  {
    var j := s.runs[r].jobId;
    MarkedGivenUp(s.db, j, s.db.jobs[j].(status := DeadLetter, lease := None));
  }

  /** A retryable failure with attempts left: the job can be claimed again exactly from `retryAt` on. */
  lemma RetryableFailureWaits(s: State, r: nat, retryAt: nat, elapsed: nat)
    requires r < |s.runs| && MayFail(s.runs[r].pc, true) && Live(s, r)
    requires s.db.jobs[s.runs[r].jobId].attempts < s.db.jobs[s.runs[r].jobId].maxAttempts
    ensures var j, t := s.runs[r].jobId, Later(Next(s, Fail(r, true, retryAt)), elapsed);
            && (Claimable(t.db, j) <==> retryAt <= s.db.now + elapsed)
            && j in t.db.jobs && t.db.jobs[j].status == JobFailed && t.db.jobs[j].attempts == s.db.jobs[j].attempts
            && t.db.intents == s.db.intents && t.db.receipts == s.db.receipts
  {
  }

  /** Recovery touches a job exactly when its lease has run out: it can be claimed at once, or is given up on. */
  lemma RecoveryEnds(s: State, j: JobId)
    requires j in s.db.jobs && LeaseInv(s)
    ensures var t, job := Next(s, Recover(j)), s.db.jobs[j];
            if job.status == Running && job.lease.value.expiresAt <= s.db.now then
              (if job.attempts < job.maxAttempts
               then Claimable(t.db, j) && t.db.intents == s.db.intents
               else GivenUp(s.db, t.db, j))
            else t.db == s.db
  {
    hide RunsFit, Ordered;
    var job := s.db.jobs[j];
    assert JobOk(job);
    if Stalled(s.db, j) && job.attempts >= job.maxAttempts {
      MarkedGivenUp(s.db, j, job.(status := DeadLetter, lease := None, availableAt := s.db.now));
    }
  }

  /** A run that has reported its return or its error is over: it takes no further step that changes anything. */
  lemma ReportedRunsRest(s: State, r: nat, act: Action, later: Action)
    requires r < |s.runs| && Finished(s.runs[r].pc) && Enabled(s, act)
    requires act == Complete(r) || (act.Fail? && act.run == r)
    ensures var t := Next(s, act);
            && t.runs[r].pc == Halted
            && (later.Heartbeat? || later.Complete? || later.Fail? ==> later.run == r ==> !Enabled(t, later))
            && (later.Work? && later.run == r ==> Enabled(t, later) && Next(t, later) == t)
  {
    hide FailJob, CompleteJob;
    var t := Next(s, act);
    assert t.runs[r := t.runs[r]] == t.runs;
  }

  /** Nobody ever claims a job again after its permanent failure. */
  lemma NeverClaimedAgain(earlier: seq<Action>, r: nat, retryAt: nat, later: seq<Action>)
    requires Execution(earlier) && Execution(later)
    requires r < |StateAfter(earlier).runs| && Live(StateAfter(earlier), r)
    requires MayFail(StateAfter(earlier).runs[r].pc, false)
    requires |earlier| < |later| && later[..|earlier|] == earlier && later[|earlier|] == Fail(r, false, retryAt)
    ensures var j := StateAfter(earlier).runs[r].jobId;
            && j in StateAfter(later).db.jobs && StateAfter(later).db.jobs[j].status == DeadLetter
            && !Claimable(StateAfter(later).db, j)
  {
    var failed := later[..|earlier| + 1];
    assert failed[..|earlier|] == earlier && failed[|earlier|] == Fail(r, false, retryAt);
    PrefixRuns(later, |earlier| + 1);
    PermanentFailureEnds(StateAfter(earlier), r, retryAt);
    TerminalIsForever(failed, later, StateAfter(earlier).runs[r].jobId);
  }
}
