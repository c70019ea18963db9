/**
  The end of a claimed execution (apps/worker/src/processor.ts:217-301): however the handler ends, one
  store call settles the job, and it is one of the reports of module Protocol.
 */
module JobProcessor {
  import opened Tables
  import opened EffectRuntime
  import opened Protocol
  import opened JobLife
  import opened Database

  /** The handler returned, with a result that is JSON or not; it threw; or the abort signal won the race. */
  datatype Ending = Returned(json: bool) | Threw(retryable: bool) | TimedOut | LostFence

  datatype Settlement = SucceededJob | FenceLostJob | RetryScheduled | DeadLettered

  /** A timeout is retryable, a result that is not JSON is not. */
  function Retryable(ending: Ending): bool {
    match ending
    case Threw(retryable) => retryable
    case TimedOut => true
    case _ => false
  }

  /** The endings after which another attempt may help, and those after which it cannot. */
  predicate Transient(ending: Ending) {
    ending == Threw(true) || ending == TimedOut
  }

  predicate Permanent(ending: Ending) {
    ending == Threw(false) || ending == Returned(false)
  }

  /** What a failure makes of the tables, by kind of failure and attempts left. */
  lemma FailureSettles(db: Db, fence: JobFence, retryable: bool, retryAt: nat)
    requires FenceHeld(db, fence)
    ensures fence.jobId in db.jobs
    ensures var j, job, after := fence.jobId, db.jobs[fence.jobId], FailJob(db, fence, retryable, retryAt);
            if retryable && job.attempts < job.maxAttempts
            then after == db.(jobs := db.jobs[j := job.(status := JobFailed, availableAt := retryAt, lease := None)])
            else GivenUp(db, after, j)
  {
    var job := db.jobs[fence.jobId];
    if !retryable || job.attempts >= job.maxAttempts {
      MarkedGivenUp(db, fence.jobId, job.(status := DeadLetter, lease := None));
    }
  }

  method Settle(store: PostgresStore, fence: JobFence, ending: Ending, retryAt: nat) returns (settlement: Settlement)
    modifies store
    ensures store.View() == if ending == LostFence then old(store.View())
                            else if ending == Returned(true) then CompleteJob(old(store.View()), fence)
                            else FailJob(old(store.View()), fence, Retryable(ending), retryAt)
    ensures settlement == SucceededJob <==> ending == Returned(true) && FenceHeld(old(store.View()), fence)
    ensures settlement == FenceLostJob <==> ending == LostFence || !FenceHeld(old(store.View()), fence)
    ensures settlement == RetryScheduled <==>
              && FenceHeld(old(store.View()), fence) && Transient(ending)
              && old(store.jobs)[fence.jobId].attempts < old(store.jobs)[fence.jobId].maxAttempts
    ensures settlement == DeadLettered <==>
              && FenceHeld(old(store.View()), fence)
              && (|| Permanent(ending)
                  || (Transient(ending)
                      && old(store.jobs)[fence.jobId].attempts >= old(store.jobs)[fence.jobId].maxAttempts))
    ensures settlement == RetryScheduled ==>
              store.View() == old(store.View()).(
                jobs := old(store.jobs)[fence.jobId :=
                  old(store.jobs)[fence.jobId].(status := JobFailed, availableAt := retryAt, lease := None)])
    ensures settlement == DeadLettered ==>
              fence.jobId in old(store.jobs) && GivenUp(old(store.View()), store.View(), fence.jobId)
    ensures settlement == FenceLostJob ==> store.View() == old(store.View())
  {
    hide FenceHeld, MarkDeadLetter, GivenUp;
    if ending == LostFence {
      return FenceLostJob;
    }
    if ending == Returned(true) {
      var completed := store.Complete(fence);
      return if completed then SucceededJob else FenceLostJob;
    }
    if FenceHeld(store.View(), fence) {
      FailureSettles(store.View(), fence, Retryable(ending), retryAt);
    }
    var status := store.Fail(fence, Retryable(ending), retryAt);
    if status.None? {
      return FenceLostJob;
    }
    settlement := if status.value == JobFailed then RetryScheduled else DeadLettered;
  }

  /** The ending a run's program counter allows: it threw, it returned, or the timer fired on it. */
  predicate Ends(pc: Pc, ending: Ending) {
    match ending
    case Returned(_) => pc.Return?
    case Threw(retryable) => pc.Raise? && pc.retryable == retryable
    case TimedOut => !pc.Halted?
    case LostFence => true
  }

  /** Settling a run is an enabled action of the protocol with the same effect on the tables, or none at all. */
  lemma SettlingIsReporting(s: State, r: nat, ending: Ending, retryAt: nat)
    requires r < |s.runs| && Ends(s.runs[r].pc, ending)
    ensures ending == Returned(true) ==>
              Enabled(s, Complete(r)) && Next(s, Complete(r)).db == CompleteJob(s.db, FenceOf(s.runs[r]))
    ensures ending != Returned(true) && ending != LostFence ==>
              && Enabled(s, Fail(r, Retryable(ending), retryAt))
              && Next(s, Fail(r, Retryable(ending), retryAt)).db
                 == FailJob(s.db, FenceOf(s.runs[r]), Retryable(ending), retryAt)
  {
    hide FailJob, CompleteJob, GivenUp;
  }
}
