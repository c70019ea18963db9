/**
  No stranded effect: an intent with an operation in flight always has a job that is not finished
  with it, whatever workers crash, time out or lose their leases.
 */
module NoStrandedEffect {
  import opened EffectTable
  import opened Tables
  import opened EffectRuntime
  import opened RunSteps
  import opened RunInvariant
  import opened Protocol
  import opened Leases
  import opened OutsideWriters
  import opened ReceiptSafety

  /** The points at which a handler acts on its copy of the intent. */
  predicate Acting(pc: Pc) {
    !pc.Load? && !pc.Raise? && !pc.Halted?
  }

  /** The job that last put the intent in flight is unfinished, and whoever holds it knows. */
  ghost predicate Owned(s: State, i: IntentId)
    requires i in s.db.intents
  {
    && i in s.owner
    && s.owner[i] in s.db.jobs
    && var job := s.db.jobs[s.owner[i]];
    && job.intentId == i
    && EffectJob(job)
    && !Terminal(job.status)
    && forall r :: 0 <= r < |s.runs| && s.runs[r].jobId == s.owner[i] && Live(s, r) && Acting(s.runs[r].pc) ==>
         s.runs[r].local.status == s.db.intents[i].status
  }

  ghost predicate OwnerInv(s: State) {
    forall i :: i in s.db.intents && InFlight(s.db.intents[i].status) ==> Owned(s, i)
  }

  // ---------------------------------------------------------------- handler steps

  lemma CopyAfterTransition(db: Db, run: Run, index: nat, fault: Fault)
    requires run.pc.Transition? && TransitionOk(db, run, run.pc.to, run.pc.after) && InFlight(run.pc.to)
    ensures var result := StepTransition(db, run, index, run.pc.to, run.pc.after, fault);
            result.events != [] ==> result.run.pc.Raise? || result.run.local.status == run.pc.to
  {
    hide FenceHeld, Backed, CanTransition, Continue;
  }

  lemma CopyAfterBegin(db: Db, run: Run, index: nat, oracle: Oracle)
    requires run.pc.Begin? && !run.guarded
    ensures var result := StepBegin(db, run, index, run.pc.next, oracle);
            result.events != [] ==> result.run.pc.Raise? || result.run.local.status == run.pc.next
  {
    hide FenceHeld, CanTransition;
  }

  /** After a write the writer's copy is up to date, unless the writer is about to give up. */
  lemma CopyAfterWrite(db: Db, run: Run, index: nat, oracle: Oracle, kind: Kind)
    requires RunOk(db, run) && HasKind(db, run, index, Step(db, run, index, oracle), kind)
    requires (kind.Writes? || kind.Begins?) && InFlight(kind.to)
    ensures var after := Step(db, run, index, oracle).run;
            after.pc.Raise? || after.local.status == kind.to
  {
    hide FenceHeld, CanTransition, StepTransition, StepBegin, Backed;
    if run.pc.Transition? {
      CopyAfterTransition(db, run, index, oracle.fault);
    } else {
      CopyAfterBegin(db, run, index, oracle);
    }
  }

  /** A step that writes no status leaves the copy alone, except that loading makes it current. */
  lemma CopyAfterQuiet(db: Db, run: Run, index: nat, oracle: Oracle)
    requires RunOk(db, run)
    ensures var result := Step(db, run, index, oracle);
            Acting(result.run.pc) ==>
              || (Acting(run.pc) && result.run.local == run.local)
              || (run.intentId in result.db.intents && result.run.local == result.db.intents[run.intentId])
  {
    hide Step;
    StepLocal(db, run, index, oracle);
    if run.pc == Load {
      assert !run.guarded by { RunOkAtLoad(db, run); }
      LoadStep(db, run, index, oracle);
    }
  }

  lemma OwnerWork(s: State, act: Action)
    requires LeaseInv(s) && ReceiptInv(s) && OwnerInv(s) && Enabled(s, act) && act.Work?
    ensures OwnerInv(Next(s, act))
  {
    hide Step, RunOk, CopyOk, AllJustified, FenceHeld, CanTransition;
    var r0 := act.run;
    var run := s.runs[r0];
    var result := Step(s.db, run, r0, act.oracle);
    assert RunOk(s.db, run);
    var kind := StepKind(s.db, run, r0, act.oracle);
    CopyAfterQuiet(s.db, run, r0, act.oracle);
    StepLocal(s.db, run, r0, act.oracle);
    if (kind.Writes? || kind.Begins?) && InFlight(kind.to) {
      CopyAfterWrite(s.db, run, r0, act.oracle, kind);
    }
    WorkFrames(s, act, Next(s, act), result);
    OwnerWorkFrom(s, r0, result, kind, Next(s, act));
  }

  /** The shape of the next state, with the fence of every run as it was. */
  lemma WorkFrames(s: State, act: Action, t: State, result: StepResult)
    requires Enabled(s, act) && act.Work? && t == Next(s, act)
    requires result == Step(s.db, s.runs[act.run], act.run, act.oracle)
    requires result.db.jobs == s.db.jobs && result.db.now == s.db.now && SameRun(s.runs[act.run], result.run)
    ensures t.db == result.db && t.runs == s.runs[act.run := result.run]
    ensures t.owner == Owners(s.owner, s.runs[act.run], result.events)
    ensures forall r :: 0 <= r < |s.runs| ==> (Live(t, r) <==> Live(s, r))
  {
    hide Step;
  }

  lemma OwnerWorkFrom(s: State, r0: nat, result: StepResult, kind: Kind, t: State)
    requires LeaseInv(s) && OwnerInv(s) && r0 < |s.runs|
    requires HasKind(s.db, s.runs[r0], r0, result, kind)
    requires t.db == result.db && t.runs == s.runs[r0 := result.run]
    requires t.owner == Owners(s.owner, s.runs[r0], result.events)
    requires forall r :: 0 <= r < |s.runs| ==> (Live(t, r) <==> Live(s, r))
    requires SameRun(s.runs[r0], result.run)
    requires Acting(result.run.pc) ==>
               || (Acting(s.runs[r0].pc) && result.run.local == s.runs[r0].local)
               || (s.runs[r0].intentId in result.db.intents && result.run.local == result.db.intents[s.runs[r0].intentId])
    requires (kind.Writes? || kind.Begins?) && InFlight(kind.to) ==>
               result.run.pc.Raise? || result.run.local.status == kind.to
    ensures OwnerInv(t)
  {
    hide CanTransition;
    forall i | i in t.db.intents && InFlight(t.db.intents[i].status) ensures Owned(t, i) {
      if i == s.runs[r0].intentId && (kind.Writes? || kind.Begins?) {
        NewOwner(s, r0, result, kind, t);
      } else {
        KeptOwner(s, r0, result, kind, t, i);
      }
    }
  }

  lemma NewOwner(s: State, r0: nat, result: StepResult, kind: Kind, t: State)
    requires LeaseInv(s) && r0 < |s.runs|
    requires HasKind(s.db, s.runs[r0], r0, result, kind) && (kind.Writes? || kind.Begins?)
    requires t.db == result.db && t.runs == s.runs[r0 := result.run]
    requires t.owner == Owners(s.owner, s.runs[r0], result.events)
    requires forall r :: 0 <= r < |s.runs| ==> (Live(t, r) <==> Live(s, r))
    requires SameRun(s.runs[r0], result.run) && InFlight(kind.to)
    requires result.run.pc.Raise? || result.run.local.status == kind.to
    ensures s.runs[r0].intentId in t.db.intents && Owned(t, s.runs[r0].intentId)
  {
    hide CanTransition;
    var run := s.runs[r0];
    assert RunFits(s.db, run);
    forall r | 0 <= r < |t.runs| && t.runs[r].jobId == run.jobId && Live(t, r) ensures r == r0 {
      assert s.runs[r].jobId == run.jobId && Live(s, r) && Live(s, r0);
    }
  }

  lemma KeptOwner(s: State, r0: nat, result: StepResult, kind: Kind, t: State, i: IntentId)
    requires LeaseInv(s) && OwnerInv(s) && r0 < |s.runs|
    requires HasKind(s.db, s.runs[r0], r0, result, kind)
    requires t.db == result.db && t.runs == s.runs[r0 := result.run]
    requires t.owner == Owners(s.owner, s.runs[r0], result.events)
    requires forall r :: 0 <= r < |s.runs| ==> (Live(t, r) <==> Live(s, r))
    requires SameRun(s.runs[r0], result.run)
    requires Acting(result.run.pc) ==>
               || (Acting(s.runs[r0].pc) && result.run.local == s.runs[r0].local)
               || (s.runs[r0].intentId in result.db.intents && result.run.local == result.db.intents[s.runs[r0].intentId])
    requires i in t.db.intents && InFlight(t.db.intents[i].status)
    requires i == s.runs[r0].intentId ==> !kind.Writes? && !kind.Begins?
    ensures Owned(t, i)
  {
    hide CanTransition, FenceHeld;
    assert i in s.db.intents && s.db.intents[i] == t.db.intents[i];
    assert Owned(s, i);
    assert t.owner[i] == s.owner[i];
    forall r | 0 <= r < |t.runs| && t.runs[r].jobId == t.owner[i] && Live(t, r) && Acting(t.runs[r].pc)
      ensures t.runs[r].local.status == t.db.intents[i].status
    {
      assert Live(s, r);
      if r == r0 {
        assert RunFits(s.db, s.runs[r0]);
      }
    }
  }

  // -------------------------------------------------------------- everybody else

  /** A job only ends by completing, or by dead-lettering, and that takes its intent out of flight. */
  lemma JobEnds(s: State, act: Action, j: JobId)
    requires LeaseInv(s) && Enabled(s, act) && !act.Work?
    requires j in s.db.jobs && EffectJob(s.db.jobs[j]) && !Terminal(s.db.jobs[j].status)
    ensures var t := Next(s, act);
            && j in t.db.jobs
            && (Terminal(t.db.jobs[j].status) ==>
                  || (act.Complete? && j == s.runs[act.run].jobId && Live(s, act.run))
                  || (s.db.jobs[j].intentId in t.db.intents ==>
                        !InFlight(t.db.intents[s.db.jobs[j].intentId].status)))
  {
    hide EnqueueJob, ClaimJob, FailJob, RecoverJob, RequestReconciliation, RecordManualReceipt, RecordApiReceipt,
         InvalidateIntent, PrepareIntent, FenceHeld, PathEvents, RescueEvents, Step;
    match act
    case Fail(run, retryable, retryAt) => FailEnds(s.db, FenceOf(s.runs[run]), retryable, retryAt, j);
    case Recover(jobId) => RecoverEnds(s.db, jobId, j);
    case Complete(run) =>
    case _ => JobContinues(s, act, j);
  }

  /** The actions that end no job at all. */
  lemma JobContinues(s: State, act: Action, j: JobId)
    requires LeaseInv(s) && Enabled(s, act) && !act.Work? && !act.Fail? && !act.Recover? && !act.Complete?
    requires j in s.db.jobs && !Terminal(s.db.jobs[j].status)
    ensures j in Next(s, act).db.jobs && !Terminal(Next(s, act).db.jobs[j].status)
  {
    hide EnqueueJob, ClaimJob, FailJob, RecoverJob, RequestReconciliation, RecordManualReceipt, RecordApiReceipt,
         InvalidateIntent, PrepareIntent, FenceHeld, PathEvents, RescueEvents, Step, LeaseInv, Claimable;
    match act
    case Enqueue(jobId, jobType, key, intentId, maxAttempts, availableAt) =>
      EnqueueLeaves(s.db, jobId, jobType, key, intentId, maxAttempts, availableAt, j);
    case Claim(jobId, worker, leaseTime) => ClaimedJob(s.db, jobId, worker, leaseTime); ClaimRuns(s.db, jobId, worker, leaseTime);
    case ManualReceiptRecorded(seen, receipt) => OutsideLeavesJobs(s.db, seen, Applied, receipt, 0);
    case ApiReceiptRecorded(seen, verdict, receipt) => OutsideLeavesJobs(s.db, seen, verdict, receipt, 0);
    case Invalidated(intentId, seen) =>
      OutsideLeavesJobs(s.db, seen, Applied, Receipt(0, 0, Unmarked, false, 0), intentId);
    case ReconciliationRequested(intentId, seen, jobId, request) =>
      ReconciliationLeaves(s.db, intentId, seen, jobId, request, j);
    case Prepare(i, draft, leaseTime, late) => PrepareLeaves(s.db, i, draft, leaseTime, late);
    case _ =>
  }

  lemma PrepareLeaves(db: Db, i: IntentId, draft: Intent, leaseTime: nat, late: bool)
    ensures PrepareIntent(db, i, draft, leaseTime, late).0.jobs == db.jobs
  {
  }

  lemma ClaimRuns(db: Db, jobId: JobId, worker: WorkerId, leaseTime: nat)
    requires Claimable(db, jobId)
    ensures jobId in ClaimJob(db, jobId, worker, leaseTime).jobs
    ensures ClaimJob(db, jobId, worker, leaseTime).jobs[jobId].status == Running
  {
  }

  lemma EnqueueLeaves(db: Db, jobId: JobId, jobType: JobType, key: JobKey, intentId: IntentId, maxAttempts: nat,
                      availableAt: nat, j: JobId)
    requires j in db.jobs
    ensures var after := EnqueueJob(db, jobId, jobType, key, intentId, maxAttempts, availableAt).0;
            j in after.jobs && after.jobs[j] == db.jobs[j]
  {
  }

  lemma ReconciliationLeaves(db: Db, intentId: IntentId, seen: Status, jobId: JobId, request: nat, j: JobId)
    requires j in db.jobs
    ensures var after := RequestReconciliation(db, intentId, seen, jobId, request);
            j in after.jobs && after.jobs[j] == db.jobs[j]
  {
    hide EnqueueJob, CanTransition;
    EnqueueLeaves(db, jobId, ReconcileEffect, RequestKey(request), intentId, 8, db.now, j);
    if intentId in db.intents {
      EnqueueLeaves(SetStatus(db, intentId, ReconciliationRequired),
                    jobId, ReconcileEffect, RequestKey(request), intentId, 8, db.now, j);
    }
  }

  lemma MarkEnds(db: Db, job: Job)
    requires job.status == DeadLetter && EffectJob(job)
    ensures var after := MarkDeadLetter(db, job);
            job.intentId in after.intents ==> !InFlight(after.intents[job.intentId].status)
  {
  }

  lemma FailEnds(db: Db, fence: JobFence, retryable: bool, retryAt: nat, j: JobId)
    requires j in db.jobs && EffectJob(db.jobs[j]) && !Terminal(db.jobs[j].status)
    ensures var after := FailJob(db, fence, retryable, retryAt);
            && j in after.jobs
            && (Terminal(after.jobs[j].status) && db.jobs[j].intentId in after.intents ==>
                  !InFlight(after.intents[db.jobs[j].intentId].status))
  {
    if FenceHeld(db, fence) {
      var job := Released(db.jobs[fence.jobId], retryable, retryAt);
      var moved := db.(jobs := db.jobs[fence.jobId := job]);
      MarkLeavesJobs(moved, job);
      hide MarkDeadLetter;
      if job.status == DeadLetter && EffectJob(job) {
        MarkEnds(moved, job);
      }
    }
  }

  lemma RecoverEnds(db: Db, jobId: JobId, j: JobId)
    requires j in db.jobs && EffectJob(db.jobs[j]) && !Terminal(db.jobs[j].status)
    ensures var after := RecoverJob(db, jobId);
            && j in after.jobs
            && (Terminal(after.jobs[j].status) && db.jobs[j].intentId in after.intents ==>
                  !InFlight(after.intents[db.jobs[j].intentId].status))
  {
    if Stalled(db, jobId) {
      var job := Released(db.jobs[jobId], true, db.now);
      var recovered := if job.status == DeadLetter then job.(availableAt := db.now) else job;
      var moved := db.(jobs := db.jobs[jobId := recovered]);
      MarkLeavesJobs(moved, recovered);
      hide MarkDeadLetter;
      if recovered.status == DeadLetter && EffectJob(recovered) {
        MarkEnds(moved, recovered);
      }
    }
  }

  lemma MarkLeavesJobs(db: Db, job: Job)
    ensures MarkDeadLetter(db, job).jobs == db.jobs
  {
  }

  /** Outside the handlers an intent in flight either stays as it is or leaves flight. */
  lemma FlightUnchanged(s: State, act: Action, i: IntentId)
    requires LeaseInv(s) && Enabled(s, act) && !act.Work?
    requires i in Next(s, act).db.intents && InFlight(Next(s, act).db.intents[i].status)
    ensures i in s.db.intents && s.db.intents[i].status == Next(s, act).db.intents[i].status
    ensures Next(s, act).owner == s.owner
  {
    hide Next, CanTransition;
    if OutsideAction(act) {
      var change := OutsideStep(s, act);
    } else {
      QuietTables(s, act);
    }
  }

  /** Outside the handlers no run's copy changes, and no run starts acting. */
  lemma CopiesUnchanged(s: State, act: Action, r: nat)
    requires Enabled(s, act) && !act.Work? && r < |Next(s, act).runs|
    requires Acting(Next(s, act).runs[r].pc) && Next(s, act).runs[r].handler != OtherWork
    ensures r < |s.runs| && s.runs[r] == Next(s, act).runs[r]
  {
    hide EnqueueJob, ClaimJob, HeartbeatJob, CompleteJob, FailJob, RecoverJob,
         RequestReconciliation, RecordManualReceipt, RecordApiReceipt, InvalidateIntent, PrepareIntent;
  }

  lemma OwnerElsewhere(s: State, act: Action)
    requires LeaseInv(s) && ReceiptInv(s) && OwnerInv(s) && Enabled(s, act) && !act.Work?
    ensures OwnerInv(Next(s, act))
  {
    hide Next, RunOk, CopyOk, AllJustified, FenceHeld;
    var t := Next(s, act);
    LeaseStep(s, act);
    JobsStep(s, act);
    forall i | i in t.db.intents && InFlight(t.db.intents[i].status) ensures Owned(t, i) {
      FlightUnchanged(s, act, i);
      assert Owned(s, i);
      var owner := s.owner[i];
      JobEnds(s, act, owner);
      if act.Complete? && owner == s.runs[act.run].jobId && Live(s, act.run) {
        ReturnIsLanded(s, act.run);
        EnabledComplete(s, act);
        assert false;
      }
      forall r | 0 <= r < |t.runs| && t.runs[r].jobId == owner && Live(t, r) && Acting(t.runs[r].pc)
        ensures t.runs[r].local.status == t.db.intents[i].status
      {
        assert RunFits(t.db, t.runs[r]);
        CopiesUnchanged(s, act, r);
        assert RunFits(s.db, s.runs[r]);
        LostFenceStaysLost(s.db, t.db, FenceOf(s.runs[r]));
      }
    }
  }

  lemma EnabledComplete(s: State, act: Action)
    requires Enabled(s, act) && act.Complete?
    ensures act.run < |s.runs| && s.runs[act.run].pc == Return
  {
  }

  /** A handler that returned normally left its copy out of flight. */
  lemma ReturnIsLanded(s: State, r: nat)
    requires ReceiptInv(s) && r < |s.runs|
    ensures s.runs[r].pc == Return ==> !InFlight(s.runs[r].local.status)
  {
    assert RunOk(s.db, s.runs[r]);
  }

  // ------------------------------------------------------------------------- theorems

  lemma {:induction false} OwnersHold(actions: seq<Action>)
    requires Execution(actions)
    ensures OwnerInv(StateAfter(actions))
  {
    if actions != [] {
      var before, act := actions[..|actions| - 1], actions[|actions| - 1];
      OwnersHold(before);
      LeasesHold(before);
      ReceiptsHold(before);
      if act.Work? {
        OwnerWork(StateAfter(before), act);
      } else {
        OwnerElsewhere(StateAfter(before), act);
      }
    }
  }

  /** An operation in flight has an unfinished effect job of its own intent. */
  lemma InFlightHasJob(actions: seq<Action>, intentId: IntentId) returns (jobId: JobId)
    requires Execution(actions) && intentId in StateAfter(actions).db.intents
    requires InFlight(StateAfter(actions).db.intents[intentId].status)
    ensures var db := StateAfter(actions).db;
            && jobId in db.jobs
            && db.jobs[jobId].intentId == intentId
            && EffectJob(db.jobs[jobId])
            && !Terminal(db.jobs[jobId].status)
  {
    OwnersHold(actions);
    assert Owned(StateAfter(actions), intentId);
    jobId := StateAfter(actions).owner[intentId];
  }

  /** Once every job of an intent has succeeded or been dead-lettered, nothing is left in flight. */
  lemma NothingStranded(actions: seq<Action>, intentId: IntentId)
    requires Execution(actions) && intentId in StateAfter(actions).db.intents
    requires var db := StateAfter(actions).db;
             forall j :: j in db.jobs && db.jobs[j].intentId == intentId && EffectJob(db.jobs[j]) ==>
               db.jobs[j].status == Succeeded || db.jobs[j].status == DeadLetter
    ensures var status := StateAfter(actions).db.intents[intentId].status;
            status != Executing && status != CompensationPending
  {
    if InFlight(StateAfter(actions).db.intents[intentId].status) {
      var jobId := InFlightHasJob(actions, intentId);
    }
  }
}
