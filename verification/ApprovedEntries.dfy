/**
  No automatic execution without leave: over every execution of the protocol, what must have been asked and
  answered before an external operation is begun (apps/worker/src/effects.ts:129-133, 236-253, 389-398).
 */
module ApprovedEntries {
  import opened EffectTable
  import opened Tables
  import opened EffectRuntime
  import opened RunSteps
  import opened RunInvariant
  import opened Protocol
  import opened Leases
  import opened OutsideWriters
  import opened ReceiptSafety
  import opened StatusHistory
  import opened NoBlindReentry

  // ------------------------------------------------------------- where a begin comes from

  /** A connector that is driven automatically must take a key, and answer for it afterwards. */
  predicate Answerable(connector: Connector) {
    connector.mode == AutomaticWrite && connector.idempotencyKey && connector.queryByKey
  }

  /** The two places between the check of the connector and the begin of the execution. */
  predicate Checked(pc: Pc) {
    pc == Scan || pc == Begin(Executing)
  }

  ghost predicate CheckedOk(run: Run) {
    && (run.pc == Scan && run.local.connector.mode == AutomaticWrite ==> Answerable(run.local.connector))
    && (run.pc == Begin(Executing) ==> Answerable(run.local.connector))
  }

  lemma CheckedStep(db: Db, run: Run, index: nat, oracle: Oracle)
    requires RunOk(db, run) && CheckedOk(run)
    ensures var after := Step(db, run, index, oracle).run;
            && CheckedOk(after)
            && (after.pc == Begin(Executing) ==>
                  && run.pc == Scan && after.local == run.local
                  && !HasExecutionReceipt(db, run.intentId)
                  && (run.local.reversibility == R3 ==> oracle.approved))
  {
    if !Finished(run.pc) && oracle.fault != FaultBefore {
      hide StepTransition, StepBegin, StepPersist, DispatchReconcile, DispatchCompensation, ExternalFenceHeld,
           FenceHeld, TransitionOk, HasExecutionReceipt, HandleExecuted, HandleQueried, HandleCompensated,
           HandleQueriedCompensation, ResolveConnector;
      match run.pc
      case Begin(_) => CheckedBegin(db, run, index, oracle);
      case Persist(_, _) => CheckedPersist(db, run, index, oracle.fault);
      case Transition(_, _) => CheckedTransition(db, run, index, oracle.fault);
      case Scan => CheckedScan(db, run, oracle);
      case Resolve => CheckedResolve(run, oracle);
      case _ => CheckedHandlers(run);
    }
  }

  lemma CheckedBegin(db: Db, run: Run, index: nat, oracle: Oracle)
    requires run.pc.Begin?
    ensures !Checked(StepBegin(db, run, index, run.pc.next, oracle).run.pc)
  {
    hide FenceHeld, CanTransition, AcquireFence;
  }

  lemma CheckedPersist(db: Db, run: Run, index: nat, fault: Fault)
    requires run.pc.Persist?
    ensures !Checked(StepPersist(db, run, run.pc.draft, run.pc.mark, fault).run.pc)
  {
    hide FenceHeld, CanTransition;
  }

  lemma CheckedTransition(db: Db, run: Run, index: nat, fault: Fault)
    requires run.pc.Transition?
    ensures !Checked(StepTransition(db, run, index, run.pc.to, run.pc.after, fault).run.pc)
  {
    hide FenceHeld, CanTransition, SetStatus;
  }

  lemma CheckedHandlers(run: Run)
    ensures run.pc.CheckExecuted? ==> !Checked(HandleExecuted(run, run.pc.executed).pc)
    ensures run.pc.CheckQueried? ==> !Checked(HandleQueried(run, run.pc.answer).pc)
    ensures run.pc.CheckCompensated? ==> !Checked(HandleCompensated(run, run.pc.compensated).pc)
    ensures run.pc.CheckQueriedCompensation? ==> !Checked(HandleQueriedCompensation(run, run.pc.found).pc)
  {
  }

  lemma CheckedResolve(run: Run, oracle: Oracle)
    requires run.pc == Resolve && !run.guarded
    ensures CheckedOk(ResolveConnector(run, oracle)) && ResolveConnector(run, oracle).pc != Begin(Executing)
  {
  }

  lemma CheckedScan(db: Db, run: Run, oracle: Oracle)
    requires run.pc == Scan && !run.guarded && CheckedOk(run)
    ensures DispatchCompensation(db, run).pc != Scan && DispatchCompensation(db, run).pc != Begin(Executing)
    ensures var after := DispatchReconcile(db, run, oracle);
            && after.pc != Scan && after.local == run.local
            && (after.pc == Begin(Executing) ==>
                  && Answerable(run.local.connector) && !HasExecutionReceipt(db, run.intentId)
                  && (run.local.reversibility == R3 ==> oracle.approved))
  {
    hide HasExecutionReceipt, HasCompensationReceipt, CanTransition;
  }

  // ------------------------------------------------------------------- over executions

  ghost predicate AllCheckedOk(runs: seq<Run>) {
    forall r :: 0 <= r < |runs| ==> CheckedOk(runs[r])
  }

  lemma OthersStay(s: State, act: Action, r: nat)
    requires Enabled(s, act) && r < |Next(s, act).runs|
    requires Checked(Next(s, act).runs[r].pc) || Next(s, act).runs[r].pc == Compensate
    requires !act.Work? || act.run != r
    ensures r < |s.runs| && s.runs[r] == Next(s, act).runs[r]
  {
    hide Step, EnqueueJob, ClaimJob, HeartbeatJob, CompleteJob, FailJob, RecoverJob,
         RequestReconciliation, RecordManualReceipt, RecordApiReceipt, InvalidateIntent, PrepareIntent;
  }

  lemma CheckedNext(s: State, act: Action)
    requires ReceiptInv(s) && AllCheckedOk(s.runs) && Enabled(s, act)
    ensures AllCheckedOk(Next(s, act).runs)
  {
    hide Next, Step, RunOk, CheckedOk;
    var t := Next(s, act);
    forall r | 0 <= r < |t.runs| ensures CheckedOk(t.runs[r]) {
      if !Checked(t.runs[r].pc) {
        Unchecked(t.runs[r]);
      } else if act.Work? && act.run == r {
        WorkRun(s, act);
        CheckedStep(s.db, s.runs[r], r, act.oracle);
      } else {
        OthersStay(s, act, r);
      }
    }
  }

  lemma Unchecked(run: Run)
    requires !Checked(run.pc)
    ensures CheckedOk(run)
  {
  }

  lemma WorkRun(s: State, act: Action)
    requires Enabled(s, act) && act.Work?
    ensures var t, result := Next(s, act), Step(s.db, s.runs[act.run], act.run, act.oracle);
            t.runs == s.runs[act.run := result.run] && t.log == s.log + result.events && t.db == result.db
  {
    hide Step;
  }

  lemma {:induction false} ChecksHold(actions: seq<Action>)
    requires Execution(actions)
    ensures AllCheckedOk(StateAfter(actions).runs)
  {
    hide Next, Enabled, ReceiptInv, AllCheckedOk;
    if actions == [] {
      NoneChecked();
    } else {
      var before := actions[..|actions| - 1];
      ChecksHold(before);
      ReceiptsHold(before);
      CheckedNext(StateAfter(before), actions[|actions| - 1]);
    }
  }

  lemma NoneChecked()
    ensures AllCheckedOk(INITIAL.runs)
  {
  }

  /** The moment at which run `r` was let through to begin the execution of an intent of this kind. */
  ghost predicate LetThrough(actions: seq<Action>, k: nat, r: nat, i: IntentId, reversibility: Reversibility)
    requires Execution(actions)
  {
    && k < |actions| && Execution(actions[..k])
    && var asked := StateAfter(actions[..k]);
    && r < |asked.runs| && Drives(asked.runs[r], i) && asked.runs[r].pc == Scan
    && actions[k].Work? && actions[k].run == r
    && !HasExecutionReceipt(asked.db, i)
    && (reversibility == R3 ==> actions[k].oracle.approved)
  }

  /** A run about to begin was let through, at a moment no later than now. */
  lemma {:induction false} BeginIsLetThrough(actions: seq<Action>, r: nat) returns (k: nat)
    requires Execution(actions)
    requires var s := StateAfter(actions); r < |s.runs| && s.runs[r].pc == Begin(Executing)
    ensures var s := StateAfter(actions);
            && LetThrough(actions, k, r, s.runs[r].intentId, s.runs[r].local.reversibility)
            && |StateAfter(actions[..k]).log| <= |s.log|
  {
    hide Next, Enabled, ReceiptInv, LeaseInv, AllCheckedOk, CheckedOk, HasExecutionReceipt, RunOk;
    assert actions != [];
    var n := |actions| - 1;
    var before, act := actions[..n], actions[n];
    PrefixRuns(actions, n);
    var s, t := StateAfter(before), StateAfter(actions);
    LeasesHold(before);
    LogGrows(s, act);
    if act.Work? && act.run == r {
      JustLetThrough(before, act);
      k := n;
    } else {
      OthersStay(s, act, r);
      k := BeginIsLetThrough(before, r);
      PrefixRuns(actions, k);
      assert before[..k] == actions[..k];
    }
  }

  lemma JustLetThrough(before: seq<Action>, act: Action)
    requires Execution(before) && Enabled(StateAfter(before), act) && act.Work?
    requires Next(StateAfter(before), act).runs[act.run].pc == Begin(Executing)
    ensures act.run < |StateAfter(before).runs|
    ensures var s, run := StateAfter(before), Next(StateAfter(before), act).runs[act.run];
            && Drives(s.runs[act.run], run.intentId) && s.runs[act.run].pc == Scan
            && !HasExecutionReceipt(s.db, run.intentId)
            && (run.local.reversibility == R3 ==> act.oracle.approved)
  {
    hide Next, Step, CheckedOk, HasExecutionReceipt, RunOk;
    var s := StateAfter(before);
    ReceiptsHold(before);
    LeasesHold(before);
    ChecksHold(before);
    assert RunFits(s.db, s.runs[act.run]) && RunOk(s.db, s.runs[act.run]) && CheckedOk(s.runs[act.run]);
    WorkRun(s, act);
    CheckedStep(s.db, s.runs[act.run], act.run, act.oracle);
    StepLocal(s.db, s.runs[act.run], act.run, act.oracle);
  }

  /** What is fixed once an intent is prepared. */
  ghost predicate KeepsTerms(before: Db, after: Db) {
    forall i :: i in before.intents ==>
      && i in after.intents
      && after.intents[i].reversibility == before.intents[i].reversibility
      && after.intents[i].connector == before.intents[i].connector
  }

  lemma TermsStay(s: State, act: Action)
    requires LeaseInv(s) && ReceiptInv(s) && Enabled(s, act)
    ensures KeepsTerms(s.db, Next(s, act).db)
  {
    hide Next, Step, RunOk, CopyOk, HasKind;
    if act.Work? {
      WorkRun(s, act);
      var kind := StepKind(s.db, s.runs[act.run], act.run, act.oracle);
      KindKeepsTerms(s.db, s.runs[act.run], act.run, Step(s.db, s.runs[act.run], act.run, act.oracle), kind);
    } else if OutsideAction(act) {
      if act.Fail? {
        FailRunFits(s, act);
      }
      var change := OutsideStep(s, act);
      OutsideKeepsTerms(s.db, Next(s, act).db, change);
    } else {
      QuietTables(s, act);
    }
  }

  lemma KindKeepsTerms(db: Db, run: Run, index: nat, result: StepResult, kind: Kind)
    requires HasKind(db, run, index, result, kind)
    ensures KeepsTerms(db, result.db)
  {
  }

  lemma OutsideKeepsTerms(before: Db, after: Db, change: Change)
    requires Outside(before, after, change)
    ensures KeepsTerms(before, after)
  {
    hide LegalPath;
  }

  /** An entry that is new in the log was written by a run that was about to begin. */
  lemma NewEntry(s: State, act: Action, i: IntentId, p: nat)
    requires LeaseInv(s) && ReceiptInv(s) && Enabled(s, act)
    requires |s.log| <= p < |Next(s, act).log| && Entry(Next(s, act).log[p], i)
    ensures act.Work? && act.run < |s.runs| && Next(s, act).log[p].writer == Some(act.run)
    ensures var run := s.runs[act.run];
            && run.pc == Begin(Executing) && run.intentId == i && i in s.db.intents
            && run.local.reversibility == s.db.intents[i].reversibility
            && run.local.connector == s.db.intents[i].connector
  {
    hide Next, Step, RunOk, FenceHeld, CanTransition;
    var t := Next(s, act);
    if act.Work? {
      WorkRun(s, act);
      var kind := FactsOf(s, act);
      assert t.log[p] == Step(s.db, s.runs[act.run], act.run, act.oracle).events[p - |s.log|];
      assert CopyOk(s.db, s.runs[act.run]) && RunFits(s.db, s.runs[act.run]);
    } else if OutsideAction(act) {
      if act.Fail? {
        FailRunFits(s, act);
      }
      var change := OutsideStep(s, act);
      assert t.log[p] == ChangeEvents(s.db, change)[p - |s.log|];
      if change.intentId in s.db.intents {
        PathEventsIrrelevant(change.intentId, s.db.intents[change.intentId].status, change.path, i);
      }
      assert false;
    } else {
      QuietLog(s, act);
      assert false;
    }
  }

  /**
    Every begin of an external execution was let through by its own run beforehand: the connector is automatic,
    takes a key and answers for it, no receipt was durable, and an R3 intent had its approval.
   */
  lemma {:induction false} EntryWasApproved(actions: seq<Action>, i: IntentId, p: nat) returns (k: nat)
    requires Execution(actions)
    requires p < |StateAfter(actions).log| && Entry(StateAfter(actions).log[p], i)
    ensures var s := StateAfter(actions);
            && i in s.db.intents && Answerable(s.db.intents[i].connector)
            && LetThrough(actions, k, s.log[p].writer.value, i, s.db.intents[i].reversibility)
            && |StateAfter(actions[..k]).log| <= p
  {
    hide Next, Enabled, ReceiptInv, LeaseInv, CheckedOk, HasExecutionReceipt;
    assert actions != [];
    var n := |actions| - 1;
    var before, act := actions[..n], actions[n];
    var s := StateAfter(before);
    LeasesHold(before);
    ReceiptsHold(before);
    LogGrows(s, act);
    TermsStay(s, act);
    if p < |s.log| {
      k := EntryWasApproved(before, i, p);
    } else {
      NewEntry(s, act, i, p);
      ChecksHold(before);
      AnswerableAt(s, act.run);
      k := BeginIsLetThrough(before, act.run);
    }
    PrefixRuns(actions, k);
    assert before[..k] == actions[..k];
  }

  lemma AnswerableAt(s: State, r: nat)
    requires AllCheckedOk(s.runs) && r < |s.runs| && s.runs[r].pc == Begin(Executing)
    ensures Answerable(s.runs[r].local.connector)
  {
    assert CheckedOk(s.runs[r]);
  }

  // ---------------------------------------------------------------------------- compensation

  /** The moment at which run `r`, having begun the compensation, found itself still in charge of the resource. */
  ghost predicate InCharge(actions: seq<Action>, k: nat, r: nat)
    requires Execution(actions)
  {
    && k < |actions| && Execution(actions[..k])
    && var asked := StateAfter(actions[..k]);
    && r < |asked.runs| && asked.runs[r].local.status == CompensationPending
    && ExternalFenceHeld(asked.db, asked.runs[r])
    && actions[k].Work? && actions[k].run == r
  }

  lemma CompensateFrom(db: Db, run: Run, index: nat, oracle: Oracle)
    requires RunOk(db, run)
    ensures Step(db, run, index, oracle).run.pc == Compensate ==>
              ExternalFenceHeld(db, run) && run.local.status == CompensationPending
  {
    if !Finished(run.pc) && oracle.fault != FaultBefore {
      hide StepTransition, StepBegin, StepPersist, DispatchReconcile, DispatchCompensation, ExternalFenceHeld,
           FenceHeld, TransitionOk, HasExecutionReceipt, HandleExecuted, HandleQueried, HandleCompensated,
           HandleQueriedCompensation, ResolveConnector;
      match run.pc
      case Begin(_) => NotCompensateBegin(db, run, index, oracle);
      case Persist(_, _) => NotCompensatePersist(db, run, index, oracle.fault);
      case Transition(_, _) => NotCompensateTransition(db, run, index, oracle.fault);
      case _ => NotCompensateOther(db, run, oracle);
    }
  }

  lemma NotCompensateBegin(db: Db, run: Run, index: nat, oracle: Oracle)
    requires run.pc.Begin?
    ensures StepBegin(db, run, index, run.pc.next, oracle).run.pc != Compensate
  {
    hide FenceHeld, CanTransition, AcquireFence;
  }

  lemma NotCompensatePersist(db: Db, run: Run, index: nat, fault: Fault)
    requires run.pc.Persist?
    ensures StepPersist(db, run, run.pc.draft, run.pc.mark, fault).run.pc != Compensate
  {
    hide FenceHeld, CanTransition;
  }

  lemma NotCompensateTransition(db: Db, run: Run, index: nat, fault: Fault)
    requires run.pc.Transition?
    ensures StepTransition(db, run, index, run.pc.to, run.pc.after, fault).run.pc != Compensate
  {
    hide FenceHeld, CanTransition, SetStatus;
  }

  lemma NotCompensateOther(db: Db, run: Run, oracle: Oracle)
    ensures run.pc.CheckExecuted? ==> HandleExecuted(run, run.pc.executed).pc != Compensate
    ensures run.pc.CheckQueried? ==> HandleQueried(run, run.pc.answer).pc != Compensate
    ensures run.pc.CheckCompensated? ==> HandleCompensated(run, run.pc.compensated).pc != Compensate
    ensures run.pc.CheckQueriedCompensation? ==> HandleQueriedCompensation(run, run.pc.found).pc != Compensate
    ensures ResolveConnector(run, oracle).pc != Compensate
    ensures DispatchReconcile(db, run, oracle).pc != Compensate && DispatchCompensation(db, run).pc != Compensate
  {
    hide HasExecutionReceipt, HasCompensationReceipt, CanTransition;
  }

  /** The connector is asked to compensate only by a run that has checked its fences after its begin. */
  lemma {:induction false} CompensationWasFenced(actions: seq<Action>, r: nat) returns (k: nat)
    requires Execution(actions)
    requires var s := StateAfter(actions); r < |s.runs| && s.runs[r].pc == Compensate
    ensures InCharge(actions, k, r)
  {
    hide Next, Enabled, ReceiptInv, LeaseInv, ExternalFenceHeld, RunOk;
    assert actions != [];
    var n := |actions| - 1;
    var before, act := actions[..n], actions[n];
    PrefixRuns(actions, n);
    if act.Work? && act.run == r {
      JustInCharge(before, act);
      k := n;
    } else {
      OthersStay(StateAfter(before), act, r);
      k := CompensationWasFenced(before, r);
      PrefixRuns(actions, k);
      assert before[..k] == actions[..k];
    }
  }

  lemma JustInCharge(before: seq<Action>, act: Action)
    requires Execution(before) && Enabled(StateAfter(before), act) && act.Work?
    requires Next(StateAfter(before), act).runs[act.run].pc == Compensate
    ensures act.run < |StateAfter(before).runs|
    ensures var s := StateAfter(before);
            ExternalFenceHeld(s.db, s.runs[act.run]) && s.runs[act.run].local.status == CompensationPending
  {
    hide Next, Step, ExternalFenceHeld, RunOk;
    var s := StateAfter(before);
    ReceiptsHold(before);
    assert RunOk(s.db, s.runs[act.run]);
    WorkRun(s, act);
    CompensateFrom(s.db, s.runs[act.run], act.run, act.oracle);
  }
}
