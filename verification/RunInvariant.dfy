/**
  What the program counter of a handler run says about its local copy of the intent and about
  the receipts that are durable: the control flow of apps/worker/src/effects.ts as an invariant.
 */
module RunInvariant {
  import opened EffectTable
  import opened Tables
  import opened EffectRuntime
  import opened RunSteps

  /** Writing `to` is only ever planned when the receipt it stands for is already durable. */
  ghost predicate Backed(db: Db, run: Run, to: Status) {
    && (to == Committed || to == IrreversibleCommitted ==>
          to == TerminalStatus(run.local.reversibility) && HasReceipt(db, run.intentId))
    && (to == Compensated || to == CompensationPending ==> HasCompensationReceipt(db, run.intentId))
  }

  ghost predicate TransitionOk(db: Db, run: Run, to: Status, after: After) {
    && Backed(db, run, to)
    && to != Prepared && to != Executing
    && (run.guarded ==> InFlight(run.local.status) && !InFlight(to))
    && match after
       case ThenReturn => !InFlight(to)
       case ThenRaise(_) => !InFlight(to)
       case ThenQueryExecution => to == ReconciliationRequired && !run.guarded
       case ThenQueryCompensation => to == ReconciliationRequired && !run.guarded
       case ThenCommit => to == ReconciliationRequired && !run.guarded && HasReceipt(db, run.intentId)
       case ThenCompensated => to == CompensationPending && !run.guarded
  }

  ghost predicate RunOk(db: Db, run: Run) {
    match run.pc
    case Load => !run.guarded
    case Resolve => !run.guarded
    case Scan => !run.guarded
    case Begin(next) =>
      && !run.guarded
      && (next == Executing ==> run.local.status == Prepared || run.local.status == Failed)
      && InFlight(next)
    case Execute => run.guarded && run.local.status == Executing
    case CheckExecuted(_) => run.guarded && run.local.status == Executing
    case QueryExecution => !run.guarded && run.local.status == ReconciliationRequired
    case CheckQueried(_) => !run.guarded && run.local.status == ReconciliationRequired
    case CheckBeforeCompensate => run.guarded && run.local.status == CompensationPending
    case Compensate => run.guarded && run.local.status == CompensationPending
    case CheckCompensated(_) => run.guarded && run.local.status == CompensationPending
    case QueryCompensation => !run.guarded && run.local.status == ReconciliationRequired
    case CheckQueriedCompensation(_) => !run.guarded && run.local.status == ReconciliationRequired
    case Persist(_, mark) =>
      && (mark == MarkExecuted || mark == MarkCompensated)
      && (if run.guarded then run.local.status == (if mark == MarkExecuted then Executing else CompensationPending)
          else run.local.status == ReconciliationRequired)
    case Transition(to, after) => TransitionOk(db, run, to, after)
    case Raise(_) => true
    case Return => !InFlight(run.local.status)
    case Halted => true
  }

  /** What is fixed once an intent is prepared agrees between the row and every copy of it. */
  ghost predicate CopyOk(db: Db, run: Run) {
    (run.handler != OtherWork && run.pc != Load && !run.pc.Raise? && !run.pc.Halted?) ==>
      && run.intentId in db.intents
      && run.local.reversibility == db.intents[run.intentId].reversibility
      && run.local.connector == db.intents[run.intentId].connector
      && run.local.resource == db.intents[run.intentId].resource
  }

  /** What no transaction takes back. */
  ghost predicate Grows(before: Db, after: Db) {
    && before.receipts <= after.receipts
    && forall i :: i in before.intents ==>
         && i in after.intents
         && after.intents[i].reversibility == before.intents[i].reversibility
         && after.intents[i].connector == before.intents[i].connector
         && after.intents[i].resource == before.intents[i].resource
  }

  lemma ReceiptsStay(before: Db, after: Db, intentId: IntentId)
    requires before.receipts <= after.receipts
    ensures HasReceipt(before, intentId) ==> HasReceipt(after, intentId)
    ensures HasExecutionReceipt(before, intentId) ==> HasExecutionReceipt(after, intentId)
    ensures HasCompensationReceipt(before, intentId) ==> HasCompensationReceipt(after, intentId)
  {
    forall k | 0 <= k < |before.receipts| ensures before.receipts[k] == after.receipts[k] {
    }
    if HasReceipt(before, intentId) {
      var k :| 0 <= k < |before.receipts| && before.receipts[k].intentId == intentId;
      assert after.receipts[k].intentId == intentId;
    }
    if HasExecutionReceipt(before, intentId) {
      var k :| 0 <= k < |before.receipts| && before.receipts[k].intentId == intentId && ExecutionReceipt(before.receipts[k]);
      assert after.receipts[k].intentId == intentId && ExecutionReceipt(after.receipts[k]);
    }
    if HasCompensationReceipt(before, intentId) {
      var k :| 0 <= k < |before.receipts| && before.receipts[k].intentId == intentId && CompensationReceipt(before.receipts[k]);
      assert after.receipts[k].intentId == intentId && CompensationReceipt(after.receipts[k]);
    }
  }

  lemma ReceiptsImply(db: Db, intentId: IntentId)
    ensures HasExecutionReceipt(db, intentId) || HasCompensationReceipt(db, intentId) ==> HasReceipt(db, intentId)
  {
  }

  lemma RunStaysOk(before: Db, after: Db, run: Run)
    requires RunOk(before, run) && CopyOk(before, run) && Grows(before, after)
    ensures RunOk(after, run) && CopyOk(after, run)
  {
    hide HasReceipt, HasExecutionReceipt, HasCompensationReceipt;
    ReceiptsStay(before, after, run.intentId);
  }

  lemma OnlyReceiptsMatter(before: Db, after: Db, run: Run)
    requires RunOk(before, run) && before.receipts == after.receipts
    ensures RunOk(after, run)
  {
  }

  // -------------------------------------------- one step keeps a run in order

  lemma ThrowOk(db: Db, run: Run, retryable: bool)
    requires run.guarded ==> InFlight(run.local.status)
    ensures RunOk(db, Throw(run, retryable))
  {
    hide HasReceipt, HasCompensationReceipt;
  }

  lemma FinalizeExecutionOk(db: Db, run: Run)
    requires HasReceipt(db, run.intentId)
    requires run.guarded ==> run.local.status == Executing
    ensures RunOk(db, FinalizeExecution(run))
  {
    hide HasReceipt, HasCompensationReceipt;
  }

  lemma FinalizeCompensationOk(db: Db, run: Run)
    requires HasCompensationReceipt(db, run.intentId)
    requires run.guarded ==> run.local.status == CompensationPending
    ensures RunOk(db, FinalizeCompensation(run))
  {
    hide HasReceipt, HasCompensationReceipt;
  }

  lemma ContinueOk(db: Db, run: Run, to: Status, after: After, updated: Intent)
    requires TransitionOk(db, run, to, after)
    requires updated.status == to && updated.reversibility == run.local.reversibility
    ensures RunOk(db, Continue(run.(local := updated), after))
  {
    hide HasReceipt, HasCompensationReceipt;
    if after == ThenCompensated {
      ReceiptsImply(db, run.intentId);
    }
  }

  lemma DispatchReconcileOk(db: Db, run: Run, oracle: Oracle)
    requires run.pc == Scan && RunOk(db, run)
    ensures RunOk(db, DispatchReconcile(db, run, oracle))
  {
    hide HasReceipt, HasCompensationReceipt, HasExecutionReceipt, FinalizeExecution;
    if HasExecutionReceipt(db, run.intentId) {
      ReceiptsImply(db, run.intentId);
      FinalizeExecutionOk(db, run);
    }
  }

  lemma DispatchCompensationOk(db: Db, run: Run)
    requires run.pc == Scan && RunOk(db, run)
    ensures RunOk(db, DispatchCompensation(db, run))
  {
    hide HasReceipt, HasCompensationReceipt, HasExecutionReceipt, FinalizeCompensation;
    if HasCompensationReceipt(db, run.intentId) {
      FinalizeCompensationOk(db, run);
    }
  }

  lemma HandlersOk(db: Db, run: Run)
    requires RunOk(db, run)
    ensures run.pc.CheckExecuted? ==> RunOk(db, HandleExecuted(run, run.pc.executed))
    ensures run.pc.CheckQueried? ==> RunOk(db, HandleQueried(run, run.pc.answer))
    ensures run.pc.CheckCompensated? ==> RunOk(db, HandleCompensated(run, run.pc.compensated))
    ensures run.pc.CheckQueriedCompensation? ==> RunOk(db, HandleQueriedCompensation(run, run.pc.found))
  {
    hide HasReceipt, HasCompensationReceipt, HasExecutionReceipt;
  }

  lemma GuardInFlight(db: Db, run: Run)
    requires RunOk(db, run) && !Finished(run.pc)
    ensures run.guarded ==> InFlight(run.local.status)
  {
  }

  lemma StepTransitionOk(db: Db, run: Run, index: nat, fault: Fault)
    requires run.pc.Transition? && RunOk(db, run) && CopyOk(db, run) && run.handler != OtherWork
    ensures RunOk(db, StepTransition(db, run, index, run.pc.to, run.pc.after, fault).run)
  {
    assert TransitionOk(db, run, run.pc.to, run.pc.after);
    GuardInFlight(db, run);
    hide HasReceipt, HasCompensationReceipt, Throw, Continue, RunOk, FenceHeld, TransitionOk;
    ThrowOk(db, run, false);
    ThrowOk(db, run, true);
    ContinueOk(db, run, run.pc.to, run.pc.after, db.intents[run.intentId].(status := run.pc.to));
    if run.local.status == run.pc.to {
      ContinueOk(db, run, run.pc.to, run.pc.after, run.local);
      assert run.(local := run.local) == run;
    }
  }

  lemma StepBeginOk(db: Db, run: Run, index: nat, oracle: Oracle)
    requires run.pc.Begin? && RunOk(db, run)
    ensures RunOk(db, StepBegin(db, run, index, run.pc.next, oracle).run)
  {
    GuardInFlight(db, run);
    assert !run.guarded;
    ThrowOk(db, run, false);
    ThrowOk(db, run, true);
    hide HasReceipt, HasCompensationReceipt, Throw, FenceHeld;
  }

  lemma StepPersistOk(db: Db, run: Run, index: nat, fault: Fault)
    requires run.pc.Persist? && RunOk(db, run)
    ensures var result := StepPersist(db, run, run.pc.draft, run.pc.mark, fault);
            RunOk(result.db, result.run)
  {
    hide Throw, FinalizeExecution, FinalizeCompensation, FenceHeld, HasReceipt, HasCompensationReceipt;
    var result := StepPersist(db, run, run.pc.draft, run.pc.mark, fault);
    ThrowOk(result.db, run, false);
    ThrowOk(result.db, run, true);
    if ReceiptOf(run) in result.db.receipts {
      PersistedCounts(result.db, run);
      if run.pc.mark == MarkExecuted {
        FinalizeExecutionOk(result.db, run);
      } else {
        FinalizeCompensationOk(result.db, run);
      }
    }
  }

  lemma PersistedCounts(db: Db, run: Run)
    requires run.pc.Persist? && ReceiptOf(run) in db.receipts
    requires run.pc.mark == MarkExecuted || run.pc.mark == MarkCompensated
    ensures HasReceipt(db, run.intentId)
    ensures run.pc.mark == MarkCompensated ==> HasCompensationReceipt(db, run.intentId)
  {
    var k :| 0 <= k < |db.receipts| && db.receipts[k] == ReceiptOf(run);
  }

  /** The program counter invariant survives every step of the run itself. */
  lemma StepOk(db: Db, run: Run, index: nat, oracle: Oracle)
    requires RunOk(db, run) && CopyOk(db, run)
    requires run.handler == OtherWork ==> Finished(run.pc)
    ensures var result := Step(db, run, index, oracle);
            RunOk(result.db, result.run)
  {
    if Finished(run.pc) {
    } else {
      GuardInFlight(db, run);
      ThrowOk(db, run, false);
      ThrowOk(db, run, true);
      if oracle.fault != FaultBefore {
        StepOkNoFault(db, run, index, oracle);
      }
    }
  }

  lemma StepOkNoFault(db: Db, run: Run, index: nat, oracle: Oracle)
    requires RunOk(db, run) && CopyOk(db, run) && !Finished(run.pc) && oracle.fault != FaultBefore
    requires run.handler != OtherWork
    ensures var result := Step(db, run, index, oracle);
            RunOk(result.db, result.run)
  {
    hide Throw, StepTransition, StepBegin, StepPersist, DispatchReconcile, DispatchCompensation,
         HandleExecuted, HandleQueried, HandleCompensated, HandleQueriedCompensation, ExternalFenceHeld,
         HasReceipt, HasCompensationReceipt, TransitionOk;
    if StoreWrite(run.pc) {
      StepStoreOk(db, run, index, oracle);
    } else if run.pc == Scan {
      DispatchReconcileOk(db, run, oracle);
      DispatchCompensationOk(db, run);
    } else if run.pc == Resolve {
      ResolveOk(db, run, oracle);
    } else {
      GuardInFlight(db, run);
      ThrowOk(db, run, false);
      ThrowOk(db, run, true);
      HandlersOk(db, run);
    }
  }

  predicate StoreWrite(pc: Pc) {
    pc.Begin? || pc.Persist? || pc.Transition?
  }

  lemma ResolveOk(db: Db, run: Run, oracle: Oracle)
    requires run.pc == Resolve && RunOk(db, run)
    ensures RunOk(db, ResolveConnector(run, oracle))
  {
  }

  lemma StepStoreOk(db: Db, run: Run, index: nat, oracle: Oracle)
    requires RunOk(db, run) && CopyOk(db, run) && StoreWrite(run.pc) && oracle.fault != FaultBefore
    requires run.handler != OtherWork
    ensures var result := Step(db, run, index, oracle);
            RunOk(result.db, result.run)
  {
    hide RunOk, CopyOk, StepTransition, StepBegin, StepPersist;
    var result := Step(db, run, index, oracle);
    match run.pc
    case Begin(_) =>
      StepBeginOk(db, run, index, oracle);
      var kind := BeginKind(db, run, index, oracle);
      OnlyReceiptsMatter(db, result.db, result.run);
    case Persist(_, _) => StepPersistOk(db, run, index, oracle.fault);
    case Transition(_, _) =>
      StepTransitionOk(db, run, index, oracle.fault);
      var kind := TransitionKind(db, run, index, oracle.fault);
      OnlyReceiptsMatter(db, result.db, result.run);
  }

  /** A copy is either kept, or refreshed from the row as it is after the step. */
  ghost predicate Refreshed(run: Run, result: StepResult) {
    && SameRun(run, result.run)
    && (|| result.run.local == run.local
        || (run.intentId in result.db.intents && result.run.local == result.db.intents[run.intentId]))
  }

  lemma StoreLocal(db: Db, run: Run, index: nat, oracle: Oracle)
    ensures run.pc.Transition? ==>
              Refreshed(run, StepTransition(db, run, index, run.pc.to, run.pc.after, oracle.fault))
    ensures run.pc.Begin? ==> Refreshed(run, StepBegin(db, run, index, run.pc.next, oracle))
    ensures run.pc.Persist? ==>
              Refreshed(run, StepPersist(db, run, run.pc.draft, run.pc.mark, oracle.fault))
  {
    hide Throw, Continue, FinalizeExecution, FinalizeCompensation, FenceHeld;
  }

  lemma StepLocal(db: Db, run: Run, index: nat, oracle: Oracle)
    ensures Refreshed(run, Step(db, run, index, oracle))
    ensures Finished(run.pc) ==> Step(db, run, index, oracle).run == run
  {
    hide Throw, StepTransition, StepBegin, StepPersist, DispatchReconcile, DispatchCompensation, ResolveConnector,
         HandleExecuted, HandleQueried, HandleCompensated, HandleQueriedCompensation, ExternalFenceHeld, FenceHeld;
    StoreLocal(db, run, index, oracle);
  }

  /** The first step of a handler either fails outright or takes a faithful copy. */
  lemma LoadStep(db: Db, run: Run, index: nat, oracle: Oracle)
    requires run.pc == Load && !run.guarded
    ensures var result := Step(db, run, index, oracle);
            && result.db == db && result.events == []
            && (result.run.pc.Raise?
                || (run.intentId in db.intents && result.run.local == db.intents[run.intentId]
                    && result.run.pc == Resolve))
  {
  }

  /** The copy keeps agreeing with the row on everything that never changes. */
  lemma CopyStep(db: Db, run: Run, index: nat, oracle: Oracle)
    requires RunOk(db, run) && CopyOk(db, run) && run.handler != OtherWork
    ensures var result := Step(db, run, index, oracle);
            Grows(db, result.db) && CopyOk(result.db, result.run)
  {
    hide RunOk, Step;
    var result := Step(db, run, index, oracle);
    var kind := StepKind(db, run, index, oracle);
    StepLocal(db, run, index, oracle);
    if run.pc == Load {
      assert !run.guarded by { RunOkAtLoad(db, run); }
      LoadStep(db, run, index, oracle);
    }
  }

  lemma RunOkAtLoad(db: Db, run: Run)
    requires RunOk(db, run) && run.pc == Load
    ensures !run.guarded
  {
  }
}
