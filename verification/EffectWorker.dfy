/**
  The worker as an object (apps/worker/src/effects.ts): a handler execution that reassigns its
  local intent and calls the store transaction by transaction. `Advance` runs it from one await to
  the next and is proved to be one `Step` of module EffectRuntime.
 */
module EffectWorker {
  import opened EffectTable
  import opened Tables
  import opened EffectRuntime
  import opened Database

  class HandlerRun {
    const store: PostgresStore
    const jobId: JobId
    const worker: WorkerId
    const token: nat
    const handler: JobType
    const intentId: IntentId
    var intent: Intent
    var pc: Pc
    var guarded: bool

    function View(): Run
      reads this
    {
      Run(jobId, worker, token, handler, intentId, intent, pc, guarded)
    }

    constructor (store: PostgresStore, jobId: JobId, job: Job, worker: WorkerId)
      ensures this.store == store && View() == NewRun(job, jobId, worker)
    {
      this.store, this.jobId, this.worker, this.token := store, jobId, worker, job.token;
      this.handler, this.intentId, this.intent := job.jobType, job.intentId, BLANK;
      this.pc, this.guarded := if EffectJob(job) then Load else Return, false;
    }

    function Fence(): JobFence {
      JobFence(jobId, worker, token)
    }

    // ------------------------------------------------------------ control flow

    method Throw(retryable: bool)
      modifies this`pc, this`guarded
      ensures View() == EffectRuntime.Throw(old(View()), retryable)
    {
      if guarded {
        pc, guarded := Pc.Transition(ReconciliationRequired, ThenRaise(true)), false;
      } else {
        pc := Raise(retryable);
      }
    }

    method Continue(after: After)
      modifies this`pc, this`guarded
      ensures View() == EffectRuntime.Continue(old(View()), after)
    {
      match after
      case ThenReturn => pc := Return;
      case ThenRaise(retryable) => pc, guarded := Raise(retryable), false;
      case ThenQueryExecution =>
        pc := if intent.connector.queryByKey || intent.connector.queryByExternalId then QueryExecution else Return;
      case ThenQueryCompensation =>
        pc := if intent.connector.reconcileCompensation then QueryCompensation else Return;
      case ThenCommit => pc := Pc.Transition(TerminalStatus(intent.reversibility), ThenReturn);
      case ThenCompensated => pc := Pc.Transition(Compensated, ThenReturn);
    }

    method FinalizeExecution()
      modifies this`pc
      ensures View() == EffectRuntime.FinalizeExecution(old(View()))
    {
      var desired := TerminalStatus(intent.reversibility);
      if intent.status == desired {
        pc := Return;
      } else if !CanTransition(intent.status, desired) {
        pc := Pc.Transition(ReconciliationRequired, ThenCommit);
      } else {
        pc := Pc.Transition(desired, ThenReturn);
      }
    }

    method FinalizeCompensation()
      modifies this`pc
      ensures View() == EffectRuntime.FinalizeCompensation(old(View()))
    {
      if intent.status == Compensated {
        pc := Return;
      } else if intent.status == ReconciliationRequired {
        pc := Pc.Transition(CompensationPending, ThenCompensated);
      } else {
        pc := Pc.Transition(Compensated, ThenReturn);
      }
    }

    // ---------------------------------------------------------- store operations

    method TransitionTo(index: nat, to: Status, after: After, fault: Fault) returns (events: seq<Event>)
      modifies this, store
      ensures StepResult(store.View(), View(), events)
           == StepTransition(old(store.View()), old(View()), index, to, after, fault)
      ensures store.receipts == old(store.receipts)
    {
      hide TransitionIntent, CanTransition, FenceHeld, EffectRuntime.Throw, EffectRuntime.Continue;
      events := [];
      if intent.status == to {
        Continue(after);
        return;
      }
      if !CanTransition(intent.status, to) {
        Throw(false);
        return;
      }
      events := WriteStatus(index, to, after, fault);
    }

    method WriteStatus(index: nat, to: Status, after: After, fault: Fault) returns (events: seq<Event>)
      requires intent.status != to && CanTransition(intent.status, to)
      modifies this, store
      ensures StepResult(store.View(), View(), events)
           == StepTransition(old(store.View()), old(View()), index, to, after, fault)
      ensures store.receipts == old(store.receipts)
    {
      hide TransitionIntent, CanTransition, FenceHeld, EffectRuntime.Throw, EffectRuntime.Continue, StepTransition;
      WrittenStep(store.View(), View(), index, to, after, fault);
      var result := store.Transition(Fence(), intentId, intent.status, to);
      if !result.Written? {
        Throw(true);
        return [];
      }
      events := [Wrote(intentId, intent.status, to, Some(index))];
      Transitioned(result.intent, after, fault);
    }

    /** After a status write: either the answer is lost, or the handler goes on with the new row. */
    method Transitioned(updated: Intent, after: After, fault: Fault)
      modifies this`intent, this`pc, this`guarded
      ensures View() == if fault == FaultAfter then EffectRuntime.Throw(old(View()), false)
                        else EffectRuntime.Continue(old(View()).(local := updated), after)
    {
      if fault == FaultAfter {
        Throw(false);
      } else {
        intent := updated;
        Continue(after);
      }
    }

    method BeginExternalOperation(index: nat, next: Status, oracle: Oracle) returns (events: seq<Event>)
      modifies this, store
      ensures StepResult(store.View(), View(), events) == StepBegin(old(store.View()), old(View()), index, next, oracle)
      ensures store.receipts == old(store.receipts)
    {
      hide AcquireFence, FenceHeld, CanTransition, EffectRuntime.Throw;
      var from := intent.status;
      if !CanTransition(from, next) {
        Throw(false);
        return [];
      }
      var result := store.BeginExternalOperation(Fence(), intentId, from, next, oracle.leaseTime);
      if !result.Written? {
        Throw(true);
        return [];
      }
      events := [Wrote(intentId, from, next, Some(index)), Acquired(result.intent.resource, result.intent.token.value)];
      if oracle.fault == FaultAfter {
        Throw(false);
        return;
      }
      intent, guarded := result.intent, true;
      pc := if next == Executing then Execute else CheckBeforeCompensate;
    }

    method PersistReceipt(draft: Draft, mark: ReceiptMark, fault: Fault) returns (events: seq<Event>)
      requires store.Valid()
      modifies this, store
      ensures store.Valid()
      ensures StepResult(store.View(), View(), events) == StepPersist(old(store.View()), old(View()), draft, mark, fault)
    {
      events := [];
      var receipt := Receipt(draft.receiptId, intentId, mark, mark == MarkCompensated, draft.body);
      var result := store.Append(Fence(), receipt);
      if result == AppendFenceLost {
        Throw(true);
      } else if result == AppendRefused {
        Throw(false);
      } else {
        if result == Stored {
          events := [Recorded(receipt)];
        }
        if fault == FaultAfter {
          Throw(false);
        } else if mark == MarkExecuted {
          FinalizeExecution();
        } else {
          FinalizeCompensation();
        }
      }
    }

    method ListReceipts() returns (executed: bool, compensated: bool)
      ensures executed == HasExecutionReceipt(store.View(), intentId)
      ensures compensated == HasCompensationReceipt(store.View(), intentId)
    {
      executed, compensated := false, false;
      for k := 0 to |store.receipts|
        invariant executed <==> exists n :: 0 <= n < k && store.receipts[n].intentId == intentId
                                            && ExecutionReceipt(store.receipts[n])
        invariant compensated <==> exists n :: 0 <= n < k && store.receipts[n].intentId == intentId
                                               && CompensationReceipt(store.receipts[n])
      {
        if store.receipts[k].intentId == intentId {
          executed := executed || ExecutionReceipt(store.receipts[k]);
          compensated := compensated || CompensationReceipt(store.receipts[k]);
        }
      }
    }

    // ----------------------------------------------------------------- handlers

    method ResolveConnector(oracle: Oracle)
      modifies this`pc, this`guarded
      ensures View() == EffectRuntime.ResolveConnector(old(View()), oracle)
    {
      if !oracle.resolves || !Registered(intent) {
        if Rescuable(intent.status) {
          pc := Pc.Transition(ReconciliationRequired, ThenRaise(false));
        } else {
          Throw(false);
        }
      } else if handler != RunCompensation {
        pc := Scan;
      } else if !intent.connector.compensation || !intent.connector.compensate || !intent.compensationHandler {
        pc := Pc.Transition(RemediationRequired, ThenReturn);
      } else {
        pc := Scan;
      }
    }

    method ReconcileEffectJob(executed: bool, oracle: Oracle)
      requires executed == HasExecutionReceipt(store.View(), intentId)
      modifies this`pc, this`guarded
      ensures View() == DispatchReconcile(store.View(), old(View()), oracle)
    {
      var status := intent.status;
      if executed {
        FinalizeExecution();
        return;
      }
      if status == Committed || status == IrreversibleCommitted
         || status == Compensated || status == RemediationRequired {
        pc := Return;
      } else if intent.connector.mode == ConnectorMode.ManualReceipt {
        if status == ReconciliationRequired {
          pc := Return;
        } else if oracle.execute != WaitingForManualReceipt {
          Throw(false);
        } else {
          pc := Pc.Transition(ReconciliationRequired, ThenReturn);
        }
      } else if status == Executing || status == ReconciliationRequired {
        pc := Pc.Transition(ReconciliationRequired, ThenQueryExecution);
      } else if status != Prepared && status != Failed {
        Throw(false);
      } else if intent.reversibility == R3 && !oracle.approved {
        pc := Pc.Transition(ReconciliationRequired, ThenRaise(false));
      } else {
        pc := Pc.Begin(Executing);
      }
    }

    method RunCompensationJob(compensated: bool)
      requires compensated == HasCompensationReceipt(store.View(), intentId)
      modifies this`pc, this`guarded
      ensures View() == DispatchCompensation(store.View(), old(View()))
    {
      var status := intent.status;
      if compensated {
        FinalizeCompensation();
      } else if status == Compensated {
        pc := Return;
      } else if status == Committed || status == RemediationRequired {
        pc := Pc.Begin(CompensationPending);
      } else if status == ReconciliationRequired || status == CompensationPending {
        pc := Pc.Transition(ReconciliationRequired, ThenQueryCompensation);
      } else {
        Throw(false);
      }
    }

    /** From one await to the next. */
    method Advance(index: nat, oracle: Oracle) returns (events: seq<Event>)
      requires store.Valid()
      modifies this, store
      ensures store.Valid()
      ensures StepResult(store.View(), View(), events) == Step(old(store.View()), old(View()), index, oracle)
    {
      hide StepTransition, StepBegin, StepPersist, DispatchReconcile, DispatchCompensation,
           EffectRuntime.ResolveConnector, EffectRuntime.Throw, FenceHeld, HasExecutionReceipt, HasCompensationReceipt;
      events := [];
      if Finished(pc) {
        return;
      }
      if oracle.fault == FaultBefore {
        if Querying(pc) {
          pc := Raise(true);
        } else {
          Throw(false);
        }
        return;
      }
      if pc.Load? {
        if intentId in store.intents {
          intent, pc := store.intents[intentId], Resolve;
        } else {
          Throw(false);
        }
      } else if pc.Resolve? {
        ResolveConnector(oracle);
      } else if pc.Scan? {
        var executed, compensated := ListReceipts();
        if handler == JobType.ReconcileEffect {
          ReconcileEffectJob(executed, oracle);
        } else {
          RunCompensationJob(compensated);
        }
      } else if pc.Begin? {
        events := BeginExternalOperation(index, pc.next, oracle);
      } else if pc.Persist? {
        events := PersistReceipt(pc.draft, pc.mark, oracle.fault);
      } else if pc.Transition? {
        events := TransitionTo(index, pc.to, pc.after, oracle.fault);
      } else {
        events := CallOut(index, oracle);
      }
    }

    /** After connector.execute or connector.compensate; their own error type passes through the catch. */
    method Called(fault: Fault, next: Pc)
      modifies this`pc, this`guarded
      ensures View() == EffectRuntime.Called(old(View()), fault, next)
    {
      if fault == FaultAfter {
        Throw(false);
      } else if fault.ConnectorError? {
        pc, guarded := Raise(fault.retryable), false;
      } else {
        pc := next;
      }
    }

    /** The connector calls, and the fence checks that surround them. */
    method CallOut(index: nat, oracle: Oracle) returns (events: seq<Event>)
      requires oracle.fault != FaultBefore && !Finished(pc)
      requires !pc.Load? && !pc.Resolve? && !pc.Scan? && !pc.Begin? && !pc.Persist? && !pc.Transition?
      modifies this`pc, this`guarded
      ensures StepResult(store.View(), View(), events) == Step(old(store.View()), old(View()), index, oracle)
    {
      hide FenceHeld, ResourceFenceCurrent, EffectRuntime.Throw;
      events := [];
      var fenced := FenceHeld(store.View(), Fence());
      var external := fenced && intent.token.Some?
        && ResourceFenceCurrent(store.View(), intent.resource, intent.token.value);
      match pc
      case Execute =>
        Called(oracle.fault, CheckExecuted(oracle.execute));
        if oracle.fault == NoFault {
          events := if oracle.execute.ExecuteDenied? then [Denied(intentId, index)] else [];
        }
      case CheckExecuted(outcome) =>
        if !external {
          Throw(true);
        } else {
          match outcome
          case ExecuteSucceeded(draft) => pc := Persist(draft, MarkExecuted);
          case ExecuteDenied(retryable) =>
            pc := Pc.Transition(Failed, if retryable then ThenRaise(true) else ThenReturn);
          case _ => pc := Pc.Transition(ReconciliationRequired, ThenReturn);
        }
      case QueryExecution =>
        if oracle.fault != NoFault {
          pc := Raise(true);
        } else {
          pc := CheckQueried(oracle.query);
          events := if oracle.query == NotFound(true) then [Denied(intentId, index)] else [];
        }
      case CheckQueried(answer) =>
        if !fenced {
          pc := Raise(true);
        } else if answer.Found? {
          pc := Persist(answer.draft, MarkExecuted);
        } else if answer == NotFound(true) && intent.connector.idempotencyKey {
          pc := Pc.Transition(Failed, ThenRaise(true));
        } else {
          pc := Return;
        }
      case CheckBeforeCompensate =>
        if external {
          pc := Compensate;
        } else {
          Throw(true);
        }
      case Compensate =>
        Called(oracle.fault, CheckCompensated(oracle.compensate));
      case CheckCompensated(outcome) =>
        if !external {
          Throw(true);
        } else {
          match outcome
          case CompensateSucceeded(draft) => pc := Persist(draft, MarkCompensated);
          case CompensateUnknown => pc, guarded := Pc.Transition(ReconciliationRequired, ThenReturn), false;
          case CompensateDenied(retryable) =>
            pc, guarded := Pc.Transition(RemediationRequired, if retryable then ThenRaise(true) else ThenReturn), false;
        }
      case QueryCompensation =>
        pc := if oracle.fault != NoFault then Raise(true) else CheckQueriedCompensation(oracle.query);
      case CheckQueriedCompensation(answer) =>
        if !fenced {
          pc := Raise(true);
        } else if answer.Found? {
          pc := Persist(answer.draft, MarkCompensated);
        } else if answer == NotFound(true) && intent.connector.idempotencyKey {
          pc := Pc.Begin(CompensationPending);
        } else {
          pc := Return;
        }
    }
  }

  /** A transition that the table allows, by what the store answers. */
  lemma WrittenStep(db: Db, run: Run, index: nat, to: Status, after: After, fault: Fault)
    requires run.local.status != to && CanTransition(run.local.status, to)
    ensures var (next, result) := TransitionIntent(db, FenceOf(run), run.intentId, run.local.status, to);
            StepTransition(db, run, index, to, after, fault) ==
            if result.Written? then
              StepResult(next,
                         if fault == FaultAfter then EffectRuntime.Throw(run, false)
                         else EffectRuntime.Continue(run.(local := result.intent), after),
                         [Wrote(run.intentId, run.local.status, to, Some(index))])
            else StepResult(db, EffectRuntime.Throw(run, true), [])
  {
    hide FenceHeld, CanTransition, EffectRuntime.Throw, EffectRuntime.Continue;
  }
}
