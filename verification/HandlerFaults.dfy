/**
  What a handler does when something throws (apps/worker/src/effects.ts:265-335, 345-413, 466-481, 547-595): an
  unknown outcome of a call that may have acted goes to reconciliation and is retried; an error before anything
  was begun, or on the way to a table, ends the attempt as it is.
 */
module HandlerFaults {
  import opened EffectTable
  import opened Tables
  import opened EffectRuntime

  /** A run between the begin of an external operation and the handling of its outcome. */
  predicate MidCall(db: Db, run: Run) {
    && run.guarded && InFlight(run.local.status)
    && FenceHeld(db, FenceOf(run))
    && run.intentId in db.intents && db.intents[run.intentId] == run.local
  }

  predicate Throwing(oracle: Oracle) {
    oracle.fault == FaultBefore || oracle.fault == FaultAfter
  }

  /** The run's next two steps: the fault, and what the handler makes of it when nothing else fails. */
  function Aftermath(db: Db, run: Run, index: nat, faulty: Oracle, calm: Oracle): StepResult {
    var struck := Step(db, run, index, faulty);
    var next := Step(struck.db, struck.run, index, calm);
    StepResult(next.db, next.run, struck.events + next.events)
  }

  /** The external outcome counts as unknown: to reconciliation, and to be retried. */
  predicate Unknown(db: Db, run: Run, after: StepResult)
    requires run.intentId in db.intents
  {
    after.db == SetStatus(db, run.intentId, ReconciliationRequired) && after.run.pc == Raise(true)
  }

  lemma CallThrows(db: Db, run: Run, index: nat, faulty: Oracle, calm: Oracle)
    requires MidCall(db, run) && (run.pc == Execute || run.pc == Compensate)
    requires Throwing(faulty) && calm.fault == NoFault
    ensures Unknown(db, run, Aftermath(db, run, index, faulty, calm))
  {
    hide DispatchReconcile, DispatchCompensation, ResolveConnector, StepBegin, StepPersist, HandleExecuted,
         HandleQueried, HandleCompensated, HandleQueriedCompensation, ExternalFenceHeld, ResourceFenceCurrent;
  }

  /** An answer that comes when the resource has passed on, or is about to be handled then, is not trusted. */
  lemma ResourceLost(db: Db, run: Run, index: nat, faulty: Oracle, calm: Oracle)
    requires MidCall(db, run)
    requires run.pc.CheckExecuted? || run.pc.CheckCompensated? || run.pc == CheckBeforeCompensate
    requires run.local.token.Some? ==> !ResourceFenceCurrent(db, run.local.resource, run.local.token.value)
    requires faulty.fault == NoFault && calm.fault == NoFault
    ensures Unknown(db, run, Aftermath(db, run, index, faulty, calm))
  {
    hide DispatchReconcile, DispatchCompensation, ResolveConnector, StepBegin, StepPersist, HandleExecuted,
         HandleQueried, HandleCompensated, HandleQueriedCompensation;
  }

  /** Only the runtime's own error type passes through, with its own word on retrying. */
  lemma ConnectorErrorPasses(db: Db, run: Run, index: nat, oracle: Oracle, retryable: bool)
    requires (run.pc == Execute || run.pc == Compensate) && oracle.fault == ConnectorError(retryable)
    ensures Step(db, run, index, oracle) == StepResult(db, run.(pc := Raise(retryable), guarded := false), [])
  {
  }

  /** A query changes nothing, and whatever goes wrong around it is retried. */
  lemma QueryThrows(db: Db, run: Run, index: nat, oracle: Oracle)
    requires run.pc == QueryExecution || run.pc == QueryCompensation
    requires oracle.fault != NoFault
    ensures Step(db, run, index, oracle) == StepResult(db, run.(pc := Raise(true)), [])
  {
  }

  lemma FenceLostAfterQuery(db: Db, run: Run, index: nat, oracle: Oracle)
    requires run.pc.CheckQueried? || run.pc.CheckQueriedCompensation?
    requires !FenceHeld(db, FenceOf(run))
    ensures Step(db, run, index, oracle) == StepResult(db, run.(pc := Raise(true)), [])
  {
  }

  predicate Storing(pc: Pc) {
    pc.Begin? || pc.Transition? || pc.Persist?
  }

  /** Outside a call, an error before the store acted is permanent and leaves everything as it was. */
  lemma StoreThrows(db: Db, run: Run, index: nat, oracle: Oracle)
    requires !run.guarded && oracle.fault == FaultBefore
    requires run.pc in {Load, Resolve, Scan} || Storing(run.pc)
    ensures Step(db, run, index, oracle) == StepResult(db, run.(pc := Raise(false)), [])
  {
  }

  /** A job for an intent that does not exist fails for good. */
  lemma IntentMissing(db: Db, run: Run, index: nat, oracle: Oracle)
    requires run.pc == Load && !run.guarded && run.intentId !in db.intents
    ensures Step(db, run, index, oracle) == StepResult(db, run.(pc := Raise(false)), [])
  {
  }

  /** Either way of asking about an execution is enough to ask. */
  lemma AskedEitherWay(db: Db, run: Run, index: nat, oracle: Oracle)
    requires run.pc == Pc.Transition(ReconciliationRequired, ThenQueryExecution) && oracle.fault != FaultBefore
    requires run.local.status == ReconciliationRequired
    ensures Step(db, run, index, oracle).run.pc == QueryExecution <==>
              run.local.connector.queryByKey || run.local.connector.queryByExternalId
  {
    hide FenceHeld;
  }

  /** An absence counts only if it is definitive and the connector honours keys; otherwise nothing follows from it. */
  lemma AbsenceInDoubt(db: Db, run: Run, index: nat, oracle: Oracle, definitive: bool)
    requires run.pc == CheckQueried(NotFound(definitive)) || run.pc == CheckQueriedCompensation(NotFound(definitive))
    requires FenceHeld(db, FenceOf(run)) && oracle.fault != FaultBefore
    requires !definitive || !run.local.connector.idempotencyKey
    ensures Step(db, run, index, oracle) == StepResult(db, run.(pc := Return), [])
  {
    hide FenceHeld;
  }

  /** A write whose job fence is lost, or whose row somebody else has moved, changes nothing and is retried. */
  lemma WriteRefused(db: Db, run: Run, index: nat, oracle: Oracle)
    requires !run.guarded && oracle.fault != FaultBefore
    requires (run.pc.Transition? && run.pc.to != run.local.status && CanTransition(run.local.status, run.pc.to))
          || (run.pc.Begin? && CanTransition(run.local.status, run.pc.next))
    requires || !FenceHeld(db, FenceOf(run))
             || run.intentId !in db.intents || db.intents[run.intentId].status != run.local.status
    ensures Step(db, run, index, oracle) == StepResult(db, run.(pc := Raise(true)), [])
  {
    hide FenceHeld, CanTransition;
  }

  /** A write the table forbids is never sent, and is a permanent error. */
  lemma WriteForbidden(db: Db, run: Run, index: nat, oracle: Oracle)
    requires !run.guarded && oracle.fault != FaultBefore
    requires (run.pc.Transition? && run.pc.to != run.local.status && !CanTransition(run.local.status, run.pc.to))
          || (run.pc.Begin? && !CanTransition(run.local.status, run.pc.next))
    ensures Step(db, run, index, oracle) == StepResult(db, run.(pc := Raise(false)), [])
  {
    hide FenceHeld, CanTransition;
  }

  /** A receipt under another one's identifier is refused for good, and one without the fence is retried. */
  lemma ReceiptRefused(db: Db, run: Run, index: nat, oracle: Oracle)
    requires !run.guarded && oracle.fault != FaultBefore && run.pc.Persist?
    requires || !FenceHeld(db, FenceOf(run))
             || exists k :: 0 <= k < |db.receipts| && db.receipts[k].id == run.pc.draft.receiptId
                            && (db.receipts[k].intentId != run.intentId || db.receipts[k].body != run.pc.draft.body)
                            && forall m :: 0 <= m < |db.receipts| && db.receipts[m].id == db.receipts[k].id ==> m == k
    ensures Step(db, run, index, oracle) == StepResult(db, run.(pc := Raise(!FenceHeld(db, FenceOf(run)))), [])
  {
    hide FenceHeld, FinalizeExecution, FinalizeCompensation;
  }

  /** The same receipt again is accepted and stored once. */
  lemma ReceiptAgain(db: Db, run: Run, index: nat, oracle: Oracle, receipt: Receipt)
    requires oracle.fault == NoFault && run.pc.Persist? && FenceHeld(db, FenceOf(run))
    requires receipt == Receipt(run.pc.draft.receiptId, run.intentId, run.pc.mark, run.pc.mark == MarkCompensated,
                                run.pc.draft.body)
    requires receipt in db.receipts
    ensures var step := Step(db, run, index, oracle);
            step.db == db && step.events == [] && !step.run.pc.Raise?
  {
    hide FenceHeld;
  }

  /** When only the answer of a write is lost, the write stands, and outside a call the error is permanent. */
  lemma AnswerLost(db: Db, run: Run, index: nat, lost: Oracle, calm: Oracle)
    requires !run.guarded && Storing(run.pc) && calm.fault == NoFault && lost == calm.(fault := FaultAfter)
    requires Step(db, run, index, calm).db != db
    ensures Step(db, run, index, lost)
         == StepResult(Step(db, run, index, calm).db, run.(pc := Raise(false)), Step(db, run, index, calm).events)
  {
    hide FenceHeld, CanTransition, FinalizeExecution, FinalizeCompensation;
  }
}
