/**
  The same for compensation jobs (apps/worker/src/effects.ts:173-219, 547-656).
 */
module CompensationOutcomes {
  import opened EffectTable
  import opened Tables
  import opened EffectRuntime
  import opened UninterruptedRuns
  import opened HandlerOutcomes

  /** A compensation job that finds an intent without a compensation receipt, and a connector able to compensate. */
  predicate Compensates(db: Db, run: Run, oracle: Oracle) {
    && Fresh(db, run, oracle) && run.handler == RunCompensation
    && Usable(db.intents[run.intentId], RunCompensation, oracle)
    && !HasCompensationReceipt(db, run.intentId)
  }

  /** Compensation may be begun: from the start, or after the connector definitively knows of no earlier one. */
  predicate MayUndo(intent: Intent, oracle: Oracle) {
    || intent.status == Committed || intent.status == RemediationRequired
    || ((intent.status == ReconciliationRequired || intent.status == CompensationPending)
        && intent.connector.reconcileCompensation && intent.connector.idempotencyKey
        && oracle.query == NotFound(true))
  }

  /** An unfinished compensation is first moved to reconciliation. */
  lemma Reopened(db: Db, run: Run, index: nat, oracle: Oracle) returns (d: StepResult)
    requires Compensates(db, run, oracle)
    requires db.intents[run.intentId].status in {ReconciliationRequired, CompensationPending}
    ensures At(db, run, index, oracle, d, ReconciliationRequired, [], false, false,
               if db.intents[run.intentId].connector.reconcileCompensation then QueryCompensation else Return)
  {
    hide FenceHeld, Gets, HasCompensationReceipt, Unsafe;
    var status := db.intents[run.intentId].status;
    var c := Resolved(db, run, index, oracle);
    SameReceipts(db, c.db, run.intentId);
    c := Turn(db, run, index, oracle, c, status, [], false, false, Scan,
              Pc.Transition(ReconciliationRequired, ThenQueryCompensation), false);
    d := Reconciled(db, run, index, oracle, c, status, ThenQueryCompensation,
                    if db.intents[run.intentId].connector.reconcileCompensation then QueryCompensation else Return);
  }

  /** Whatever was begun before and is not known to have failed is asked about first. */
  lemma AsksUndone(db: Db, run: Run, index: nat, oracle: Oracle) returns (d: StepResult)
    requires Compensates(db, run, oracle) && db.intents[run.intentId].connector.reconcileCompensation
    requires db.intents[run.intentId].status in {ReconciliationRequired, CompensationPending}
    ensures At(db, run, index, oracle, d, ReconciliationRequired, [], false, false,
               CheckQueriedCompensation(oracle.query))
  {
    hide FenceHeld, Gets, HasCompensationReceipt, Unsafe;
    var c := Reopened(db, run, index, oracle);
    d := Turn(db, run, index, oracle, c, ReconciliationRequired, [], false, false, QueryCompensation,
              CheckQueriedCompensation(oracle.query), false);
  }

  lemma ToBegin(db: Db, run: Run, index: nat, oracle: Oracle) returns (d: StepResult, status: Status)
    requires Compensates(db, run, oracle) && MayUndo(db.intents[run.intentId], oracle)
    ensures At(db, run, index, oracle, d, status, [], false, false, Begin(CompensationPending))
    ensures status in {Committed, RemediationRequired, ReconciliationRequired}
  {
    hide FenceHeld, Gets, HasCompensationReceipt;
    status := db.intents[run.intentId].status;
    if status == Committed || status == RemediationRequired {
      var c := Resolved(db, run, index, oracle);
      SameReceipts(db, c.db, run.intentId);
      d := Turn(db, run, index, oracle, c, status, [], false, false, Scan, Begin(CompensationPending), false);
      return;
    }
    status := ReconciliationRequired;
    var c := AsksUndone(db, run, index, oracle);
    d := Turn(db, run, index, oracle, c, status, [], false, false, CheckQueriedCompensation(oracle.query),
              Begin(CompensationPending), false);
  }

  lemma Undoes(db: Db, run: Run, index: nat, oracle: Oracle) returns (d: StepResult)
    requires Compensates(db, run, oracle) && MayUndo(db.intents[run.intentId], oracle)
    ensures At(db, run, index, oracle, d, CompensationPending, [], true, true, CheckCompensated(oracle.compensate))
    ensures ExternalFenceHeld(d.db, d.run)
  {
    hide FenceHeld, Gets, HasCompensationReceipt, Usable, MayUndo;
    var c, status := ToBegin(db, run, index, oracle);
    c := BegunAt(db, run, index, oracle, c, status, [], false, CompensationPending);
    c := Turn(db, run, index, oracle, c, CompensationPending, [], true, true, CheckBeforeCompensate, Compensate, true);
    d := Turn(db, run, index, oracle, c, CompensationPending, [], true, true, Compensate,
              CheckCompensated(oracle.compensate), true);
    assert ExternalFenceHeld(d.db, d.run);
  }

  lemma CompensationSucceeds(db: Db, run: Run, index: nat, oracle: Oracle, draft: Draft)
    requires Compensates(db, run, oracle) && MayUndo(db.intents[run.intentId], oracle)
    requires oracle.compensate == CompensateSucceeded(draft) && NewId(db, draft)
    ensures Ends(db, run, index, oracle, Compensated, [Undone(draft, run.intentId)], true, Returns)
  {
    hide FenceHeld, Gets, HasCompensationReceipt, ExternalFenceHeld, Usable, MayUndo;
    var receipt := Undone(draft, run.intentId);
    var c := Undoes(db, run, index, oracle);
    c := Turn(db, run, index, oracle, c, CompensationPending, [], true, true, CheckCompensated(oracle.compensate),
              Persist(draft, MarkCompensated), true);
    c := Persisted(db, run, index, oracle, c, CompensationPending, true, true, draft, MarkCompensated,
                   Pc.Transition(Compensated, ThenReturn), true);
    c := Moved(db, run, index, oracle, c, CompensationPending, [receipt], true, true, Compensated, ThenReturn, true,
               Return);
    Done(db, run, index, oracle, c, Compensated, [receipt], true, true, Returns);
  }

  /** A definitive failure needs remediation, and is retried exactly when the connector says so. */
  lemma CompensationDenied(db: Db, run: Run, index: nat, oracle: Oracle, retryable: bool)
    requires Compensates(db, run, oracle) && MayUndo(db.intents[run.intentId], oracle)
    requires oracle.compensate == CompensateDenied(retryable)
    ensures Ends(db, run, index, oracle, RemediationRequired, [], true, if retryable then Throws(true) else Returns)
  {
    hide FenceHeld, Gets, HasCompensationReceipt, ExternalFenceHeld, Usable, MayUndo;
    var after := if retryable then ThenRaise(true) else ThenReturn;
    var ending := if retryable then Throws(true) else Returns;
    var c := Undoes(db, run, index, oracle);
    c := Turn(db, run, index, oracle, c, CompensationPending, [], true, true, CheckCompensated(oracle.compensate),
              Pc.Transition(RemediationRequired, after), false);
    c := Moved(db, run, index, oracle, c, CompensationPending, [], true, false, RemediationRequired, after, false,
               EndingPc(ending));
    Done(db, run, index, oracle, c, RemediationRequired, [], true, false, ending);
  }

  lemma CompensationUnknown(db: Db, run: Run, index: nat, oracle: Oracle)
    requires Compensates(db, run, oracle) && MayUndo(db.intents[run.intentId], oracle)
    requires oracle.compensate == CompensateUnknown
    ensures Ends(db, run, index, oracle, ReconciliationRequired, [], true, Returns)
  {
    hide FenceHeld, Gets, HasCompensationReceipt, ExternalFenceHeld, Usable, MayUndo;
    var c := Undoes(db, run, index, oracle);
    c := Turn(db, run, index, oracle, c, CompensationPending, [], true, true, CheckCompensated(oracle.compensate),
              Pc.Transition(ReconciliationRequired, ThenReturn), false);
    c := Moved(db, run, index, oracle, c, CompensationPending, [], true, false, ReconciliationRequired, ThenReturn,
               false, Return);
    Done(db, run, index, oracle, c, ReconciliationRequired, [], true, false, Returns);
  }

  lemma RecordsFound(db: Db, run: Run, index: nat, oracle: Oracle, draft: Draft) returns (c: StepResult)
    requires Compensates(db, run, oracle) && db.intents[run.intentId].connector.reconcileCompensation
    requires db.intents[run.intentId].status in {ReconciliationRequired, CompensationPending}
    requires oracle.query == Found(draft) && NewId(db, draft)
    ensures At(db, run, index, oracle, c, ReconciliationRequired, [Undone(draft, run.intentId)], false, false,
               Pc.Transition(CompensationPending, ThenCompensated))
  {
    hide FenceHeld, Gets, HasCompensationReceipt, Usable;
    c := AsksUndone(db, run, index, oracle);
    c := Turn(db, run, index, oracle, c, ReconciliationRequired, [], false, false,
              CheckQueriedCompensation(oracle.query), Persist(draft, MarkCompensated), false);
    c := Persisted(db, run, index, oracle, c, ReconciliationRequired, false, false, draft, MarkCompensated,
                   Pc.Transition(CompensationPending, ThenCompensated), false);
  }

  /** An earlier compensation that is found is recorded and ends it, without a second one. */
  lemma CompensationFound(db: Db, run: Run, index: nat, oracle: Oracle, draft: Draft)
    requires Compensates(db, run, oracle) && db.intents[run.intentId].connector.reconcileCompensation
    requires db.intents[run.intentId].status in {ReconciliationRequired, CompensationPending}
    requires oracle.query == Found(draft) && NewId(db, draft)
    ensures Ends(db, run, index, oracle, Compensated, [Undone(draft, run.intentId)], false, Returns)
  {
    hide FenceHeld, Gets, HasCompensationReceipt, Usable, NewId;
    var receipt := Undone(draft, run.intentId);
    var c := RecordsFound(db, run, index, oracle, draft);
    c := Moved(db, run, index, oracle, c, ReconciliationRequired, [receipt], false, false, CompensationPending,
               ThenCompensated, false, Pc.Transition(Compensated, ThenReturn));
    c := Moved(db, run, index, oracle, c, CompensationPending, [receipt], false, false, Compensated, ThenReturn, false,
               Return);
    Done(db, run, index, oracle, c, Compensated, [receipt], false, false, Returns);
  }

  /** Without a definitive answer, or an operation to ask with, it stays in reconciliation. */
  lemma CompensationLeftOpen(db: Db, run: Run, index: nat, oracle: Oracle)
    requires Compensates(db, run, oracle)
    requires db.intents[run.intentId].status in {ReconciliationRequired, CompensationPending}
    requires db.intents[run.intentId].connector.reconcileCompensation ==>
               || oracle.query == NotFound(false) || oracle.query == QueryUnknown
               || (oracle.query == NotFound(true) && !db.intents[run.intentId].connector.idempotencyKey)
    ensures Ends(db, run, index, oracle, ReconciliationRequired, [], false, Returns)
  {
    hide FenceHeld, Gets, HasCompensationReceipt, Unsafe;
    var c;
    if db.intents[run.intentId].connector.reconcileCompensation {
      c := AsksUndone(db, run, index, oracle);
      c := Turn(db, run, index, oracle, c, ReconciliationRequired, [], false, false,
                CheckQueriedCompensation(oracle.query), Return, false);
    } else {
      c := Reopened(db, run, index, oracle);
    }
    Done(db, run, index, oracle, c, ReconciliationRequired, [], false, false, Returns);
  }

  /** What was never committed, or cannot be undone, is a permanent error; what is undone is left alone. */
  lemma NothingToCompensate(db: Db, run: Run, index: nat, oracle: Oracle)
    requires Compensates(db, run, oracle)
    requires db.intents[run.intentId].status in {Prepared, Executing, Failed, IrreversibleCommitted, Compensated}
    ensures Ends(db, run, index, oracle, db.intents[run.intentId].status, [], false,
                 if db.intents[run.intentId].status == Compensated then Returns else Throws(false))
  {
    hide FenceHeld, Gets, HasCompensationReceipt;
    var status := db.intents[run.intentId].status;
    var ending := if status == Compensated then Returns else Throws(false);
    var c := Resolved(db, run, index, oracle);
    SameReceipts(db, c.db, run.intentId);
    c := Turn(db, run, index, oracle, c, status, [], false, false, Scan, EndingPc(ending), false);
    Done(db, run, index, oracle, c, status, [], false, false, ending);
  }

  /** With a durable compensation receipt the intent is compensated without asking anybody, where the table allows. */
  lemma ReceiptCompensates(db: Db, run: Run, index: nat, oracle: Oracle)
    requires Fresh(db, run, oracle) && run.handler == RunCompensation
    requires Usable(db.intents[run.intentId], RunCompensation, oracle) && HasCompensationReceipt(db, run.intentId)
    ensures var status := db.intents[run.intentId].status;
            if status in {CompensationPending, RemediationRequired, ReconciliationRequired, Compensated}
            then Ends(db, run, index, oracle, Compensated, [], false, Returns)
            else Ends(db, run, index, oracle, status, [], false, Throws(false))
  {
    hide FenceHeld, Gets, HasCompensationReceipt;
    var status := db.intents[run.intentId].status;
    var c := Resolved(db, run, index, oracle);
    SameReceipts(db, c.db, run.intentId);
    if status == Compensated {
      c := Turn(db, run, index, oracle, c, status, [], false, false, Scan, Return, false);
      Done(db, run, index, oracle, c, Compensated, [], false, false, Returns);
      return;
    }
    var from := status;
    if status == ReconciliationRequired {
      c := Turn(db, run, index, oracle, c, status, [], false, false, Scan,
                Pc.Transition(CompensationPending, ThenCompensated), false);
      c := Moved(db, run, index, oracle, c, status, [], false, false, CompensationPending, ThenCompensated, false,
                 Pc.Transition(Compensated, ThenReturn));
      from := CompensationPending;
    } else {
      c := Turn(db, run, index, oracle, c, status, [], false, false, Scan, Pc.Transition(Compensated, ThenReturn), false);
    }
    LastStep(db, run, index, oracle, c, from);
  }

  lemma LastStep(db: Db, run: Run, index: nat, oracle: Oracle, c: StepResult, from: Status)
    requires run.intentId in db.intents && oracle.fault == NoFault
    requires At(db, run, index, oracle, c, from, [], false, false, Pc.Transition(Compensated, ThenReturn))
    requires from != Compensated && from != ReconciliationRequired
    ensures if from in {CompensationPending, RemediationRequired}
            then Ends(db, run, index, oracle, Compensated, [], false, Returns)
            else Ends(db, run, index, oracle, from, [], false, Throws(false))
  {
    hide FenceHeld, Gets;
    if from in {CompensationPending, RemediationRequired} {
      var d := Moved(db, run, index, oracle, c, from, [], false, false, Compensated, ThenReturn, false, Return);
      Done(db, run, index, oracle, d, Compensated, [], false, false, Returns);
    } else {
      var d := Turn(db, run, index, oracle, c, from, [], false, false, Pc.Transition(Compensated, ThenReturn),
                    Raise(false), false);
      Done(db, run, index, oracle, d, from, [], false, false, Throws(false));
    }
  }

  /** A connector or intent that cannot compensate leaves what was applied to be remedied. */
  lemma UnsupportedNeedsRemedy(db: Db, run: Run, index: nat, oracle: Oracle)
    requires Fresh(db, run, oracle) && run.handler == RunCompensation && oracle.resolves
    requires !Unsafe(db.intents[run.intentId])
    requires var intent := db.intents[run.intentId];
             !intent.connector.compensation || !intent.connector.compensate || !intent.compensationHandler
    ensures var status := db.intents[run.intentId].status;
            if status in {Committed, IrreversibleCommitted, CompensationPending, ReconciliationRequired, RemediationRequired}
            then Ends(db, run, index, oracle, RemediationRequired, [], false, Returns)
            else Ends(db, run, index, oracle, status, [], false, Throws(false))
  {
    hide FenceHeld, Gets;
    var status := db.intents[run.intentId].status;
    var c := Loaded(db, run, index, oracle);
    c := Turn(db, run, index, oracle, c, status, [], false, false, Resolve,
              Pc.Transition(RemediationRequired, ThenReturn), false);
    if status == RemediationRequired {
      c := Turn(db, run, index, oracle, c, status, [], false, false, Pc.Transition(RemediationRequired, ThenReturn),
                Return, false);
      Done(db, run, index, oracle, c, RemediationRequired, [], false, false, Returns);
    } else if status in {Committed, IrreversibleCommitted, CompensationPending, ReconciliationRequired} {
      c := Moved(db, run, index, oracle, c, status, [], false, false, RemediationRequired, ThenReturn, false, Return);
      Done(db, run, index, oracle, c, RemediationRequired, [], false, false, Returns);
    } else {
      c := Turn(db, run, index, oracle, c, status, [], false, false, Pc.Transition(RemediationRequired, ThenReturn),
                Raise(false), false);
      Done(db, run, index, oracle, c, status, [], false, false, Throws(false));
    }
  }
}
