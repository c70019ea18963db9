/**
  What a handler execution comes to when nobody interferes (apps/worker/src/effects.ts:119-656): for each
  situation it may find and each answer of the connector, the status the intent ends in, the receipts that are
  added, whether an external operation was begun, and how the handler ends. None of it speaks of program counters.
 */
module HandlerOutcomes {
  import opened EffectTable
  import opened Tables
  import opened EffectRuntime
  import opened UninterruptedRuns

  function FinalStatus(reversibility: Reversibility): Status {
    if reversibility == R3 then IrreversibleCommitted else Committed
  }

  function Executed(draft: Draft, i: IntentId): Receipt {
    Receipt(draft.receiptId, i, MarkExecuted, false, draft.body)
  }

  function Undone(draft: Draft, i: IntentId): Receipt {
    Receipt(draft.receiptId, i, MarkCompensated, true, draft.body)
  }

  predicate NewId(db: Db, draft: Draft) {
    forall k :: 0 <= k < |db.receipts| ==> db.receipts[k].id != draft.receiptId
  }

  /** Which receipts count: for an execution its mark, for a compensation its mark or its compensation status. */
  lemma ReceiptsCount(db: Db, i: IntentId)
    ensures HasExecutionReceipt(db, i) <==> exists r :: r in db.receipts && r.intentId == i && r.mark == MarkExecuted
    ensures HasCompensationReceipt(db, i) <==>
              exists r :: r in db.receipts && r.intentId == i && (r.mark == MarkCompensated || r.compensated)
  {
  }

  // ---------------------------------------------------------------- execution, begun

  /** An execution job that finds an automatic intent, with its connector and without a receipt. */
  predicate Executes(db: Db, run: Run, oracle: Oracle) {
    && Fresh(db, run, oracle) && run.handler == ReconcileEffect
    && Usable(db.intents[run.intentId], ReconcileEffect, oracle)
    && db.intents[run.intentId].connector.mode == AutomaticWrite
    && !HasExecutionReceipt(db, run.intentId)
  }

  predicate MayBegin(intent: Intent, oracle: Oracle) {
    && (intent.status == Prepared || intent.status == Failed)
    && (intent.reversibility == R3 ==> oracle.approved)
  }

  lemma Enters(db: Db, run: Run, index: nat, oracle: Oracle) returns (d: StepResult)
    requires Executes(db, run, oracle) && MayBegin(db.intents[run.intentId], oracle)
    ensures At(db, run, index, oracle, d, Executing, [], true, true, CheckExecuted(oracle.execute))
    ensures ExternalFenceHeld(d.db, d.run)
  {
    hide FenceHeld, Gets, HasExecutionReceipt, Registered;
    var status := db.intents[run.intentId].status;
    var c := Resolved(db, run, index, oracle);
    SameReceipts(db, c.db, run.intentId);
    c := Turn(db, run, index, oracle, c, status, [], false, false, Scan, Begin(Executing), false);
    c := BegunAt(db, run, index, oracle, c, status, [], false, Executing);
    d := Turn(db, run, index, oracle, c, Executing, [], true, true, Execute, CheckExecuted(oracle.execute), true);
    assert ExternalFenceHeld(d.db, d.run);
  }

  lemma SameReceipts(before: Db, after: Db, i: IntentId)
    requires after.receipts == before.receipts
    ensures HasExecutionReceipt(after, i) == HasExecutionReceipt(before, i)
    ensures HasCompensationReceipt(after, i) == HasCompensationReceipt(before, i)
  {
  }

  /** A PREPARED or FAILED intent, not R3 or approved: it is begun, and a success ends with its receipt, committed. */
  lemma ExecutionSucceeds(db: Db, run: Run, index: nat, oracle: Oracle, draft: Draft)
    requires Executes(db, run, oracle) && MayBegin(db.intents[run.intentId], oracle)
    requires oracle.execute == ExecuteSucceeded(draft) && NewId(db, draft)
    ensures Ends(db, run, index, oracle, FinalStatus(db.intents[run.intentId].reversibility),
                 [Executed(draft, run.intentId)], true, Returns)
  {
    hide FenceHeld, Gets, HasExecutionReceipt, Registered, ExternalFenceHeld;
    var final := FinalStatus(db.intents[run.intentId].reversibility);
    var c := Enters(db, run, index, oracle);
    c := Turn(db, run, index, oracle, c, Executing, [], true, true, CheckExecuted(oracle.execute),
              Persist(draft, MarkExecuted), true);
    var receipt := Executed(draft, run.intentId);
    c := Persisted(db, run, index, oracle, c, Executing, true, true, draft, MarkExecuted,
                   Pc.Transition(final, ThenReturn), true);
    c := Moved(db, run, index, oracle, c, Executing, [receipt], true, true, final, ThenReturn, true, Return);
    Done(db, run, index, oracle, c, final, [receipt], true, true, Returns);
  }

  /** A definitive failure leaves it FAILED, to be retried exactly when the connector says so. */
  lemma ExecutionDenied(db: Db, run: Run, index: nat, oracle: Oracle, retryable: bool)
    requires Executes(db, run, oracle) && MayBegin(db.intents[run.intentId], oracle)
    requires oracle.execute == ExecuteDenied(retryable)
    ensures Ends(db, run, index, oracle, Failed, [], true, if retryable then Throws(true) else Returns)
  {
    hide FenceHeld, Gets, HasExecutionReceipt, Registered, ExternalFenceHeld;
    var after := if retryable then ThenRaise(true) else ThenReturn;
    var ending := if retryable then Throws(true) else Returns;
    var c := Enters(db, run, index, oracle);
    c := Turn(db, run, index, oracle, c, Executing, [], true, true, CheckExecuted(oracle.execute),
              Pc.Transition(Failed, after), true);
    c := Moved(db, run, index, oracle, c, Executing, [], true, true, Failed, after, !retryable, EndingPc(ending));
    Done(db, run, index, oracle, c, Failed, [], true, !retryable, ending);
  }

  /** An unknown outcome, or one that waits for a manual receipt, goes to reconciliation. */
  lemma ExecutionUnknown(db: Db, run: Run, index: nat, oracle: Oracle)
    requires Executes(db, run, oracle) && MayBegin(db.intents[run.intentId], oracle)
    requires oracle.execute == ExecuteUnknown || oracle.execute == WaitingForManualReceipt
    ensures Ends(db, run, index, oracle, ReconciliationRequired, [], true, Returns)
  {
    hide FenceHeld, Gets, HasExecutionReceipt, Registered, ExternalFenceHeld;
    var c := Enters(db, run, index, oracle);
    c := Turn(db, run, index, oracle, c, Executing, [], true, true, CheckExecuted(oracle.execute),
              Pc.Transition(ReconciliationRequired, ThenReturn), true);
    c := Moved(db, run, index, oracle, c, Executing, [], true, true, ReconciliationRequired, ThenReturn, true, Return);
    Done(db, run, index, oracle, c, ReconciliationRequired, [], true, true, Returns);
  }

  /** An R3 intent without approval is never begun: it goes to reconciliation, and the error is not retried. */
  lemma UnapprovedIsHeldBack(db: Db, run: Run, index: nat, oracle: Oracle)
    requires Executes(db, run, oracle) && db.intents[run.intentId].reversibility == R3 && !oracle.approved
    requires db.intents[run.intentId].status == Prepared || db.intents[run.intentId].status == Failed
    ensures Ends(db, run, index, oracle, ReconciliationRequired, [], false, Throws(false))
  {
    hide FenceHeld, Gets, HasExecutionReceipt, Registered;
    var status := db.intents[run.intentId].status;
    var c := Resolved(db, run, index, oracle);
    SameReceipts(db, c.db, run.intentId);
    c := Turn(db, run, index, oracle, c, status, [], false, false, Scan,
              Pc.Transition(ReconciliationRequired, ThenRaise(false)), false);
    c := Moved(db, run, index, oracle, c, status, [], false, false, ReconciliationRequired, ThenRaise(false), false,
               Raise(false));
    Done(db, run, index, oracle, c, ReconciliationRequired, [], false, false, Throws(false));
  }

  // ------------------------------------------------------------ execution, outcome unknown

  /** An intent found EXECUTING or in reconciliation is asked about, never begun. */
  lemma Asks(db: Db, run: Run, index: nat, oracle: Oracle) returns (d: StepResult)
    requires Executes(db, run, oracle)
    requires db.intents[run.intentId].status == Executing || db.intents[run.intentId].status == ReconciliationRequired
    ensures At(db, run, index, oracle, d, ReconciliationRequired, [], false, false, CheckQueried(oracle.query))
  {
    hide FenceHeld, Gets, HasExecutionReceipt;
    var status := db.intents[run.intentId].status;
    var c := Resolved(db, run, index, oracle);
    SameReceipts(db, c.db, run.intentId);
    c := Turn(db, run, index, oracle, c, status, [], false, false, Scan,
              Pc.Transition(ReconciliationRequired, ThenQueryExecution), false);
    c := Reconciled(db, run, index, oracle, c, status, ThenQueryExecution, QueryExecution);
    d := Turn(db, run, index, oracle, c, ReconciliationRequired, [], false, false, QueryExecution,
              CheckQueried(oracle.query), false);
  }

  /** Found: its receipt is stored and it is committed. */
  lemma QueryFinds(db: Db, run: Run, index: nat, oracle: Oracle, draft: Draft)
    requires Executes(db, run, oracle) && oracle.query == Found(draft) && NewId(db, draft)
    requires db.intents[run.intentId].status == Executing || db.intents[run.intentId].status == ReconciliationRequired
    ensures Ends(db, run, index, oracle, FinalStatus(db.intents[run.intentId].reversibility),
                 [Executed(draft, run.intentId)], false, Returns)
  {
    hide FenceHeld, Gets, HasExecutionReceipt, Registered;
    var final := FinalStatus(db.intents[run.intentId].reversibility);
    var receipt := Executed(draft, run.intentId);
    var c := Asks(db, run, index, oracle);
    c := Turn(db, run, index, oracle, c, ReconciliationRequired, [], false, false, CheckQueried(oracle.query),
              Persist(draft, MarkExecuted), false);
    c := Persisted(db, run, index, oracle, c, ReconciliationRequired, false, false, draft, MarkExecuted,
                   Pc.Transition(final, ThenReturn), false);
    c := Moved(db, run, index, oracle, c, ReconciliationRequired, [receipt], false, false, final, ThenReturn, false,
               Return);
    Done(db, run, index, oracle, c, final, [receipt], false, false, Returns);
  }

  /** Definitively absent: FAILED, from where a retry may begin it again. */
  lemma QueryDenies(db: Db, run: Run, index: nat, oracle: Oracle)
    requires Executes(db, run, oracle) && oracle.query == NotFound(true)
    requires db.intents[run.intentId].status == Executing || db.intents[run.intentId].status == ReconciliationRequired
    ensures Ends(db, run, index, oracle, Failed, [], false, Throws(true))
  {
    hide FenceHeld, Gets, HasExecutionReceipt;
    var c := Asks(db, run, index, oracle);
    c := Turn(db, run, index, oracle, c, ReconciliationRequired, [], false, false, CheckQueried(oracle.query),
              Pc.Transition(Failed, ThenRaise(true)), false);
    c := Moved(db, run, index, oracle, c, ReconciliationRequired, [], false, false, Failed, ThenRaise(true), false,
               Raise(true));
    Done(db, run, index, oracle, c, Failed, [], false, false, Throws(true));
  }

  /** Anything less than that leaves it in reconciliation. */
  lemma QueryLeavesOpen(db: Db, run: Run, index: nat, oracle: Oracle)
    requires Executes(db, run, oracle) && (oracle.query == NotFound(false) || oracle.query == QueryUnknown)
    requires db.intents[run.intentId].status == Executing || db.intents[run.intentId].status == ReconciliationRequired
    ensures Ends(db, run, index, oracle, ReconciliationRequired, [], false, Returns)
  {
    hide FenceHeld, Gets, HasExecutionReceipt, Registered;
    var c := Asks(db, run, index, oracle);
    c := Turn(db, run, index, oracle, c, ReconciliationRequired, [], false, false, CheckQueried(oracle.query),
              Return, false);
    Done(db, run, index, oracle, c, ReconciliationRequired, [], false, false, Returns);
  }

  // ---------------------------------------------------- execution, nothing left to execute

  predicate Looks(db: Db, run: Run, oracle: Oracle) {
    && Fresh(db, run, oracle) && run.handler == ReconcileEffect
    && Usable(db.intents[run.intentId], ReconcileEffect, oracle)
  }

  /** With a durable receipt of its execution an intent is committed without asking anybody, where the table allows. */
  lemma ReceiptCommits(db: Db, run: Run, index: nat, oracle: Oracle)
    requires Looks(db, run, oracle) && HasExecutionReceipt(db, run.intentId)
    requires db.intents[run.intentId].status in {Prepared, Executing, Failed, CompensationPending, ReconciliationRequired}
    ensures Ends(db, run, index, oracle, FinalStatus(db.intents[run.intentId].reversibility), [], false, Returns)
  {
    hide FenceHeld, Gets, HasExecutionReceipt, Registered;
    var status := db.intents[run.intentId].status;
    var final := FinalStatus(db.intents[run.intentId].reversibility);
    var c := Resolved(db, run, index, oracle);
    SameReceipts(db, c.db, run.intentId);
    if status == Executing || status == ReconciliationRequired {
      c := Turn(db, run, index, oracle, c, status, [], false, false, Scan, Pc.Transition(final, ThenReturn), false);
      c := Moved(db, run, index, oracle, c, status, [], false, false, final, ThenReturn, false, Return);
    } else {
      c := Turn(db, run, index, oracle, c, status, [], false, false, Scan,
                Pc.Transition(ReconciliationRequired, ThenCommit), false);
      c := Moved(db, run, index, oracle, c, status, [], false, false, ReconciliationRequired, ThenCommit, false,
                 Pc.Transition(final, ThenReturn));
      c := Moved(db, run, index, oracle, c, ReconciliationRequired, [], false, false, final, ThenReturn, false, Return);
    }
    Done(db, run, index, oracle, c, final, [], false, false, Returns);
  }

  /** An intent already committed stays as it is; a receipt found after remediation began is a permanent error. */
  lemma ReceiptChangesNothing(db: Db, run: Run, index: nat, oracle: Oracle)
    requires Looks(db, run, oracle) && HasExecutionReceipt(db, run.intentId)
    requires var intent := db.intents[run.intentId];
             intent.status in {FinalStatus(intent.reversibility), Compensated, RemediationRequired}
    ensures var intent := db.intents[run.intentId];
            Ends(db, run, index, oracle, intent.status, [], false,
                 if intent.status == FinalStatus(intent.reversibility) then Returns else Throws(false))
  {
    hide FenceHeld, Gets, HasExecutionReceipt, Registered;
    var status := db.intents[run.intentId].status;
    var c := Resolved(db, run, index, oracle);
    SameReceipts(db, c.db, run.intentId);
    if status == FinalStatus(db.intents[run.intentId].reversibility) {
      c := Turn(db, run, index, oracle, c, status, [], false, false, Scan, Return, false);
      Done(db, run, index, oracle, c, status, [], false, false, Returns);
      return;
    }
    c := Turn(db, run, index, oracle, c, status, [], false, false, Scan,
              Pc.Transition(ReconciliationRequired, ThenCommit), false);
    c := Turn(db, run, index, oracle, c, status, [], false, false, Pc.Transition(ReconciliationRequired, ThenCommit),
              Raise(false), false);
    Done(db, run, index, oracle, c, status, [], false, false, Throws(false));
  }

  /** A settled intent is left alone. */
  lemma SettledIsLeft(db: Db, run: Run, index: nat, oracle: Oracle)
    requires Looks(db, run, oracle) && !HasExecutionReceipt(db, run.intentId)
    requires db.intents[run.intentId].status in {Committed, IrreversibleCommitted, Compensated, RemediationRequired}
    ensures Ends(db, run, index, oracle, db.intents[run.intentId].status, [], false, Returns)
  {
    hide FenceHeld, Gets, HasExecutionReceipt, Registered;
    var status := db.intents[run.intentId].status;
    var c := Resolved(db, run, index, oracle);
    SameReceipts(db, c.db, run.intentId);
    c := Turn(db, run, index, oracle, c, status, [], false, false, Scan, Return, false);
    Done(db, run, index, oracle, c, status, [], false, false, Returns);
  }

  /** An intent whose compensation is under way is nothing for an automatic execution job: a permanent error. */
  lemma PendingCompensationRefused(db: Db, run: Run, index: nat, oracle: Oracle)
    requires Executes(db, run, oracle) && db.intents[run.intentId].status == CompensationPending
    ensures Ends(db, run, index, oracle, CompensationPending, [], false, Throws(false))
  {
    hide FenceHeld, Gets, HasExecutionReceipt, Registered;
    var c := Resolved(db, run, index, oracle);
    SameReceipts(db, c.db, run.intentId);
    c := Turn(db, run, index, oracle, c, CompensationPending, [], false, false, Scan, Raise(false), false);
    Done(db, run, index, oracle, c, CompensationPending, [], false, false, Throws(false));
  }

  /** A manual connector is never begun: the intent waits for its receipt in reconciliation. */
  lemma ManualWaits(db: Db, run: Run, index: nat, oracle: Oracle)
    requires Looks(db, run, oracle) && !HasExecutionReceipt(db, run.intentId)
    requires db.intents[run.intentId].connector.mode == ManualReceipt
    requires db.intents[run.intentId].status in {Prepared, Executing, Failed, CompensationPending, ReconciliationRequired}
    requires oracle.execute == WaitingForManualReceipt
    ensures Ends(db, run, index, oracle, ReconciliationRequired, [], false, Returns)
  {
    hide FenceHeld, Gets, HasExecutionReceipt, Registered;
    var status := db.intents[run.intentId].status;
    var c := Resolved(db, run, index, oracle);
    SameReceipts(db, c.db, run.intentId);
    if status == ReconciliationRequired {
      c := Turn(db, run, index, oracle, c, status, [], false, false, Scan, Return, false);
    } else {
      c := Turn(db, run, index, oracle, c, status, [], false, false, Scan,
                Pc.Transition(ReconciliationRequired, ThenReturn), false);
      c := Moved(db, run, index, oracle, c, status, [], false, false, ReconciliationRequired, ThenReturn, false, Return);
    }
    Done(db, run, index, oracle, c, ReconciliationRequired, [], false, false, Returns);
  }

  /** A manual connector that claims to have acted is a permanent error. */
  lemma ManualMustNotAct(db: Db, run: Run, index: nat, oracle: Oracle)
    requires Looks(db, run, oracle) && !HasExecutionReceipt(db, run.intentId)
    requires db.intents[run.intentId].connector.mode == ManualReceipt
    requires db.intents[run.intentId].status in {Prepared, Executing, Failed, CompensationPending}
    requires oracle.execute != WaitingForManualReceipt
    ensures Ends(db, run, index, oracle, db.intents[run.intentId].status, [], false, Throws(false))
  {
    hide FenceHeld, Gets, HasExecutionReceipt, Registered;
    var status := db.intents[run.intentId].status;
    var c := Resolved(db, run, index, oracle);
    SameReceipts(db, c.db, run.intentId);
    c := Turn(db, run, index, oracle, c, status, [], false, false, Scan, Raise(false), false);
    Done(db, run, index, oracle, c, status, [], false, false, Throws(false));
  }

  // -------------------------------------------------------------------- no usable connector

  /** Without a safe connector nothing is begun, by either job: unsettled work goes to reconciliation. */
  lemma UnsafeIsHeldBack(db: Db, run: Run, index: nat, oracle: Oracle)
    requires Fresh(db, run, oracle) && (!oracle.resolves || Unsafe(db.intents[run.intentId]))
    ensures Ends(db, run, index, oracle,
                 if db.intents[run.intentId].status in {Prepared, Executing, Failed, CompensationPending}
                 then ReconciliationRequired else db.intents[run.intentId].status,
                 [], false, Throws(false))
  {
    hide FenceHeld, Gets;
    var status := db.intents[run.intentId].status;
    var c := Loaded(db, run, index, oracle);
    if status in {Prepared, Executing, Failed, CompensationPending} {
      c := Turn(db, run, index, oracle, c, status, [], false, false, Resolve,
                Pc.Transition(ReconciliationRequired, ThenRaise(false)), false);
      c := Moved(db, run, index, oracle, c, status, [], false, false, ReconciliationRequired, ThenRaise(false), false,
                 Raise(false));
      Done(db, run, index, oracle, c, ReconciliationRequired, [], false, false, Throws(false));
      return;
    }
    c := Turn(db, run, index, oracle, c, status, [], false, false, Resolve, Raise(false), false);
    Done(db, run, index, oracle, c, status, [], false, false, Throws(false));
  }
}
