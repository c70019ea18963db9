/**
  What a call from outside the worker comes to: preparing an intent, recording a receipt for it, asking for its
  reconciliation, invalidating it. For each, exactly when it changes anything, and what
  (apps/api/src/routes/effects.ts:204-710, apps/api/src/routes/lineage.ts:492-505,
  apps/worker/src/effect-store.ts:250-290).
 */
module OutsideOutcomes {
  import opened EffectTable
  import opened Tables
  import opened EffectRuntime
  import opened Protocol
  import opened UninterruptedRuns
  import opened HandlerOutcomes

  // ------------------------------------------------------------------------------- preparing

  /** The intent stored for an operation, if there is one. */
  predicate Holds(db: Db, draft: Intent, i: IntentId) {
    && i in db.intents
    && db.intents[i].operation.connectorType == draft.operation.connectorType
    && db.intents[i].operation.idempotencyKey == draft.operation.idempotencyKey
  }

  /** Every stored intent is found under its own connector type and key; an invariant (`IntentKeys.KeysHold`). */
  ghost predicate Findable(db: Db) {
    && (forall i :: i in db.intents ==>
          var key := (db.intents[i].operation.connectorType, db.intents[i].operation.idempotencyKey);
          key in db.intentIndex && db.intentIndex[key] == i)
    && (forall key :: key in db.intentIndex ==>
          && db.intentIndex[key] in db.intents
          && db.intents[db.intentIndex[key]].operation.connectorType == key.0
          && db.intents[db.intentIndex[key]].operation.idempotencyKey == key.1)
  }

  /** The token that the next begin on a resource takes. */
  function NextToken(db: Db, resource: ResourceKey): nat {
    if resource in db.fences then db.fences[resource].token + 1 else 1
  }

  /** A new operation is stored as PREPARED under the resource's next token, and nothing else changes. */
  lemma NewIsPrepared(db: Db, id: IntentId, draft: Intent, leaseTime: nat, late: bool)
    requires Findable(db) && id !in db.intents && forall i :: !Holds(db, draft, i)
    ensures var (after, answer) := PrepareIntent(db, id, draft, leaseTime, late);
            var token := NextToken(db, draft.resource);
            && answer == Created(id)
            && after.intents == db.intents[id := draft.(status := Prepared, token := Some(token))]
            && after.fences == db.fences[draft.resource := Fence(token, db.now + leaseTime)]
            && after.jobs == db.jobs && after.receipts == db.receipts && after.now == db.now
            && after.jobIndex == db.jobIndex && Findable(after)
  {
    if KeyOf(draft) in db.intentIndex {
      assert Holds(db, draft, db.intentIndex[KeyOf(draft)]);
    }
  }

  /** An operation that is known is replayed for the same request, and refused otherwise; nothing is stored. */
  lemma KnownIsReplayed(db: Db, id: IntentId, draft: Intent, leaseTime: nat, late: bool, i: IntentId)
    requires Findable(db) && Holds(db, draft, i)
    ensures var (after, answer) := PrepareIntent(db, id, draft, leaseTime, late);
            var same := if late then db.intents[i].operation.columns == draft.operation.columns
                        else db.intents[i].operation.digest == draft.operation.digest;
            && answer == (if same then Replayed(i) else PrepareConflict)
            && after == if late && same
                        then db.(fences := db.fences[draft.resource :=
                               Fence(NextToken(db, draft.resource), db.now + leaseTime)])
                        else db
  {
  }

  // -------------------------------------------------------------------------------- receipts

  predicate NewReceipt(db: Db, receipt: Receipt) {
    && receipt.intentId in db.intents
    && db.intents[receipt.intentId].connector.mode == ManualReceipt
    && forall k :: 0 <= k < |db.receipts| ==> db.receipts[k].id != receipt.id
  }

  /** A receipt on record, with the intent in the given status. */
  predicate ReceiptAnd(before: Db, after: Db, receipt: Receipt, status: Status)
    requires receipt.intentId in before.intents
  {
    var i := receipt.intentId;
    after == before.(receipts := before.receipts + [receipt],
                     intents := before.intents[i := before.intents[i].(status := status)])
  }

  /** A manual receipt commits a manual intent that is still open, and does nothing else at all. */
  lemma ManualReceiptCommits(s: State, seen: Status, receipt: Receipt)
    ensures var t := Next(s, ManualReceiptRecorded(seen, receipt));
            if && NewReceipt(s.db, receipt) && s.db.intents[receipt.intentId].status == seen
               && seen in {Prepared, Executing, Failed, ReconciliationRequired}
            then ReceiptAnd(s.db, t.db, receipt, FinalStatus(s.db.intents[receipt.intentId].reversibility))
            else t.db == s.db && t.log == s.log
  {
    hide PathEvents;
  }

  /** What the caller reports, as a status. */
  function Reported(verdict: Verdict, reversibility: Reversibility): Status {
    match verdict
    case Applied => FinalStatus(reversibility)
    case Rejected => Failed
    case Uncertain => ReconciliationRequired
  }

  /**
    A receipt through the API: it moves an open manual intent to what it reports; an uncertain one also reopens a
    pending compensation; one that reports what the status said when it was read is only recorded.
   */
  lemma ApiReceiptReports(s: State, seen: Status, verdict: Verdict, receipt: Receipt)
    ensures var t := Next(s, ApiReceiptRecorded(seen, verdict, receipt));
            if !NewReceipt(s.db, receipt) then t.db == s.db
            else
              var reported := Reported(verdict, s.db.intents[receipt.intentId].reversibility);
              if reported == seen then t.db == s.db.(receipts := s.db.receipts + [receipt])
              else if && s.db.intents[receipt.intentId].status == seen
                      && (|| seen in {Prepared, Executing, Failed, ReconciliationRequired}
                          || (seen == CompensationPending && verdict == Uncertain))
              then ReceiptAnd(s.db, t.db, receipt, reported)
              else t.db == s.db
  {
    hide PathEvents;
    ApiPathLegal(s, seen, verdict, receipt);
  }

  lemma ApiPathLegal(s: State, seen: Status, verdict: Verdict, receipt: Receipt)
    requires receipt.intentId in s.db.intents || !NewReceipt(s.db, receipt)
    ensures NewReceipt(s.db, receipt) ==>
              var reported := Reported(verdict, s.db.intents[receipt.intentId].reversibility);
              && VerdictStatus(verdict, s.db.intents[receipt.intentId].reversibility) == reported
              && (ApiReceiptPath(seen, reported) == [] <==> seen == reported)
              && (seen != reported ==>
                    (LegalPath(seen, ApiReceiptPath(seen, reported)) <==>
                       || seen in {Prepared, Executing, Failed, ReconciliationRequired}
                       || (seen == CompensationPending && verdict == Uncertain)))
  {
    if NewReceipt(s.db, receipt) {
      var reported := Reported(verdict, s.db.intents[receipt.intentId].reversibility);
      OneEdge(seen, reported);
      TwoEdges(seen, Executing, reported);
    }
  }

  lemma OneEdge(from: Status, to: Status)
    ensures LegalPath(from, [to]) <==> CanTransition(from, to)
  {
    assert [to][1..] == [];
  }

  lemma TwoEdges(from: Status, over: Status, to: Status)
    ensures LegalPath(from, [over, to]) <==> CanTransition(from, over) && CanTransition(over, to)
  {
    assert [over, to][1..] == [to];
    OneEdge(over, to);
  }

  /** The writes in between are on the log: through EXECUTING for the API, through reconciliation for the worker. */
  lemma ReceiptWrites(s: State, seen: Status, verdict: Verdict, receipt: Receipt)
    requires NewReceipt(s.db, receipt) && s.db.intents[receipt.intentId].status == seen
    requires seen in {Prepared, Executing, Failed, ReconciliationRequired}
    ensures var i := receipt.intentId;
            var reported := Reported(verdict, s.db.intents[i].reversibility);
            seen != reported ==>
              Next(s, ApiReceiptRecorded(seen, verdict, receipt)).log
              == s.log + [Recorded(receipt)]
               + if seen == Prepared || seen == Failed
                 then [Wrote(i, seen, Executing, None), Wrote(i, Executing, reported, None)]
                 else [Wrote(i, seen, reported, None)]
    ensures var i := receipt.intentId;
            var final := FinalStatus(s.db.intents[i].reversibility);
            Next(s, ManualReceiptRecorded(seen, receipt)).log
            == s.log + [Recorded(receipt)]
             + if seen == Prepared || seen == Failed
               then [Wrote(i, seen, ReconciliationRequired, None), Wrote(i, ReconciliationRequired, final, None)]
               else [Wrote(i, seen, final, None)]
  {
    hide PathEvents;
    var i := receipt.intentId;
    var reported, final := Reported(verdict, s.db.intents[i].reversibility), FinalStatus(s.db.intents[i].reversibility);
    ApiReceiptReports(s, seen, verdict, receipt);
    ManualReceiptCommits(s, seen, receipt);
    PathOfTwo(i, seen, Executing, reported);
    PathOfTwo(i, seen, ReconciliationRequired, final);
  }

  lemma PathOfTwo(i: IntentId, from: Status, over: Status, to: Status)
    ensures PathEvents(i, from, [to]) == [Wrote(i, from, to, None)]
    ensures PathEvents(i, from, [over, to]) == [Wrote(i, from, over, None), Wrote(i, over, to, None)]
  {
    assert [to][1..] == [] && [over, to][1..] == [to];
    assert PathEvents(i, over, [to]) == [Wrote(i, over, to, None)] + PathEvents(i, to, []);
  }

  // ---------------------------------------------------------- reconciliation and invalidation

  /** The job that a request for reconciliation leaves behind. */
  predicate JobQueued(before: Db, after: Db, jobId: JobId, request: nat, i: IntentId) {
    && after.jobs == before.jobs[jobId := Job(ReconcileEffect, i, Pending, 0, 8, before.now, None, 0)]
    && after.jobIndex == before.jobIndex[(ReconcileEffect, RequestKey(request)) := jobId]
  }

  /** An intent in flight or waiting is moved to reconciliation, and a job queued for it, or nothing happens. */
  lemma ReconciliationQueues(db: Db, i: IntentId, seen: Status, jobId: JobId, request: nat)
    requires (ReconcileEffect, RequestKey(request)) !in db.jobIndex
    ensures var after := RequestReconciliation(db, i, seen, jobId, request);
            if && i in db.intents && jobId !in db.jobs
               && (|| seen == ReconciliationRequired
                   || (seen == db.intents[i].status && seen in {Prepared, Executing, Failed, CompensationPending}))
            then
              && after.intents == db.intents[i := db.intents[i].(
                   status := if seen == ReconciliationRequired then db.intents[i].status else ReconciliationRequired)]
              && JobQueued(db, after, jobId, request, i)
              && after.receipts == db.receipts && after.fences == db.fences
              && after.intentIndex == db.intentIndex && after.now == db.now
            else after == db
  {
    if i in db.intents {
      assert db.intents[i := db.intents[i]] == db.intents;
    }
  }

  /** A request whose job exists already moves the intent, if the job is about that intent, and queues nothing. */
  lemma RepeatedRequestQueuesNothing(db: Db, i: IntentId, seen: Status, jobId: JobId, request: nat)
    requires (ReconcileEffect, RequestKey(request)) in db.jobIndex
    ensures var after := RequestReconciliation(db, i, seen, jobId, request);
            var known := db.jobIndex[(ReconcileEffect, RequestKey(request))];
            after == if && i in db.intents && known in db.jobs && db.jobs[known].intentId == i
                        && seen == db.intents[i].status && seen in {Prepared, Executing, Failed, CompensationPending}
                     then db.(intents := db.intents[i := db.intents[i].(status := ReconciliationRequired)])
                     else db
  {
  }

  /** Invalidation demands remediation exactly of what may have happened outside and is neither undone nor due already. */
  lemma InvalidationDemandsRemediation(s: State, i: IntentId, seen: Status)
    ensures var t := Next(s, Invalidated(i, seen));
            if && i in s.db.intents && s.db.intents[i].status == seen
               && seen in {Committed, IrreversibleCommitted, CompensationPending, ReconciliationRequired}
            then t.db == s.db.(intents := s.db.intents[i := s.db.intents[i].(status := RemediationRequired)])
            else t.db == s.db
  {
  }

  // ------------------------------------------------------------------------- resource fences

  /** A begin fences its resource for the time of its lease, and takes the next token. */
  lemma BeginFences(db: Db, fence: JobFence, i: IntentId, from: Status, to: Status, leaseTime: nat, elapsed: nat)
    requires FenceHeld(db, fence) && i in db.intents && db.intents[i].status == from
    ensures var (after, result) := BeginOperation(db, fence, i, from, to, leaseTime);
            var resource := db.intents[i].resource;
            var token := NextToken(db, resource);
            && result == Written(db.intents[i].(status := to, token := Some(token)))
            && after == db.(intents := db.intents[i := result.intent],
                            fences := db.fences[resource := Fence(token, db.now + leaseTime)])
            && (ResourceFenceCurrent(after.(now := after.now + elapsed), resource, token) <==> elapsed < leaseTime)
            && forall other :: ResourceFenceCurrent(after, resource, other) ==> other == token
  {
    hide FenceHeld;
  }
}
