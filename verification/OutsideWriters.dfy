/**
  Everybody but the worker who writes an intent's status: dead-lettering, manual receipts, the
  API routes and invalidation. Each moves at most one intent, along a legal path, and appends at
  most one receipt.
 */
module OutsideWriters {
  import opened EffectTable
  import opened Tables
  import opened EffectRuntime
  import opened Protocol

  /** The intent concerned, the statuses it is taken through, and the receipt appended. */
  datatype Change = Change(intentId: IntentId, path: seq<Status>, receipt: Option<Receipt>)

  ghost predicate Arrives(intent: Intent, arrival: Status, receipt: Option<Receipt>) {
    && !InFlight(arrival) && arrival != Compensated
    && (arrival == Committed || arrival == IrreversibleCommitted ==>
          receipt.Some? && arrival == TerminalStatus(intent.reversibility))
    && (intent.connector.mode == AutomaticWrite ==>
          arrival == ReconciliationRequired || arrival == RemediationRequired)
  }

  ghost predicate Outside(before: Db, after: Db, change: Change) {
    && after.fences == before.fences
    && after.intentIndex == before.intentIndex
    && after.receipts == before.receipts + (if change.receipt.Some? then [change.receipt.value] else [])
    && (change.receipt.Some? ==>
          && change.receipt.value.intentId == change.intentId
          && change.intentId in before.intents
          && before.intents[change.intentId].connector.mode == ManualReceipt)
    && if change.path == [] then after.intents == before.intents
       else
         && change.intentId in before.intents
         && var intent := before.intents[change.intentId];
         && LegalPath(intent.status, change.path)
         && Arrives(intent, Last(intent.status, change.path), change.receipt)
         && after.intents == before.intents[change.intentId :=
              intent.(status := Last(intent.status, change.path))]
  }

  function ChangeEvents(before: Db, change: Change): seq<Event> {
    (if change.receipt.Some? then [Recorded(change.receipt.value)] else [])
    + (if change.path != [] && change.intentId in before.intents
       then PathEvents(change.intentId, before.intents[change.intentId].status, change.path) else [])
  }

  lemma MarkOutside(before: Db, db: Db, job: Job) returns (change: Change)
    requires db.intents == before.intents && db.intentIndex == before.intentIndex
    requires db.fences == before.fences && db.receipts == before.receipts
    ensures var after := MarkDeadLetter(db, job);
            && Outside(before, after, change)
            && ChangeEvents(before, change) == RescueEvents(before, after, job.intentId)
  {
    change := Change(job.intentId, [], None);
    if MarkDeadLetter(db, job) != db {
      change := Change(job.intentId, [ReconciliationRequired], None);
      assert PathEvents(job.intentId, before.intents[job.intentId].status, []) == [];
    }
  }

  lemma FailOutside(db: Db, fence: JobFence, retryable: bool, retryAt: nat) returns (change: Change)
    ensures var after := FailJob(db, fence, retryable, retryAt);
            && Outside(db, after, change)
            && (FenceHeld(db, fence) ==>
                  ChangeEvents(db, change) == RescueEvents(db, after, db.jobs[fence.jobId].intentId))
            && (!FenceHeld(db, fence) ==> change == Change(0, [], None) && after == db)
  {
    hide MarkDeadLetter, RescueEvents;
    change := Change(0, [], None);
    if FenceHeld(db, fence) {
      var job := Released(db.jobs[fence.jobId], retryable, retryAt);
      change := MarkOutside(db, db.(jobs := db.jobs[fence.jobId := job]), job);
    }
  }

  lemma RecoverOutside(db: Db, jobId: JobId) returns (change: Change)
    requires jobId in db.jobs
    ensures var after := RecoverJob(db, jobId);
            && Outside(db, after, change)
            && ChangeEvents(db, change) == RescueEvents(db, after, db.jobs[jobId].intentId)
  {
    hide MarkDeadLetter;
    change := Change(0, [], None);
    if Stalled(db, jobId) {
      var job := Released(db.jobs[jobId], true, db.now);
      var recovered := if job.status == DeadLetter then job.(availableAt := db.now) else job;
      hide RescueEvents;
      change := MarkOutside(db, db.(jobs := db.jobs[jobId := recovered]), recovered);
    }
  }

  lemma ManualPathLegal(seen: Status, reversibility: Reversibility)
    requires Receiptable(seen)
    ensures LegalPath(seen, ManualPath(seen, TerminalStatus(reversibility)))
  {
    var terminal := TerminalStatus(reversibility);
    assert LegalPath(terminal, []);
    assert [terminal][1..] == [];
    if seen == Prepared || seen == Failed {
      assert [ReconciliationRequired, terminal][1..] == [terminal];
      assert LegalPath(ReconciliationRequired, [terminal]);
    }
  }

  lemma ManualOutside(db: Db, seen: Status, receipt: Receipt) returns (change: Change)
    ensures var after := RecordManualReceipt(db, seen, receipt);
            && Outside(db, after, change)
            && (after == db ==> change == Change(0, [], None))
            && (after != db ==>
                  && receipt.intentId in after.intents
                  && ChangeEvents(db, change) == [Recorded(receipt)] + PathEvents(receipt.intentId, seen,
                       ManualPath(seen, after.intents[receipt.intentId].status)))
  {
    change := Change(0, [], None);
    var after := RecordManualReceipt(db, seen, receipt);
    if after != db {
      var intent := db.intents[receipt.intentId];
      var path := ManualPath(seen, TerminalStatus(intent.reversibility));
      change := Change(receipt.intentId, path, Some(receipt));
      ManualPathLegal(seen, intent.reversibility);
    }
  }

  lemma ApiOutside(db: Db, seen: Status, verdict: Verdict, receipt: Receipt) returns (change: Change)
    ensures var after := RecordApiReceipt(db, seen, verdict, receipt);
            && Outside(db, after, change)
            && (after == db ==> change == Change(0, [], None))
            && (after != db ==>
                  && receipt.intentId in after.intents
                  && ChangeEvents(db, change) == [Recorded(receipt)] + PathEvents(receipt.intentId, seen,
                       ApiReceiptPath(seen, VerdictStatus(verdict, after.intents[receipt.intentId].reversibility))))
  {
    hide LegalPath;
    change := Change(0, [], None);
    var after := RecordApiReceipt(db, seen, verdict, receipt);
    if after != db {
      var intent := db.intents[receipt.intentId];
      var path := ApiReceiptPath(seen, VerdictStatus(verdict, intent.reversibility));
      change := Change(receipt.intentId, path, Some(receipt));
    }
  }

  lemma ReconciliationOutside(db: Db, intentId: IntentId, seen: Status, jobId: JobId, request: nat)
    returns (change: Change)
    ensures var after := RequestReconciliation(db, intentId, seen, jobId, request);
            Outside(db, after, change) && ChangeEvents(db, change) == RescueEvents(db, after, intentId)
  {
    var after := RequestReconciliation(db, intentId, seen, jobId, request);
    if after.intents == db.intents {
      change := Change(0, [], None);
    } else {
      change := Change(intentId, [ReconciliationRequired], None);
      assert PathEvents(intentId, ReconciliationRequired, []) == [];
    }
  }

  lemma InvalidateOutside(db: Db, intentId: IntentId, seen: Status) returns (change: Change)
    ensures var after := InvalidateIntent(db, intentId, seen);
            Outside(db, after, change) && ChangeEvents(db, change) == RescueEvents(db, after, intentId)
  {
    var after := InvalidateIntent(db, intentId, seen);
    if after == db {
      change := Change(0, [], None);
    } else {
      change := Change(intentId, [RemediationRequired], None);
      assert PathEvents(intentId, RemediationRequired, []) == [];
    }
  }

  predicate OutsideAction(act: Action) {
    || act.Fail? || act.Recover? || act.ManualReceiptRecorded? || act.ApiReceiptRecorded?
    || act.ReconciliationRequested? || act.Invalidated?
  }

  /** Every action of the state machine that is not a handler step, in one shape. */
  lemma OutsideStep(s: State, act: Action) returns (change: Change)
    requires Enabled(s, act) && OutsideAction(act)
    requires act.Fail? ==>
               && s.runs[act.run].jobId in s.db.jobs
               && s.runs[act.run].intentId == s.db.jobs[s.runs[act.run].jobId].intentId
    ensures var t := Next(s, act);
            && Outside(s.db, t.db, change)
            && t.log == s.log + ChangeEvents(s.db, change)
            && t.owner == s.owner
  {
    hide FailJob, RecoverJob, RequestReconciliation, RecordManualReceipt, RecordApiReceipt, InvalidateIntent,
         Outside;
    match act
    case Fail(run, retryable, retryAt) =>
      change := FailOutside(s.db, FenceOf(s.runs[run]), retryable, retryAt);
    case Recover(jobId) =>
      if jobId in s.db.jobs {
        change := RecoverOutside(s.db, jobId);
      } else {
        change := Change(0, [], None);
        NoChange(s.db);
      }
    case ManualReceiptRecorded(seen, receipt) => change := ManualOutside(s.db, seen, receipt);
    case ApiReceiptRecorded(seen, verdict, receipt) => change := ApiOutside(s.db, seen, verdict, receipt);
    case ReconciliationRequested(intentId, seen, jobId, request) =>
      change := ReconciliationOutside(s.db, intentId, seen, jobId, request);
    case Invalidated(intentId, seen) => change := InvalidateOutside(s.db, intentId, seen);
  }

  lemma NoChange(db: Db)
    ensures Outside(db, db, Change(0, [], None))
  {
  }
}
