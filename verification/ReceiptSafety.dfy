/**
  Receipts before statuses, and one transition table for every writer: what holds of every
  intent after every sequence of actions, whoever took them.
 */
module ReceiptSafety {
  import opened EffectTable
  import opened Tables
  import opened EffectRuntime
  import opened RunSteps
  import opened RunInvariant
  import opened Protocol
  import opened Leases
  import opened OutsideWriters

  // ------------------------------------------------------------------ the invariant

  /** A committed status stands on a durable receipt of the right kind. */
  ghost predicate Justified(db: Db, intentId: IntentId)
    requires intentId in db.intents
  {
    var intent := db.intents[intentId];
    && (intent.status == Committed || intent.status == IrreversibleCommitted ==>
          intent.status == TerminalStatus(intent.reversibility) && HasReceipt(db, intentId))
    && (intent.status == Compensated ==> HasCompensationReceipt(db, intentId))
  }

  ghost predicate AllJustified(db: Db) {
    forall i :: i in db.intents ==> Justified(db, i)
  }

  ghost predicate RunsOk(db: Db, runs: seq<Run>) {
    forall r :: 0 <= r < |runs| ==> RunOk(db, runs[r]) && CopyOk(db, runs[r])
  }

  ghost predicate ReceiptInv(s: State) {
    AllJustified(s.db) && RunsOk(s.db, s.runs)
  }

  lemma JustifiedStays(before: Db, after: Db, intentId: IntentId)
    requires intentId in before.intents && Justified(before, intentId)
    requires intentId in after.intents && after.intents[intentId].reversibility == before.intents[intentId].reversibility
    requires before.receipts <= after.receipts
    requires after.intents[intentId].status == before.intents[intentId].status
    ensures Justified(after, intentId)
  {
    hide HasReceipt, HasCompensationReceipt, HasExecutionReceipt;
    ReceiptsStay(before, after, intentId);
  }

  lemma RunsStayOk(before: Db, after: Db, runs: seq<Run>)
    requires RunsOk(before, runs) && Grows(before, after)
    ensures RunsOk(after, runs)
  {
    hide RunOk, CopyOk, Grows;
    forall r | 0 <= r < |runs| ensures RunOk(after, runs[r]) && CopyOk(after, runs[r]) {
      RunStaysOk(before, after, runs[r]);
    }
  }

  // -------------------------------------------------------------- handler steps

  /** A handler writes a committed status only when the receipt is there. */
  lemma WriteJustified(db: Db, run: Run, index: nat, result: StepResult, kind: Kind)
    requires AllJustified(db) && RunOk(db, run) && CopyOk(db, run) && run.handler != OtherWork
    requires HasKind(db, run, index, result, kind)
    ensures AllJustified(result.db)
  {
    hide HasReceipt, HasCompensationReceipt, Justified, CanTransition;
    forall i | i in result.db.intents ensures Justified(result.db, i) {
      if i == run.intentId && (kind.Writes? || kind.Begins?) {
        OwnWriteJustified(db, run, index, result, kind);
      } else {
        JustifiedStays(db, result.db, i);
      }
    }
  }

  lemma OwnWriteJustified(db: Db, run: Run, index: nat, result: StepResult, kind: Kind)
    requires RunOk(db, run) && CopyOk(db, run) && run.handler != OtherWork
    requires HasKind(db, run, index, result, kind) && (kind.Writes? || kind.Begins?)
    ensures run.intentId in result.db.intents && Justified(result.db, run.intentId)
  {
    hide CanTransition, HasReceipt, HasCompensationReceipt, HasExecutionReceipt;
    ReceiptsStay(db, result.db, run.intentId);
  }

  lemma ReceiptWork(s: State, act: Action)
    requires LeaseInv(s) && ReceiptInv(s) && Enabled(s, act) && act.Work?
    ensures ReceiptInv(Next(s, act))
  {
    hide Step, RunOk, CopyOk, Justified, AllJustified, HasKind;
    var run := s.runs[act.run];
    var result := Step(s.db, run, act.run, act.oracle);
    assert RunFits(s.db, run);
    if Finished(run.pc) {
      FinishedStep(s.db, run, act.run, act.oracle);
      assert Next(s, act).runs == s.runs;
    } else {
      var kind := StepKind(s.db, run, act.run, act.oracle);
      WriteJustified(s.db, run, act.run, result, kind);
      StepOk(s.db, run, act.run, act.oracle);
      CopyStep(s.db, run, act.run, act.oracle);
      RunsStayOk(s.db, result.db, s.runs);
    }
  }

  lemma FinishedStep(db: Db, run: Run, index: nat, oracle: Oracle)
    requires Finished(run.pc)
    ensures Step(db, run, index, oracle) == StepResult(db, run, [])
  {
  }

  // ------------------------------------------------------------- everybody else

  lemma OutsideJustified(before: Db, after: Db, change: Change)
    requires AllJustified(before) && Outside(before, after, change)
    ensures AllJustified(after) && Grows(before, after)
  {
    hide HasReceipt, HasCompensationReceipt, Justified, LegalPath;
    forall i | i in after.intents ensures Justified(after, i) {
      if i == change.intentId && change.path != [] {
        ArrivalJustified(before, after, change);
      } else {
        JustifiedStays(before, after, i);
      }
    }
  }

  lemma ArrivalJustified(before: Db, after: Db, change: Change)
    requires Outside(before, after, change) && change.path != []
    ensures change.intentId in after.intents && Justified(after, change.intentId)
  {
    hide LegalPath, HasCompensationReceipt;
    if change.receipt.Some? {
      assert after.receipts[|before.receipts|] == change.receipt.value;
    }
  }

  lemma EndedOk(db: Db, s: State, run: nat)
    requires RunsOk(db, s.runs) && run < |s.runs|
    ensures RunsOk(db, Ended(s, run))
  {
  }

  lemma ReceiptOutside(s: State, act: Action)
    requires LeaseInv(s) && ReceiptInv(s) && Enabled(s, act) && OutsideAction(act)
    ensures ReceiptInv(Next(s, act))
  {
    var change := OutsideStep(s, act);
    OutsideJustified(s.db, Next(s, act).db, change);
    RunsStayOk(s.db, Next(s, act).db, s.runs);
    OutsideRuns(s, act);
    if act.Fail? {
      EndedOk(Next(s, act).db, s, act.run);
    }
  }

  lemma OutsideRuns(s: State, act: Action)
    requires Enabled(s, act) && OutsideAction(act)
    ensures Next(s, act).runs == if act.Fail? then Ended(s, act.run) else s.runs
  {
    hide FailJob, RecoverJob, RequestReconciliation, RecordManualReceipt, RecordApiReceipt, InvalidateIntent, Ended;
  }

  /** The actions that leave intents and receipts alone, or only add a new intent. */
  lemma ReceiptQuiet(s: State, act: Action)
    requires LeaseInv(s) && ReceiptInv(s) && Enabled(s, act) && !act.Work? && !OutsideAction(act)
    ensures ReceiptInv(Next(s, act))
  {
    hide RunOk, CopyOk, Justified;
    var t := Next(s, act);
    QuietTables(s, act);
    RunsStayOk(s.db, t.db, s.runs);
    forall i | i in t.db.intents ensures Justified(t.db, i) {
      if i in s.db.intents {
        JustifiedStays(s.db, t.db, i);
      } else {
        PreparedJustified(t.db, i);
      }
    }
    QuietRuns(s, act);
  }

  lemma PreparedJustified(db: Db, intentId: IntentId)
    requires intentId in db.intents && db.intents[intentId].status == Prepared
    ensures Justified(db, intentId)
  {
  }

  lemma QuietTables(s: State, act: Action)
    requires Enabled(s, act) && !act.Work? && !OutsideAction(act)
    ensures var t := Next(s, act);
            && t.db.receipts == s.db.receipts
            && Grows(s.db, t.db)
            && (forall i :: i in s.db.intents ==> t.db.intents[i] == s.db.intents[i])
            && (forall i :: i in t.db.intents && i !in s.db.intents ==>
                  act.Prepare? && i == act.intentId && t.db.intents[i].status == Prepared)
            && t.owner == s.owner
  {
    hide PrepareIntent;
    if act.Prepare? {
      PrepareTables(s.db, act.intentId, act.draft, act.leaseTime, act.late);
    }
  }

  lemma PrepareTables(db: Db, intentId: IntentId, draft: Intent, leaseTime: nat, late: bool)
    ensures var after := PrepareIntent(db, intentId, draft, leaseTime, late).0;
            && after.receipts == db.receipts
            && Grows(db, after)
            && (forall i :: i in db.intents ==> after.intents[i] == db.intents[i])
            && (forall i :: i in after.intents && i !in db.intents ==> i == intentId && after.intents[i].status == Prepared)
  {
  }

  lemma QuietRuns(s: State, act: Action)
    requires Enabled(s, act) && !act.Work? && !OutsideAction(act)
    requires RunsOk(Next(s, act).db, s.runs)
    ensures RunsOk(Next(s, act).db, Next(s, act).runs)
  {
    hide EnqueueJob, ClaimJob, HeartbeatJob, CompleteJob, PrepareIntent, Ended;
    match act
    case Complete(run) => EndedOk(Next(s, act).db, s, run);
    case _ =>
  }

  lemma ReceiptStep(s: State, act: Action)
    requires LeaseInv(s) && ReceiptInv(s) && Enabled(s, act)
    ensures ReceiptInv(Next(s, act))
  {
    hide Next, Enabled;
    if act.Work? {
      ReceiptWork(s, act);
    } else if OutsideAction(act) {
      ReceiptOutside(s, act);
    } else {
      ReceiptQuiet(s, act);
    }
  }

  // ------------------------------------------------------------------------- theorems

  lemma {:induction false} ReceiptsHold(actions: seq<Action>)
    requires Execution(actions)
    ensures ReceiptInv(StateAfter(actions))
  {
    if actions != [] {
      ReceiptsHold(actions[..|actions| - 1]);
      LeasesHold(actions[..|actions| - 1]);
      ReceiptStep(StateAfter(actions[..|actions| - 1]), actions[|actions| - 1]);
    }
  }

  /**
    Receipt before status: whatever the interleaving of workers, manual receipts, API calls and
    invalidations, a committed status is backed by a receipt and matches the effect's reversibility.
   */
  lemma ReceiptBeforeStatus(actions: seq<Action>, intentId: IntentId)
    requires Execution(actions) && intentId in StateAfter(actions).db.intents
    ensures var db := StateAfter(actions).db;
            var intent := db.intents[intentId];
            && (intent.status == Committed ==> HasReceipt(db, intentId) && intent.reversibility != R3)
            && (intent.status == IrreversibleCommitted ==> HasReceipt(db, intentId) && intent.reversibility == R3)
            && (intent.status == Compensated ==> HasCompensationReceipt(db, intentId))
  {
    ReceiptsHold(actions);
    assert Justified(StateAfter(actions).db, intentId);
  }

  lemma ReceiptLogGrows(s: State, act: Action)
    requires LeaseInv(s) && Enabled(s, act)
    ensures s.db.receipts <= Next(s, act).db.receipts
  {
    hide Step, Outside;
    if act.Work? {
      var kind := StepKind(s.db, s.runs[act.run], act.run, act.oracle);
    } else if OutsideAction(act) {
      hide Next;
      var change := OutsideStep(s, act);
      OutsideReceipts(s.db, Next(s, act).db, change);
    } else {
      hide Next;
      QuietTables(s, act);
    }
  }

  lemma OutsideReceipts(before: Db, after: Db, change: Change)
    requires Outside(before, after, change)
    ensures before.receipts <= after.receipts
  {
  }

  predicate IsPrefixOf(earlier: seq<Action>, later: seq<Action>) {
    |earlier| <= |later| && later[..|earlier|] == earlier
  }

  /** No receipt is ever changed, moved or removed. */
  lemma {:induction false} ReceiptsAppendOnly(earlier: seq<Action>, later: seq<Action>)
    requires Execution(earlier) && Execution(later) && IsPrefixOf(earlier, later)
    ensures StateAfter(earlier).db.receipts <= StateAfter(later).db.receipts
    decreases |later|
  {
    if |earlier| < |later| {
      var before := later[..|later| - 1];
      assert IsPrefixOf(earlier, before) by { assert before[..|earlier|] == later[..|earlier|]; }
      ReceiptsAppendOnly(earlier, before);
      LeasesHold(before);
      ReceiptLogGrows(StateAfter(before), later[|later| - 1]);
    } else {
      assert earlier == later;
    }
  }
}
