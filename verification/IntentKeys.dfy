/**
  Idempotent preparation (apps/api/src/routes/effects.ts:204-355): the unique index over connector type and
  idempotency key, and what it means over whole executions.
 */
module IntentKeys {
  import opened EffectTable
  import opened Tables
  import opened EffectRuntime
  import opened RunSteps
  import opened RunInvariant
  import opened Protocol
  import opened Leases
  import opened OutsideWriters
  import opened ReceiptSafety

  /** The index finds exactly the stored intents, each under its own key. */
  ghost predicate Indexed(db: Db) {
    && (forall k :: k in db.intentIndex ==> db.intentIndex[k] in db.intents && KeyOf(db.intents[db.intentIndex[k]]) == k)
    && (forall i :: i in db.intents ==>
          KeyOf(db.intents[i]) in db.intentIndex && db.intentIndex[KeyOf(db.intents[i])] == i)
  }

  /** Intents stay, and what they were prepared for never changes. */
  ghost predicate Keeps(before: Db, after: Db) {
    forall i :: i in before.intents ==> i in after.intents && after.intents[i].operation == before.intents[i].operation
  }

  ghost predicate SameIntents(before: Db, after: Db) {
    after.intentIndex == before.intentIndex && after.intents.Keys == before.intents.Keys && Keeps(before, after)
  }

  lemma SameIntentsIndexed(before: Db, after: Db)
    requires SameIntents(before, after) && Indexed(before)
    ensures Indexed(after)
  {
  }

  // --------------------------------------------------------------------------- one action

  lemma WorkKeeps(s: State, act: Action)
    requires Enabled(s, act) && act.Work?
    ensures SameIntents(s.db, Next(s, act).db)
  {
    hide Step, FenceHeld, CanTransition;
    var kind := StepKind(s.db, s.runs[act.run], act.run, act.oracle);
  }

  lemma OutsideKeeps(s: State, act: Action)
    requires LeaseInv(s) && Enabled(s, act) && OutsideAction(act)
    ensures SameIntents(s.db, Next(s, act).db)
  {
    hide Next, LegalPath, Arrives;
    if act.Fail? {
      FailedRunFits(s, act);
    }
    var change := OutsideStep(s, act);
  }

  lemma QuietKeeps(s: State, act: Action)
    requires Enabled(s, act) && !act.Work? && !OutsideAction(act) && !act.Prepare?
    ensures SameIntents(s.db, Next(s, act).db)
  {
    hide FenceHeld, Claimable;
  }

  /** The answer of the prepare route in a state. */
  function Answer(s: State, act: Action): PrepareResult
    requires act.Prepare?
  {
    PrepareIntent(s.db, act.intentId, act.draft, act.leaseTime, act.late).1
  }

  lemma PrepareIndexed(db: Db, intentId: IntentId, draft: Intent, leaseTime: nat, late: bool)
    requires Indexed(db)
    ensures var after := PrepareIntent(db, intentId, draft, leaseTime, late).0; Indexed(after) && Keeps(db, after)
  {
  }

  /** An answer names the intent stored under the key, which was prepared for the same operation. */
  lemma AnswerFits(db: Db, intentId: IntentId, draft: Intent, leaseTime: nat, late: bool)
    requires Indexed(db)
    ensures var (after, result) := PrepareIntent(db, intentId, draft, leaseTime, late);
            result.PrepareConflict? ||
            (&& result.id in after.intents && KeyOf(after.intents[result.id]) == KeyOf(draft)
             && (after.intents[result.id].operation.digest == draft.operation.digest
                 || after.intents[result.id].operation.columns == draft.operation.columns))
  {
  }

  lemma PrepareAnswers(s: State, act: Action)
    requires act.Prepare? && Indexed(s.db)
    ensures var db := Next(s, act).db;
            && Indexed(db) && Keeps(s.db, db)
            && (!Answer(s, act).PrepareConflict? ==>
                  var id := Answer(s, act).id;
                  id in db.intents && KeyOf(db.intents[id]) == KeyOf(act.draft))
  {
    hide PrepareIntent, Indexed, Keeps;
    PrepareIndexed(s.db, act.intentId, act.draft, act.leaseTime, act.late);
    AnswerFits(s.db, act.intentId, act.draft, act.leaseTime, act.late);
  }

  lemma KeysStep(s: State, act: Action)
    requires LeaseInv(s) && Enabled(s, act) && Indexed(s.db)
    ensures Indexed(Next(s, act).db) && Keeps(s.db, Next(s, act).db)
  {
    hide Next, Indexed, Keeps;
    if act.Prepare? {
      PrepareAnswers(s, act);
      return;
    }
    if act.Work? {
      WorkKeeps(s, act);
    } else if OutsideAction(act) {
      OutsideKeeps(s, act);
    } else {
      QuietKeeps(s, act);
    }
    SameIntentsIndexed(s.db, Next(s, act).db);
  }

  // ---------------------------------------------------------------------------- executions

  lemma {:induction false} KeysHold(actions: seq<Action>)
    requires Execution(actions)
    ensures Indexed(StateAfter(actions).db)
  {
    hide Next, Enabled, Indexed;
    if actions == [] {
      NothingIndexed();
    } else {
      LeasesHold(actions[..|actions| - 1]);
      KeysHold(actions[..|actions| - 1]);
      KeysStep(StateAfter(actions[..|actions| - 1]), actions[|actions| - 1]);
    }
  }

  lemma NothingIndexed()
    ensures Indexed(INITIAL.db)
  {
  }

  /** In every reachable state there is at most one intent for a connector type and idempotency key. */
  lemma OnePerKey(actions: seq<Action>, i: IntentId, j: IntentId)
    requires Execution(actions)
    requires i in StateAfter(actions).db.intents && j in StateAfter(actions).db.intents
    requires KeyOf(StateAfter(actions).db.intents[i]) == KeyOf(StateAfter(actions).db.intents[j])
    ensures i == j
  {
    hide Next, Enabled;
    KeysHold(actions);
  }

  lemma {:induction false} KeptForEver(earlier: seq<Action>, later: seq<Action>)
    requires Execution(earlier) && Execution(later) && IsPrefixOf(earlier, later)
    ensures Keeps(StateAfter(earlier).db, StateAfter(later).db)
    decreases |later|
  {
    hide Next, Enabled;
    if |earlier| < |later| {
      var before := later[..|later| - 1];
      assert IsPrefixOf(earlier, before) by { assert before[..|earlier|] == later[..|earlier|]; }
      KeptForEver(earlier, before);
      LeasesHold(before);
      KeysHold(before);
      KeysStep(StateAfter(before), later[|later| - 1]);
    } else {
      assert earlier == later;
    }
  }

  /**
    Over any execution, with lookups that race with other preparations: once the prepare route has answered with
    an intent, every later answer for the same connector type and idempotency key replays that very intent or is
    a conflict.
   */
  lemma PreparedOnce(earlier: seq<Action>, first: Action, later: seq<Action>, second: Action)
    requires Execution(earlier) && Execution(later) && IsPrefixOf(earlier + [first], later)
    requires first.Prepare? && second.Prepare? && KeyOf(first.draft) == KeyOf(second.draft)
    requires !Answer(StateAfter(earlier), first).PrepareConflict?
    ensures var again := Answer(StateAfter(later), second);
            again.PrepareConflict? || again == Replayed(Answer(StateAfter(earlier), first).id)
  {
    hide Next, Enabled, Answer, Indexed;
    OneMore(earlier, first);
    KeysHold(earlier);
    PrepareAnswers(StateAfter(earlier), first);
    KeptForEver(earlier + [first], later);
    KeysHold(later);
    PrepareAnswers(StateAfter(later), second);
    SameIntent(StateAfter(later), second, Answer(StateAfter(earlier), first).id);
  }

  lemma OneMore(actions: seq<Action>, act: Action)
    requires Execution(actions) && act.Prepare?
    ensures Execution(actions + [act]) && StateAfter(actions + [act]) == Next(StateAfter(actions), act)
  {
    hide Next;
    assert (actions + [act])[..|actions|] == actions;
  }

  lemma SameIntent(s: State, act: Action, id: IntentId)
    requires act.Prepare? && Indexed(s.db) && id in s.db.intents && KeyOf(s.db.intents[id]) == KeyOf(act.draft)
    ensures Answer(s, act).PrepareConflict? || Answer(s, act) == Replayed(id)
  {
  }
}
