/**
  The history of every intent's status is a path in the transition table, and COMPENSATED is
  where a path ends for good.
 */
module StatusHistory {
  import opened EffectTable
  import opened Tables
  import opened EffectRuntime
  import opened RunSteps
  import opened Protocol
  import opened Leases
  import opened OutsideWriters
  import opened ReceiptSafety

  predicate WroteTo(event: Event, intentId: IntentId) {
    event.Wrote? && event.intentId == intentId
  }

  /** The status a reader of the log alone would give an intent. */
  function Replayed(log: seq<Event>, intentId: IntentId): Status {
    if log == [] then Prepared
    else if WroteTo(log[|log| - 1], intentId) then log[|log| - 1].to
    else Replayed(log[..|log| - 1], intentId)
  }

  /** Every write starts where the previous one ended and follows the table. */
  predicate Chained(log: seq<Event>, intentId: IntentId) {
    if log == [] then true
    else
      && Chained(log[..|log| - 1], intentId)
      && (WroteTo(log[|log| - 1], intentId) ==>
            && log[|log| - 1].from == Replayed(log[..|log| - 1], intentId)
            && CanTransition(log[|log| - 1].from, log[|log| - 1].to))
  }

  predicate Untouched(log: seq<Event>, intentId: IntentId) {
    forall k :: 0 <= k < |log| ==> !WroteTo(log[k], intentId)
  }

  ghost predicate HistoryOf(log: seq<Event>, db: Db, intentId: IntentId) {
    if intentId in db.intents
    then Chained(log, intentId) && Replayed(log, intentId) == db.intents[intentId].status
    else Untouched(log, intentId)
  }

  ghost predicate HistoryInv(s: State) {
    forall i :: HistoryOf(s.log, s.db, i)
  }

  lemma ChainedOne(log: seq<Event>, event: Event, intentId: IntentId)
    requires Chained(log, intentId)
    requires WroteTo(event, intentId) ==> event.from == Replayed(log, intentId) && CanTransition(event.from, event.to)
    ensures Chained(log + [event], intentId)
    ensures Replayed(log + [event], intentId) == if WroteTo(event, intentId) then event.to else Replayed(log, intentId)
  {
    assert (log + [event])[..|log|] == log;
  }

  lemma {:induction false} UntouchedChained(log: seq<Event>, intentId: IntentId)
    requires Untouched(log, intentId)
    ensures Chained(log, intentId) && Replayed(log, intentId) == Prepared
  {
    if log != [] {
      UntouchedChained(log[..|log| - 1], intentId);
    }
  }

  /** A legal path of outside writes extends the history of its intent, and of no other. */
  lemma {:induction false} ChainedWrites(
    log: seq<Event>, intentId: IntentId, from: Status, path: seq<Status>, i: IntentId)
    requires Chained(log, i)
    requires i == intentId ==> from == Replayed(log, i) && LegalPath(from, path)
    ensures Chained(log + PathEvents(intentId, from, path), i)
    ensures Replayed(log + PathEvents(intentId, from, path), i)
         == if i == intentId then Last(from, path) else Replayed(log, i)
    decreases |path|
  {
    hide Chained, CanTransition, Replayed;
    if path == [] {
      assert log + PathEvents(intentId, from, path) == log;
    } else {
      var event := Wrote(intentId, from, path[0], None);
      ChainedOne(log, event, i);
      ChainedWrites(log + [event], intentId, path[0], path[1..], i);
      hide LegalPath;
      PathEventsStep(log, intentId, from, path);
    }
  }

  lemma PathEventsStep(log: seq<Event>, intentId: IntentId, from: Status, path: seq<Status>)
    requires path != []
    ensures log + PathEvents(intentId, from, path)
         == log + [Wrote(intentId, from, path[0], None)] + PathEvents(intentId, path[0], path[1..])
  {
  }

  lemma UntouchedWrites(log: seq<Event>, intentId: IntentId, from: Status, path: seq<Status>, i: IntentId)
    requires Untouched(log, i) && i != intentId
    ensures Untouched(log + PathEvents(intentId, from, path), i)
    decreases |path|
  {
    if path != [] {
      UntouchedWrites(log + [Wrote(intentId, from, path[0], None)], intentId, path[0], path[1..], i);
      assert log + PathEvents(intentId, from, path)
          == log + [Wrote(intentId, from, path[0], None)] + PathEvents(intentId, path[0], path[1..]);
    } else {
      assert log + [] == log;
    }
  }

  // ------------------------------------------------------------------- steps

  lemma HistoryWork(log: seq<Event>, db: Db, run: Run, index: nat, result: StepResult, kind: Kind, i: IntentId)
    requires HistoryOf(log, db, i) && HasKind(db, run, index, result, kind)
    ensures HistoryOf(log + result.events, result.db, i)
  {
    hide CanTransition, FenceHeld;
    if result.events == [] {
      assert log + [] == log;
    } else {
      var first := result.events[0];
      if i in db.intents {
        ChainedOne(log, first, i);
        if |result.events| == 2 {
          ChainedOne(log + [first], result.events[1], i);
          assert log + result.events == log + [first] + [result.events[1]];
        } else {
          assert result.events == [first];
        }
      }
    }
  }

  lemma HistoryOutside(log: seq<Event>, before: Db, after: Db, change: Change, i: IntentId)
    requires HistoryOf(log, before, i) && HistoryOf(log, before, change.intentId)
    requires Outside(before, after, change)
    ensures HistoryOf(log + ChangeEvents(before, change), after, i)
  {
    hide LegalPath, HasReceipt, Chained, Untouched;
    var recorded := if change.receipt.Some? then [Recorded(change.receipt.value)] else [];
    var log' := log + recorded;
    assert HistoryOf(log', before, i) && HistoryOf(log', before, change.intentId) by {
      if change.receipt.Some? {
        HistoryUnrelated(log, recorded[0], before, i);
        HistoryUnrelated(log, recorded[0], before, change.intentId);
      } else {
        assert log' == log;
      }
    }
    if change.path != [] && change.intentId in before.intents {
      var status := before.intents[change.intentId].status;
      assert log + ChangeEvents(before, change) == log' + PathEvents(change.intentId, status, change.path);
      if i in before.intents {
        ChainedWrites(log', change.intentId, status, change.path, i);
      } else {
        UntouchedWrites(log', change.intentId, status, change.path, i);
      }
    } else {
      assert log + ChangeEvents(before, change) == log';
    }
  }

  lemma HistoryUnrelated(log: seq<Event>, event: Event, db: Db, i: IntentId)
    requires HistoryOf(log, db, i) && !WroteTo(event, i)
    ensures HistoryOf(log + [event], db, i)
  {
    if i in db.intents {
      ChainedOne(log, event, i);
    }
  }

  lemma QuietLog(s: State, act: Action)
    requires Enabled(s, act) && !act.Work? && !OutsideAction(act)
    ensures var t := Next(s, act);
            || t.log == s.log
            || (|t.log| == |s.log| + 1 && t.log == s.log + [t.log[|s.log|]] && !t.log[|s.log|].Wrote?)
  {
    hide EnqueueJob, ClaimJob, HeartbeatJob, CompleteJob, PrepareIntent, Ended;
  }

  lemma HistoryQuiet(s: State, act: Action, i: IntentId)
    requires HistoryInv(s) && Enabled(s, act) && !act.Work? && !OutsideAction(act)
    ensures HistoryOf(Next(s, act).log, Next(s, act).db, i)
  {
    hide Next, Chained;
    var t := Next(s, act);
    QuietLog(s, act);
    QuietTables(s, act);
    assert HistoryOf(s.log, s.db, i);
    if t.log != s.log {
      HistoryUnrelated(s.log, t.log[|s.log|], s.db, i);
    }
    if i in t.db.intents && i !in s.db.intents {
      UntouchedChained(t.log, i);
    }
  }

  lemma HistoryStep(s: State, act: Action)
    requires LeaseInv(s) && HistoryInv(s) && Enabled(s, act)
    ensures HistoryInv(Next(s, act))
  {
    hide HistoryOf, Step, HasKind, Outside;
    var t := Next(s, act);
    forall i ensures HistoryOf(t.log, t.db, i) {
      if act.Work? {
        var run := s.runs[act.run];
        var kind := StepKind(s.db, run, act.run, act.oracle);
        HistoryWork(s.log, s.db, run, act.run, Step(s.db, run, act.run, act.oracle), kind, i);
      } else if OutsideAction(act) {
        var change := OutsideStep(s, act);
        HistoryOutside(s.log, s.db, t.db, change, i);
      } else {
        HistoryQuiet(s, act, i);
      }
    }
  }

  // ------------------------------------------------------------------------- theorems

  /** Every status write by anyone is an edge of the table, and the writes of an intent chain. */
  lemma {:induction false} HistoriesArePaths(actions: seq<Action>)
    requires Execution(actions)
    ensures HistoryInv(StateAfter(actions))
  {
    if actions != [] {
      HistoriesArePaths(actions[..|actions| - 1]);
      LeasesHold(actions[..|actions| - 1]);
      HistoryStep(StateAfter(actions[..|actions| - 1]), actions[|actions| - 1]);
    }
  }

  /** Read at one place of the log: the write at `k` is an edge, and it starts where the log stood. */
  lemma {:induction false} ChainedAt(log: seq<Event>, intentId: IntentId, k: nat)
    requires Chained(log, intentId) && k < |log| && WroteTo(log[k], intentId)
    ensures log[k].from == Replayed(log[..k], intentId) && CanTransition(log[k].from, log[k].to)
  {
    if k < |log| - 1 {
      ChainedAt(log[..|log| - 1], intentId, k);
      assert log[..|log| - 1][..k] == log[..k];
    }
  }

  lemma EveryWriteIsAnEdge(actions: seq<Action>, intentId: IntentId, k: nat)
    requires Execution(actions) && k < |StateAfter(actions).log|
    requires WroteTo(StateAfter(actions).log[k], intentId)
    ensures var log := StateAfter(actions).log;
            && log[k].from == Replayed(log[..k], intentId)
            && CanTransition(log[k].from, log[k].to) && log[k].from in Sources(log[k].to)
  {
    HistoriesArePaths(actions);
    var s := StateAfter(actions);
    assert HistoryOf(s.log, s.db, intentId);
    ChainedAt(s.log, intentId, k);
    EdgesInto(s.log[k].from, s.log[k].to);
  }

  lemma LogGrows(s: State, act: Action)
    requires LeaseInv(s) && Enabled(s, act)
    ensures s.log <= Next(s, act).log
    ensures forall i :: i in s.db.intents ==> i in Next(s, act).db.intents
  {
    hide Step, Outside;
    if act.Work? {
      var kind := StepKind(s.db, s.runs[act.run], act.run, act.oracle);
    } else if OutsideAction(act) {
      hide Next;
      var change := OutsideStep(s, act);
      OutsideIntents(s.db, Next(s, act).db, change);
    } else {
      hide Next;
      QuietTables(s, act);
      QuietLog(s, act);
    }
  }

  lemma OutsideIntents(before: Db, after: Db, change: Change)
    requires Outside(before, after, change)
    ensures after.intents.Keys == before.intents.Keys
  {
  }

  /** Once a path has reached COMPENSATED it has no next edge. */
  lemma {:induction false} ChainedStops(log: seq<Event>, more: seq<Event>, intentId: IntentId)
    requires Chained(log + more, intentId) && Replayed(log, intentId) == Compensated
    ensures Replayed(log + more, intentId) == Compensated
    decreases |more|
  {
    if more != [] {
      assert (log + more)[..|log + more| - 1] == log + more[..|more| - 1];
      ChainedStops(log, more[..|more| - 1], intentId);
    } else {
      assert log + more == log;
    }
  }

  lemma {:induction false} LogsExtend(earlier: seq<Action>, later: seq<Action>)
    requires Execution(earlier) && Execution(later) && IsPrefixOf(earlier, later)
    ensures StateAfter(earlier).log <= StateAfter(later).log
    ensures forall i :: i in StateAfter(earlier).db.intents ==> i in StateAfter(later).db.intents
    decreases |later|
  {
    if |earlier| < |later| {
      var before := later[..|later| - 1];
      assert IsPrefixOf(earlier, before) by { assert before[..|earlier|] == later[..|earlier|]; }
      LogsExtend(earlier, before);
      LeasesHold(before);
      LogGrows(StateAfter(before), later[|later| - 1]);
    } else {
      assert earlier == later;
    }
  }

  /** COMPENSATED is absorbing over every continuation of every execution. */
  lemma CompensatedIsForever(earlier: seq<Action>, later: seq<Action>, intentId: IntentId)
    requires Execution(earlier) && Execution(later) && IsPrefixOf(earlier, later)
    requires intentId in StateAfter(earlier).db.intents
    requires StateAfter(earlier).db.intents[intentId].status == Compensated
    ensures intentId in StateAfter(later).db.intents
    ensures StateAfter(later).db.intents[intentId].status == Compensated
  {
    hide Next;
    LogsExtend(earlier, later);
    HistoriesArePaths(earlier);
    HistoriesArePaths(later);
    var s, t := StateAfter(earlier), StateAfter(later);
    assert HistoryOf(s.log, s.db, intentId) && HistoryOf(t.log, t.db, intentId);
    assert t.log == s.log + t.log[|s.log|..];
    ChainedStops(s.log, t.log[|s.log|..], intentId);
  }
}
