/**
  A handler execution that nobody interferes with, run step by step to its end, and what its single steps
  come to while it holds its fence. `HandlerOutcomes` puts them together.
 */
module UninterruptedRuns {
  import opened EffectTable
  import opened Tables
  import opened EffectRuntime

  // ------------------------------------------------------------------ uninterrupted runs

  function Stepped(c: StepResult, index: nat, oracle: Oracle): StepResult {
    var next := Step(c.db, c.run, index, oracle);
    StepResult(next.db, next.run, c.events + next.events)
  }

  /** The handler stepped `n` times with nobody in between; the connector answers as the oracle says. */
  function Go(c: StepResult, index: nat, oracle: Oracle, n: nat): StepResult {
    if n == 0 then c else Stepped(Go(c, index, oracle, n - 1), index, oracle)
  }

  ghost predicate Gets(c: StepResult, index: nat, oracle: Oracle, d: StepResult) {
    exists n: nat :: Go(c, index, oracle, n) == d
  }

  lemma GetsItself(c: StepResult, index: nat, oracle: Oracle)
    ensures Gets(c, index, oracle, c)
  {
    assert Go(c, index, oracle, 0) == c;
  }

  lemma GetsNext(c: StepResult, index: nat, oracle: Oracle, d: StepResult)
    requires Gets(c, index, oracle, d)
    ensures Gets(c, index, oracle, Stepped(d, index, oracle))
  {
    hide Stepped;
    var n: nat :| Go(c, index, oracle, n) == d;
    assert Go(c, index, oracle, n + 1) == Stepped(d, index, oracle);
  }

  predicate Begun(events: seq<Event>) {
    exists k :: 0 <= k < |events| && events[k].Acquired?
  }

  /** How a handler execution ends. */
  datatype Ending = Returns | Throws(retryable: bool)

  function EndingPc(ending: Ending): Pc {
    match ending
    case Returns => Return
    case Throws(retryable) => Raise(retryable)
  }

  /** Only the intent's own status and the receipts differ, and, once it was begun, its token and a fence. */
  predicate Changed(before: Db, after: Db, i: IntentId, status: Status, added: seq<Receipt>, begun: bool)
    requires i in before.intents
  {
    && i in after.intents
    && after.intents == before.intents[i := before.intents[i].(status := status, token := after.intents[i].token)]
    && (!begun ==> after.intents[i].token == before.intents[i].token && after.fences == before.fences)
    && after.receipts == before.receipts + added
    && after.jobs == before.jobs && after.jobIndex == before.jobIndex && after.intentIndex == before.intentIndex
    && after.now == before.now
  }

  predicate Final(before: Db, run: Run, c: StepResult, status: Status, added: seq<Receipt>, begun: bool, ending: Ending)
    requires run.intentId in before.intents
  {
    && Changed(before, c.db, run.intentId, status, added, begun)
    && c.run.pc == EndingPc(ending)
    && (begun <==> Begun(c.events))
  }

  /** The whole claim in one: left alone, the run ends with this status, these receipts, and so on. */
  ghost predicate Ends(
    db: Db, run: Run, index: nat, oracle: Oracle, status: Status, added: seq<Receipt>, begun: bool, ending: Ending)
    requires run.intentId in db.intents
  {
    exists c :: Gets(StepResult(db, run, []), index, oracle, c) && Final(db, run, c, status, added, begun, ending)
  }

  /** A run at the start of its handler that holds its fence, with a connector that never fails to answer. */
  predicate Fresh(db: Db, run: Run, oracle: Oracle) {
    && run.pc == Load && !run.guarded
    && FenceHeld(db, FenceOf(run))
    && run.intentId in db.intents
    && oracle.fault == NoFault && oracle.leaseTime > 0
  }

  // ------------------------------------------------------------------------- single steps

  /** In the middle of an uninterrupted run: the fence is held and the copy is the row. */
  predicate Here(before: Db, run: Run, c: StepResult, status: Status, added: seq<Receipt>, begun: bool, guarded: bool,
                 pc: Pc)
    requires run.intentId in before.intents
  {
    && Changed(before, c.db, run.intentId, status, added, begun)
    && c.run == run.(local := c.db.intents[run.intentId], guarded := guarded, pc := pc)
    && FenceHeld(c.db, FenceOf(c.run))
    && (begun <==> Begun(c.events))
  }

  lemma SameFence(before: Db, after: Db, run: Run, other: Run)
    requires after.jobs == before.jobs && after.now == before.now && FenceOf(run) == FenceOf(other)
    ensures FenceHeld(after, FenceOf(other)) == FenceHeld(before, FenceOf(run))
  {
  }

  lemma BegunMore(a: seq<Event>, b: seq<Event>)
    ensures Begun(a + b) <==> Begun(a) || Begun(b)
  {
    if Begun(a) {
      var k :| 0 <= k < |a| && a[k].Acquired?;
      assert (a + b)[k] == a[k];
    }
    if Begun(b) {
      var k :| 0 <= k < |b| && b[k].Acquired?;
      assert (a + b)[|a| + k] == b[k];
    }
  }

  /** The uninterrupted run gets to such a place. */
  ghost predicate At(
    db: Db, run: Run, index: nat, oracle: Oracle, c: StepResult, status: Status, added: seq<Receipt>, begun: bool,
    guarded: bool, pc: Pc)
    requires run.intentId in db.intents
  {
    Gets(StepResult(db, run, []), index, oracle, c) && Here(db, run, c, status, added, begun, guarded, pc)
  }

  /** A step that only moves the program counter. */
  lemma Turn(db: Db, run: Run, index: nat, oracle: Oracle, c: StepResult, status: Status, added: seq<Receipt>,
             begun: bool, guarded: bool, pc: Pc, next: Pc, later: bool)
    returns (d: StepResult)
    requires run.intentId in db.intents && At(db, run, index, oracle, c, status, added, begun, guarded, pc)
    requires var step := Step(c.db, c.run, index, oracle);
             && step.db == c.db && step.run == c.run.(pc := next, guarded := later)
             && (step.events == [] || exists i, r :: step.events == [Denied(i, r)])
    ensures At(db, run, index, oracle, d, status, added, begun, later, next)
    ensures d.db == c.db && d.run.local == c.run.local
  {
    hide Step, FenceHeld, Gets;
    d := Stepped(c, index, oracle);
    GetsNext(StepResult(db, run, []), index, oracle, c);
    SameFence(c.db, d.db, c.run, d.run);
    BegunMore(c.events, Step(c.db, c.run, index, oracle).events);
  }

  lemma Loaded(db: Db, run: Run, index: nat, oracle: Oracle) returns (d: StepResult)
    requires Fresh(db, run, oracle)
    ensures At(db, run, index, oracle, d, db.intents[run.intentId].status, [], false, false, Resolve)
  {
    hide FenceHeld, Gets;
    var c := StepResult(db, run, []);
    GetsItself(c, index, oracle);
    GetsNext(c, index, oracle, c);
    d := Stepped(c, index, oracle);
    SameFence(db, d.db, run, d.run);
    assert d.events == [];
    assert db.intents == db.intents[run.intentId := db.intents[run.intentId]];
  }

  /** What registration insists on, by what goes wrong without it. */
  predicate Unsafe(intent: Intent) {
    || (intent.connector.mode == AutomaticWrite && !intent.connector.idempotencyKey)
    || (intent.connector.mode == AutomaticWrite && !intent.connector.queryByKey)
    || (intent.connector.mode == AutomaticWrite && intent.token.None?)
    || (intent.connector.mode == AutomaticWrite && intent.connector.compensation && !intent.connector.compensate)
    || (intent.reversibility == R0 && !intent.connector.compensation)
  }

  /** The connector is resolved and safe, and for a compensation able to compensate. */
  predicate Usable(intent: Intent, handler: JobType, oracle: Oracle) {
    && oracle.resolves && !Unsafe(intent)
    && (handler == RunCompensation ==>
          intent.connector.compensation && intent.connector.compensate && intent.compensationHandler)
  }

  lemma Resolved(db: Db, run: Run, index: nat, oracle: Oracle) returns (d: StepResult)
    requires Fresh(db, run, oracle) && Usable(db.intents[run.intentId], run.handler, oracle)
    ensures At(db, run, index, oracle, d, db.intents[run.intentId].status, [], false, false, Scan)
    ensures d.run.local == db.intents[run.intentId] && d.db.receipts == db.receipts
  {
    hide FenceHeld, Gets;
    var c := Loaded(db, run, index, oracle);
    d := Turn(db, run, index, oracle, c, db.intents[run.intentId].status, [], false, false, Resolve, Scan, false);
  }

  /** A status written through the table. */
  lemma Moved(db: Db, run: Run, index: nat, oracle: Oracle, c: StepResult, status: Status, added: seq<Receipt>,
              begun: bool, guarded: bool, to: Status, after: After, later: bool, next: Pc)
    returns (d: StepResult)
    requires run.intentId in db.intents && oracle.fault == NoFault && CanTransition(status, to)
    requires At(db, run, index, oracle, c, status, added, begun, guarded, Pc.Transition(to, after))
    requires var updated := c.run.(local := c.run.local.(status := to));
             Continue(updated, after) == updated.(pc := next, guarded := later)
    ensures At(db, run, index, oracle, d, to, added, begun, later, next)
    ensures d.db.intents[run.intentId].token == c.db.intents[run.intentId].token
  {
    hide FenceHeld, Gets, Continue;
    d := Stepped(c, index, oracle);
    GetsNext(StepResult(db, run, []), index, oracle, c);
    SameFence(c.db, d.db, c.run, d.run);
    BegunMore(c.events, [Wrote(run.intentId, status, to, Some(index))]);
    var row := c.db.intents[run.intentId].(status := to);
    assert d.db == SetStatus(c.db, run.intentId, to) && d.db.intents[run.intentId] == row;
    assert d.db.intents == db.intents[run.intentId := row];
    assert d.run == Continue(c.run.(local := row), after);
    assert d.events == c.events + [Wrote(run.intentId, status, to, Some(index))];
    assert !Begun([Wrote(run.intentId, status, to, Some(index))]);
    assert FenceHeld(d.db, FenceOf(d.run));
  }

  /** A move to reconciliation, which is none where the intent is there already. */
  lemma Reconciled(db: Db, run: Run, index: nat, oracle: Oracle, c: StepResult, status: Status, after: After, next: Pc)
    returns (d: StepResult)
    requires run.intentId in db.intents && oracle.fault == NoFault
    requires status == ReconciliationRequired || CanTransition(status, ReconciliationRequired)
    requires At(db, run, index, oracle, c, status, [], false, false, Pc.Transition(ReconciliationRequired, after))
    requires var updated := c.run.(local := c.run.local.(status := ReconciliationRequired));
             Continue(updated, after) == updated.(pc := next)
    ensures At(db, run, index, oracle, d, ReconciliationRequired, [], false, false, next)
  {
    hide FenceHeld, Gets, Continue, CanTransition;
    if status == ReconciliationRequired {
      assert c.run.(local := c.run.local.(status := status)) == c.run;
      d := Turn(db, run, index, oracle, c, status, [], false, false, Pc.Transition(ReconciliationRequired, after), next,
                false);
    } else {
      d := Moved(db, run, index, oracle, c, status, [], false, false, ReconciliationRequired, after, false, next);
    }
  }

  /** An external operation begun: status, resource fence and token in one transaction. */
  lemma BegunAt(db: Db, run: Run, index: nat, oracle: Oracle, c: StepResult, status: Status, added: seq<Receipt>,
                begun: bool, to: Status)
    returns (d: StepResult)
    requires run.intentId in db.intents && oracle.fault == NoFault && oracle.leaseTime > 0
    requires CanTransition(status, to)
    requires At(db, run, index, oracle, c, status, added, begun, false, Begin(to))
    ensures At(db, run, index, oracle, d, to, added, true, true,
               if to == Executing then Execute else CheckBeforeCompensate)
    ensures ExternalFenceHeld(d.db, d.run)
  {
    hide FenceHeld, Gets, CanTransition;
    d := Stepped(c, index, oracle);
    GetsNext(StepResult(db, run, []), index, oracle, c);
    SameFence(c.db, d.db, c.run, d.run);
    var fenced := AcquireFence(c.db, c.run.local.resource, oracle.leaseTime);
    var token := Some(fenced.fences[c.run.local.resource].token);
    var row := c.db.intents[run.intentId].(status := to, token := token);
    assert d.db.intents[run.intentId] == row;
    assert d.db.intents == db.intents[run.intentId := row];
    var events := [Wrote(run.intentId, status, to, Some(index)), Acquired(row.resource, token.value)];
    assert d.events == c.events + events;
    assert events[1].Acquired?;
    BegunMore(c.events, events);
  }

  /** A receipt appended under an identifier that is not taken. */
  lemma Persisted(db: Db, run: Run, index: nat, oracle: Oracle, c: StepResult, status: Status, begun: bool,
                  guarded: bool, draft: Draft, mark: ReceiptMark, next: Pc, later: bool)
    returns (d: StepResult)
    requires run.intentId in db.intents && oracle.fault == NoFault
    requires forall k :: 0 <= k < |db.receipts| ==> db.receipts[k].id != draft.receiptId
    requires At(db, run, index, oracle, c, status, [], begun, guarded, Persist(draft, mark))
    requires (if mark == MarkExecuted then FinalizeExecution(c.run) else FinalizeCompensation(c.run))
          == c.run.(pc := next, guarded := later)
    ensures At(db, run, index, oracle, d, status,
               [Receipt(draft.receiptId, run.intentId, mark, mark == MarkCompensated, draft.body)], begun, later, next)
    ensures d.run.local == c.run.local
  {
    hide FenceHeld, Gets, FinalizeExecution, FinalizeCompensation;
    var receipt := Receipt(draft.receiptId, run.intentId, mark, mark == MarkCompensated, draft.body);
    assert c.db.receipts == db.receipts;
    d := Stepped(c, index, oracle);
    GetsNext(StepResult(db, run, []), index, oracle, c);
    SameFence(c.db, d.db, c.run, d.run);
    BegunMore(c.events, [Recorded(receipt)]);
    assert d.events == c.events + [Recorded(receipt)];
    assert !Begun([Recorded(receipt)]);
  }

  lemma Done(db: Db, run: Run, index: nat, oracle: Oracle, c: StepResult, status: Status, added: seq<Receipt>,
             begun: bool, guarded: bool, ending: Ending)
    requires run.intentId in db.intents
    requires At(db, run, index, oracle, c, status, added, begun, guarded, EndingPc(ending))
    ensures Ends(db, run, index, oracle, status, added, begun, ending)
  {
    hide Gets, FenceHeld;
  }
}
