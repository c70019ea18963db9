/**
  What one handler step can do, whatever its program counter: the facts every invariant of the
  protocol is built from.
 */
module RunSteps {
  import opened EffectTable
  import opened Tables
  import opened EffectRuntime

  /** Everything but the program counter, the guard and the local copy is fixed for life. */
  ghost predicate SameRun(before: Run, after: Run) {
    && before.jobId == after.jobId
    && before.worker == after.worker
    && before.token == after.token
    && before.handler == after.handler
    && before.intentId == after.intentId
  }

  // -------------------------------------------------- the step's effect on the database

  /** The four things a step may do to the database and the log. */
  datatype Kind = Quiet | Writes(to: Status) | Begins(to: Status) | Records(receipt: Receipt)

  /** The effect of a step of each kind; the writing kinds need the fence. */
  ghost predicate HasKind(db: Db, run: Run, index: nat, result: StepResult, kind: Kind) {
    && (kind != Quiet ==> FenceHeld(db, FenceOf(run)))
    && (kind.Writes? || kind.Begins? ==>
          && run.intentId in db.intents
          && db.intents[run.intentId].status == run.local.status
          && CanTransition(run.local.status, kind.to))
    && match kind
       case Quiet =>
         && result.db == db
         && (result.events == [] || result.events == [Denied(run.intentId, index)])
       case Writes(to) =>
         && run.pc.Transition? && run.pc.to == to
         && result.db == SetStatus(db, run.intentId, to)
         && result.events == [Wrote(run.intentId, run.local.status, to, Some(index))]
       case Begins(to) =>
         && run.pc == Begin(to)
         && var resource := db.intents[run.intentId].resource;
         && var token := if resource in db.fences then db.fences[resource].token + 1 else 1;
         && resource in result.db.fences && result.db.fences[resource].token == token
         && result.db == db.(
              fences := db.fences[resource := result.db.fences[resource]],
              intents := db.intents[run.intentId :=
                db.intents[run.intentId].(status := to, token := Some(token))])
         && result.events == [Wrote(run.intentId, run.local.status, to, Some(index)), Acquired(resource, token)]
       case Records(receipt) =>
         && run.pc.Persist?
         && receipt == ReceiptOf(run)
         && result.db == db.(receipts := db.receipts + [receipt])
         && result.events == [Recorded(receipt)]
  }

  function ReceiptOf(run: Run): Receipt
    requires run.pc.Persist?
  {
    Receipt(run.pc.draft.receiptId, run.intentId, run.pc.mark, run.pc.mark == MarkCompensated, run.pc.draft.body)
  }

  lemma TransitionKind(db: Db, run: Run, index: nat, fault: Fault) returns (kind: Kind)
    requires run.pc.Transition?
    ensures HasKind(db, run, index, StepTransition(db, run, index, run.pc.to, run.pc.after, fault), kind)
  {
    hide Throw, Continue;
    var result := StepTransition(db, run, index, run.pc.to, run.pc.after, fault);
    kind := if result.events == [] then Quiet else Writes(run.pc.to);
  }

  lemma BeginKind(db: Db, run: Run, index: nat, oracle: Oracle) returns (kind: Kind)
    requires run.pc.Begin?
    ensures HasKind(db, run, index, StepBegin(db, run, index, run.pc.next, oracle), kind)
  {
    hide Throw;
    var result := StepBegin(db, run, index, run.pc.next, oracle);
    kind := if result.events == [] then Quiet else Begins(run.pc.next);
  }

  lemma PersistKind(db: Db, run: Run, index: nat, fault: Fault) returns (kind: Kind)
    requires run.pc.Persist?
    ensures HasKind(db, run, index, StepPersist(db, run, run.pc.draft, run.pc.mark, fault), kind)
  {
    hide Throw, FinalizeExecution, FinalizeCompensation;
    var result := StepPersist(db, run, run.pc.draft, run.pc.mark, fault);
    kind := if result.events == [] then Quiet else Records(ReceiptOf(run));
  }

  lemma StepKind(db: Db, run: Run, index: nat, oracle: Oracle) returns (kind: Kind)
    ensures HasKind(db, run, index, Step(db, run, index, oracle), kind)
  {
    hide Throw, StepTransition, StepBegin, StepPersist, DispatchReconcile, DispatchCompensation, ResolveConnector,
         HandleExecuted, HandleQueried, HandleCompensated, HandleQueriedCompensation, ExternalFenceHeld;
    if Finished(run.pc) || oracle.fault == FaultBefore {
      kind := Quiet;
    } else {
      match run.pc
      case Begin(_) => kind := BeginKind(db, run, index, oracle);
      case Persist(_, _) => kind := PersistKind(db, run, index, oracle.fault);
      case Transition(_, _) => kind := TransitionKind(db, run, index, oracle.fault);
      case _ => kind := Quiet;
    }
  }
}
