/**
  No blind re-entry: while one durable job drives an automatic write, the external operation is
  begun again only after the system has learned that the previous attempt did not happen, and
  never once a receipt of execution is durable.
 */
module NoBlindReentry {
  import opened EffectTable
  import opened Tables
  import opened EffectRuntime
  import opened RunSteps
  import opened RunInvariant
  import opened Protocol
  import opened Leases
  import opened OutsideWriters
  import opened ReceiptSafety
  import opened StatusHistory

  // ------------------------------------------------------------- reading the log

  /** A worker's committed begin of the external execution. */
  predicate Entry(event: Event, i: IntentId) {
    event.Wrote? && event.intentId == i && event.to == Executing && event.writer.Some?
  }

  /** A definitive failure, or a definitive absence, observed by run `observer`. */
  predicate Denial(event: Event, i: IntentId) {
    event.Denied? && event.deniedIntent == i
  }

  predicate ExecutionRecorded(event: Event, i: IntentId) {
    event.Recorded? && event.receipt.intentId == i && ExecutionReceipt(event.receipt)
  }

  /**
    The run of the last entry whose outcome is still open. A denial settles it only when the
    observer is that run or a later one: what a zombie of an earlier attempt hears settles nothing.
   */
  function Unsettled(log: seq<Event>, i: IntentId): Option<nat> {
    if log == [] then None
    else
      var event, earlier := log[|log| - 1], Unsettled(log[..|log| - 1], i);
      if Entry(event, i) then event.writer
      else if Denial(event, i) && earlier.Some? && event.observer >= earlier.value then None
      else earlier
  }

  predicate AnyExecutionRecorded(log: seq<Event>, i: IntentId) {
    exists k :: 0 <= k < |log| && ExecutionRecorded(log[k], i)
  }

  predicate NeverBlind(log: seq<Event>, i: IntentId) {
    if log == [] then true
    else
      && NeverBlind(log[..|log| - 1], i)
      && (Entry(log[|log| - 1], i) ==>
            Unsettled(log[..|log| - 1], i) == None && !AnyExecutionRecorded(log[..|log| - 1], i))
  }

  // ------------------------------------------------------------------ the invariant

  predicate Automatic(db: Db, i: IntentId) {
    i in db.intents && db.intents[i].connector.mode == AutomaticWrite
  }

  predicate DrivingJob(db: Db, j: JobId, i: IntentId) {
    j in db.jobs && EffectJob(db.jobs[j]) && db.jobs[j].intentId == i
  }

  /** At most one effect job was ever enqueued for the intent. */
  ghost predicate OneJob(db: Db, i: IntentId) {
    forall j, k :: DrivingJob(db, j, i) && DrivingJob(db, k, i) ==> j == k
  }

  predicate Drives(run: Run, i: IntentId) {
    run.intentId == i && run.handler != OtherWork
  }

  predicate AboutToFail(pc: Pc) {
    || (pc.CheckExecuted? && pc.executed.ExecuteDenied?)
    || (pc.CheckQueried? && pc.answer == NotFound(true))
    || (pc.Transition? && pc.to == Failed)
  }

  ghost predicate RunControlled(s: State, i: IntentId, r: nat)
    requires r < |s.runs|
  {
    Drives(s.runs[r], i) && Live(s, r) ==>
      && (AboutToFail(s.runs[r].pc) ==> Unsettled(s.log, i) == None)
      && (s.runs[r].pc == Begin(Executing) ==> !HasExecutionReceipt(s.db, i))
  }

  ghost predicate Controlled(s: State, i: IntentId)
    requires i in s.db.intents
  {
    && NeverBlind(s.log, i)
    && (s.db.intents[i].status == Prepared || s.db.intents[i].status == Failed ==> Unsettled(s.log, i) == None)
    && (forall r :: 0 <= r < |s.runs| ==> RunControlled(s, i, r))
    && (Unsettled(s.log, i).Some? ==>
          Unsettled(s.log, i).value < |s.runs| && Drives(s.runs[Unsettled(s.log, i).value], i))
  }

  ghost predicate ReceiptsLogged(s: State) {
    forall k :: 0 <= k < |s.log| && s.log[k].Recorded? ==> s.log[k].receipt in s.db.receipts
  }

  ghost predicate ReentryInv(s: State) {
    && ReceiptsLogged(s)
    && forall i :: Automatic(s.db, i) && OneJob(s.db, i) ==> Controlled(s, i)
  }

  // ------------------------------------------------------------------- log lemmas

  lemma UnsettledOne(log: seq<Event>, event: Event, i: IntentId)
    ensures Unsettled(log + [event], i) ==
              if Entry(event, i) then event.writer
              else if Denial(event, i) && Unsettled(log, i).Some? && event.observer >= Unsettled(log, i).value then None
              else Unsettled(log, i)
    ensures NeverBlind(log + [event], i) <==>
              && NeverBlind(log, i)
              && (Entry(event, i) ==> Unsettled(log, i) == None && !AnyExecutionRecorded(log, i))
  {
    assert (log + [event])[..|log|] == log;
  }

  predicate Irrelevant(event: Event, i: IntentId) {
    !Entry(event, i) && !Denial(event, i)
  }

  lemma {:induction false} IrrelevantEvents(log: seq<Event>, events: seq<Event>, i: IntentId)
    requires forall k :: 0 <= k < |events| ==> Irrelevant(events[k], i)
    ensures Unsettled(log + events, i) == Unsettled(log, i)
    ensures NeverBlind(log + events, i) <==> NeverBlind(log, i)
    decreases |events|
  {
    hide Unsettled, NeverBlind, AnyExecutionRecorded;
    if events == [] {
      assert log + events == log;
    } else {
      var last := events[|events| - 1];
      IrrelevantEvents(log, events[..|events| - 1], i);
      UnsettledOne(log + events[..|events| - 1], last, i);
      assert log + events == log + events[..|events| - 1] + [last];
    }
  }

  lemma {:induction false} PathEventsIrrelevant(intentId: IntentId, from: Status, path: seq<Status>, i: IntentId)
    ensures forall k :: 0 <= k < |PathEvents(intentId, from, path)| ==>
              Irrelevant(PathEvents(intentId, from, path)[k], i) && !PathEvents(intentId, from, path)[k].Recorded?
    decreases |path|
  {
    if path != [] {
      PathEventsIrrelevant(intentId, path[0], path[1..], i);
    }
  }

  // --------------------------------------------------------- one step of a handler

  /** Where a run comes from when it is about to declare failure, or about to begin. */
  lemma Approaches(db: Db, run: Run, index: nat, oracle: Oracle)
    requires RunOk(db, run)
    ensures var result := Step(db, run, index, oracle);
            && (AboutToFail(result.run.pc) ==>
                  || (AboutToFail(run.pc) && result.db == db && result.events == [])
                  || result.events == [Denied(run.intentId, index)])
            && (result.run.pc == Begin(Executing) && run.pc != Begin(Executing) ==>
                  result.db == db && result.events == [] && !HasExecutionReceipt(db, run.intentId))
            && (run.pc == Begin(Executing) ==> result.run.pc != Begin(Executing))
  {
    if !Finished(run.pc) && oracle.fault != FaultBefore {
      hide StepTransition, StepBegin, StepPersist, DispatchReconcile, DispatchCompensation, ExternalFenceHeld,
           FenceHeld, TransitionOk, HasExecutionReceipt;
      match run.pc
      case Begin(_) => ApproachBegin(db, run, index, oracle);
      case Persist(_, _) => ApproachPersist(db, run, index, oracle.fault);
      case Transition(_, _) => ApproachTransition(db, run, index, oracle.fault);
      case Scan => ApproachScan(db, run, oracle);
      case _ =>
    }
  }

  lemma ApproachBegin(db: Db, run: Run, index: nat, oracle: Oracle)
    requires run.pc.Begin?
    ensures var after := StepBegin(db, run, index, run.pc.next, oracle).run;
            !AboutToFail(after.pc) && !after.pc.Begin?
  {
    hide FenceHeld, CanTransition, AcquireFence;
  }

  lemma ApproachPersist(db: Db, run: Run, index: nat, fault: Fault)
    requires run.pc.Persist?
    ensures var after := StepPersist(db, run, run.pc.draft, run.pc.mark, fault).run;
            !AboutToFail(after.pc) && !after.pc.Begin?
  {
    hide FenceHeld, CanTransition;
  }

  lemma ApproachTransition(db: Db, run: Run, index: nat, fault: Fault)
    requires run.pc.Transition?
    ensures var after := StepTransition(db, run, index, run.pc.to, run.pc.after, fault).run;
            !AboutToFail(after.pc) && !after.pc.Begin?
  {
    hide FenceHeld, CanTransition, SetStatus;
  }

  lemma ApproachScan(db: Db, run: Run, oracle: Oracle)
    requires run.pc == Scan && !run.guarded
    ensures !AboutToFail(DispatchReconcile(db, run, oracle).pc)
    ensures !AboutToFail(DispatchCompensation(db, run).pc)
    ensures DispatchReconcile(db, run, oracle).pc == Begin(Executing) ==> !HasExecutionReceipt(db, run.intentId)
    ensures DispatchCompensation(db, run).pc != Begin(Executing)
  {
    hide HasExecutionReceipt, HasCompensationReceipt, CanTransition;
  }

  // --------------------------------------------------- what a step does to the log

  /** With a single driving job, the runs that drive an intent are runs of one job. */
  lemma SameDriver(s: State, i: IntentId, a: nat, b: nat)
    requires LeaseInv(s) && OneJob(s.db, i)
    requires a < |s.runs| && b < |s.runs| && Drives(s.runs[a], i) && Drives(s.runs[b], i)
    ensures s.runs[a].jobId == s.runs[b].jobId
    ensures Live(s, b) ==> a <= b
    ensures Live(s, a) && Live(s, b) ==> a == b
  {
    hide FenceHeld;
    assert RunFits(s.db, s.runs[a]) && RunFits(s.db, s.runs[b]);
    assert DrivingJob(s.db, s.runs[a].jobId, i) && DrivingJob(s.db, s.runs[b].jobId, i);
    HeldToken(s, a);
    HeldToken(s, b);
  }

  lemma HeldToken(s: State, r: nat)
    requires r < |s.runs|
    ensures Live(s, r) ==>
              s.runs[r].jobId in s.db.jobs && s.runs[r].token == s.db.jobs[s.runs[r].jobId].token
  {
  }

  /** The facts about one handler step that the invariant needs. */
  ghost predicate StepFacts(s: State, r0: nat, result: StepResult, kind: Kind)
    requires r0 < |s.runs|
  {
    var run := s.runs[r0];
    && HasKind(s.db, run, r0, result, kind)
    && SameRun(run, result.run)
    && (run.handler == OtherWork ==> kind == Quiet && result.events == [])
    && (kind == Begins(Executing) ==> run.local.status == Prepared || run.local.status == Failed)
    && (kind.Begins? ==> InFlight(kind.to))
    && (kind.Writes? ==> kind.to != Executing && kind.to != Prepared)
    && (AboutToFail(result.run.pc) ==>
          || (AboutToFail(run.pc) && result.db == s.db && result.events == [])
          || result.events == [Denied(run.intentId, r0)])
    && (result.run.pc == Begin(Executing) && run.pc != Begin(Executing) ==>
          result.db == s.db && result.events == [] && !HasExecutionReceipt(s.db, run.intentId))
    && (run.pc == Begin(Executing) && result.run.pc == Begin(Executing) ==> result.run == run && kind == Quiet)
  }

  lemma FactsOf(s: State, act: Action) returns (kind: Kind)
    requires LeaseInv(s) && ReceiptInv(s) && Enabled(s, act) && act.Work?
    ensures StepFacts(s, act.run, Step(s.db, s.runs[act.run], act.run, act.oracle), kind)
  {
    hide Step, RunOk, CopyOk, AllJustified, CanTransition, FenceHeld;
    var run := s.runs[act.run];
    assert RunOk(s.db, run) && RunFits(s.db, run);
    kind := StepKind(s.db, run, act.run, act.oracle);
    Approaches(s.db, run, act.run, act.oracle);
    StepLocal(s.db, run, act.run, act.oracle);
    if Finished(run.pc) {
      FinishedStep(s.db, run, act.run, act.oracle);
    }
    PlannedTargets(s.db, run);
  }

  lemma PlannedTargets(db: Db, run: Run)
    requires RunOk(db, run)
    ensures run.pc == Begin(Executing) ==> run.local.status == Prepared || run.local.status == Failed
    ensures run.pc.Begin? ==> InFlight(run.pc.next)
    ensures run.pc.Transition? ==> run.pc.to != Executing && run.pc.to != Prepared
  {
  }

  /** The intent's own log, after a step of a run that drives it. */
  lemma LogAfterOwn(s: State, r0: nat, result: StepResult, kind: Kind, i: IntentId)
    requires LeaseInv(s) && ReceiptsLogged(s) && OneJob(s.db, i) && i in s.db.intents && Controlled(s, i)
    requires r0 < |s.runs| && Drives(s.runs[r0], i) && StepFacts(s, r0, result, kind)
    ensures NeverBlind(s.log + result.events, i)
    ensures kind == Begins(Executing) ==> Unsettled(s.log + result.events, i) == Some(r0)
    ensures kind != Begins(Executing) ==>
              Unsettled(s.log + result.events, i) == Unsettled(s.log, i) || Unsettled(s.log + result.events, i) == None
    ensures result.events == [Denied(i, r0)] && Live(s, r0) ==> Unsettled(s.log + result.events, i) == None
  {
    hide FenceHeld, CanTransition, HasExecutionReceipt, NeverBlind, Unsettled;
    var run := s.runs[r0];
    if result.events == [] {
      assert s.log + result.events == s.log;
    } else if kind == Begins(Executing) {
      var entry := result.events[0];
      assert result.events == [entry, result.events[1]];
      assert RunControlled(s, i, r0);
      NoneRecorded(s, i);
      UnsettledOne(s.log, entry, i);
      IrrelevantEvents(s.log + [entry], [result.events[1]], i);
      assert s.log + result.events == s.log + [entry] + [result.events[1]];
    } else if result.events == [Denied(i, r0)] {
      UnsettledOne(s.log, result.events[0], i);
      if Live(s, r0) && Unsettled(s.log, i).Some? {
        SameDriver(s, i, Unsettled(s.log, i).value, r0);
      }
    } else {
      IrrelevantEvents(s.log, result.events, i);
    }
  }

  lemma NoneRecorded(s: State, i: IntentId)
    requires ReceiptsLogged(s)
    ensures !HasExecutionReceipt(s.db, i) ==> !AnyExecutionRecorded(s.log, i)
  {
    if AnyExecutionRecorded(s.log, i) {
      var k :| 0 <= k < |s.log| && ExecutionRecorded(s.log[k], i);
      var n :| 0 <= n < |s.db.receipts| && s.db.receipts[n] == s.log[k].receipt;
    }
  }

  /** How the state changes with a handler step, stated without the step itself. */
  ghost predicate Worked(s: State, r0: nat, result: StepResult, t: State) {
    && r0 < |s.runs|
    && t.db == result.db
    && t.runs == s.runs[r0 := result.run]
    && t.log == s.log + result.events
    && forall r :: 0 <= r < |s.runs| ==> (Live(t, r) <==> Live(s, r))
  }

  lemma OwnStepControlled(s: State, r0: nat, result: StepResult, kind: Kind, t: State, i: IntentId)
    requires LeaseInv(s) && ReceiptsLogged(s) && OneJob(s.db, i) && i in s.db.intents && Controlled(s, i)
    requires Worked(s, r0, result, t) && Drives(s.runs[r0], i) && StepFacts(s, r0, result, kind)
    ensures i in t.db.intents && Controlled(t, i)
  {
    hide FenceHeld, CanTransition, HasExecutionReceipt, NeverBlind, Unsettled;
    LogAfterOwn(s, r0, result, kind, i);
    forall r | 0 <= r < |t.runs| ensures RunControlled(t, i, r) {
      if Drives(t.runs[r], i) && Live(t, r) {
        assert RunControlled(s, i, r0) && RunControlled(s, i, r);
        assert Live(s, r) && Drives(s.runs[r], i);
        if r == r0 {
          ActorControlled(s, r0, result, kind, t, i);
        } else {
          BystanderControlled(s, r0, result, kind, t, i, r);
        }
      }
    }
    StatusControlled(s, r0, result, kind, t, i);
  }

  lemma ActorControlled(s: State, r0: nat, result: StepResult, kind: Kind, t: State, i: IntentId)
    requires i in s.db.intents && Controlled(s, i) && Worked(s, r0, result, t)
    requires Drives(s.runs[r0], i) && Live(s, r0) && StepFacts(s, r0, result, kind)
    requires kind != Begins(Executing) ==>
               Unsettled(t.log, i) == Unsettled(s.log, i) || Unsettled(t.log, i) == None
    requires result.events == [Denied(i, r0)] ==> Unsettled(t.log, i) == None
    ensures RunControlled(t, i, r0)
  {
    hide FenceHeld, CanTransition, HasExecutionReceipt, NeverBlind, Unsettled;
    assert RunControlled(s, i, r0);
  }

  lemma BystanderControlled(s: State, r0: nat, result: StepResult, kind: Kind, t: State, i: IntentId, r: nat)
    requires LeaseInv(s) && OneJob(s.db, i) && i in s.db.intents && Controlled(s, i) && Worked(s, r0, result, t)
    requires r < |s.runs| && r != r0 && Drives(s.runs[r], i) && Live(s, r)
    requires Drives(s.runs[r0], i) && StepFacts(s, r0, result, kind)
    requires kind != Begins(Executing) ==>
               Unsettled(t.log, i) == Unsettled(s.log, i) || Unsettled(t.log, i) == None
    ensures RunControlled(t, i, r)
  {
    hide FenceHeld, CanTransition, HasExecutionReceipt, NeverBlind, Unsettled;
    SameDriver(s, i, r0, r);
    assert RunControlled(s, i, r);
    assert kind == Quiet;
  }

  lemma StatusControlled(s: State, r0: nat, result: StepResult, kind: Kind, t: State, i: IntentId)
    requires LeaseInv(s) && i in s.db.intents && Controlled(s, i) && Worked(s, r0, result, t)
    requires Drives(s.runs[r0], i) && StepFacts(s, r0, result, kind)
    requires kind == Begins(Executing) ==> Unsettled(t.log, i) == Some(r0)
    requires kind != Begins(Executing) ==>
               Unsettled(t.log, i) == Unsettled(s.log, i) || Unsettled(t.log, i) == None
    ensures i in t.db.intents
    ensures t.db.intents[i].status == Prepared || t.db.intents[i].status == Failed ==> Unsettled(t.log, i) == None
    ensures Unsettled(t.log, i).Some? ==>
              Unsettled(t.log, i).value < |t.runs| && Drives(t.runs[Unsettled(t.log, i).value], i)
  {
    hide FenceHeld, HasExecutionReceipt, NeverBlind, Unsettled;
    assert RunControlled(s, i, r0);
  }

  /** A step of a run that does not drive the intent. */
  lemma OtherStepControlled(s: State, r0: nat, result: StepResult, kind: Kind, t: State, i: IntentId)
    requires i in s.db.intents && Controlled(s, i)
    requires Worked(s, r0, result, t) && !Drives(s.runs[r0], i) && StepFacts(s, r0, result, kind)
    ensures i in t.db.intents && Controlled(t, i)
  {
    hide FenceHeld, CanTransition, NeverBlind, Unsettled;
    IrrelevantEvents(s.log, result.events, i);
    ReceiptsElsewhere(s.db, s.runs[r0], r0, result, kind, i);
    hide HasExecutionReceipt;
    forall r | 0 <= r < |t.runs| ensures RunControlled(t, i, r) {
      assert RunControlled(s, i, r);
    }
  }

  lemma ReceiptsElsewhere(db: Db, run: Run, index: nat, result: StepResult, kind: Kind, i: IntentId)
    requires HasKind(db, run, index, result, kind) && (run.handler == OtherWork ==> kind == Quiet) && !Drives(run, i)
    ensures HasExecutionReceipt(result.db, i) ==> HasExecutionReceipt(db, i)
    ensures i in db.intents ==> i in result.db.intents && result.db.intents[i] == db.intents[i]
  {
    hide FenceHeld, CanTransition;
    if HasExecutionReceipt(result.db, i) {
      var k :| 0 <= k < |result.db.receipts| && result.db.receipts[k].intentId == i && ExecutionReceipt(result.db.receipts[k]);
      assert db.receipts[k] == result.db.receipts[k];
    }
  }

  lemma WorkedStep(s: State, act: Action)
    requires LeaseInv(s) && Enabled(s, act) && act.Work?
    ensures Worked(s, act.run, Step(s.db, s.runs[act.run], act.run, act.oracle), Next(s, act))
  {
    hide Step, CanTransition;
    var kind := StepKind(s.db, s.runs[act.run], act.run, act.oracle);
    StepLocal(s.db, s.runs[act.run], act.run, act.oracle);
  }

  lemma ReceiptsLoggedWork(s: State, r0: nat, result: StepResult, kind: Kind, t: State)
    requires ReceiptsLogged(s) && Worked(s, r0, result, t) && StepFacts(s, r0, result, kind)
    ensures ReceiptsLogged(t)
  {
    hide FenceHeld, CanTransition;
    forall k | 0 <= k < |t.log| && t.log[k].Recorded? ensures t.log[k].receipt in t.db.receipts {
      if k < |s.log| {
        assert s.log[k].receipt in s.db.receipts;
      } else {
        assert t.log[k] == result.events[k - |s.log|];
      }
    }
  }

  /** A single job and an automatic connector are facts that only the past can establish. */
  lemma SoleBefore(s: State, act: Action, i: IntentId)
    requires LeaseInv(s) && Enabled(s, act)
    requires OneJob(Next(s, act).db, i)
    ensures OneJob(s.db, i)
  {
    hide Next;
    JobsStep(s, act);
    forall j, k | DrivingJob(s.db, j, i) && DrivingJob(s.db, k, i) ensures j == k {
      assert DrivingJob(Next(s, act).db, j, i) && DrivingJob(Next(s, act).db, k, i);
    }
  }

  lemma ReentryWork(s: State, act: Action)
    requires LeaseInv(s) && ReceiptInv(s) && ReentryInv(s) && Enabled(s, act) && act.Work?
    ensures ReentryInv(Next(s, act))
  {
    hide Next, Step, Controlled, RunOk, CopyOk, AllJustified, OneJob;
    var t := Next(s, act);
    var result := Step(s.db, s.runs[act.run], act.run, act.oracle);
    var kind := FactsOf(s, act);
    WorkedStep(s, act);
    ReceiptsLoggedWork(s, act.run, result, kind, t);
    forall i | Automatic(t.db, i) && OneJob(t.db, i) ensures Controlled(t, i) {
      SoleBefore(s, act, i);
      AutomaticBefore(s.db, s.runs[act.run], act.run, result, kind, i);
      if Drives(s.runs[act.run], i) {
        OwnStepControlled(s, act.run, result, kind, t, i);
      } else {
        OtherStepControlled(s, act.run, result, kind, t, i);
      }
    }
  }

  lemma AutomaticBefore(db: Db, run: Run, index: nat, result: StepResult, kind: Kind, i: IntentId)
    requires HasKind(db, run, index, result, kind)
    ensures Automatic(result.db, i) ==> Automatic(db, i)
  {
    hide FenceHeld, CanTransition;
  }

  // -------------------------------------------------------------- everybody else

  /** What the invariant reads of a state, when no handler acted. */
  ghost predicate Undisturbed(s: State, t: State, i: IntentId)
    requires i in s.db.intents
  {
    && i in t.db.intents
    && NeverBlind(t.log, i) == NeverBlind(s.log, i)
    && Unsettled(t.log, i) == Unsettled(s.log, i)
    && HasExecutionReceipt(t.db, i) == HasExecutionReceipt(s.db, i)
    && (t.db.intents[i].status == s.db.intents[i].status
        || t.db.intents[i].status == ReconciliationRequired || t.db.intents[i].status == RemediationRequired)
    && |s.runs| <= |t.runs|
    && forall r :: 0 <= r < |t.runs| && Drives(t.runs[r], i) && Live(t, r) && Planned(t.runs[r].pc) ==>
         r < |s.runs| && t.runs[r] == s.runs[r] && Live(s, r)
  }

  predicate Planned(pc: Pc) {
    AboutToFail(pc) || pc == Begin(Executing)
  }

  lemma UndisturbedControlled(s: State, t: State, i: IntentId)
    requires i in s.db.intents && Controlled(s, i) && Undisturbed(s, t, i)
    requires RunsAdvance(s.runs, t.runs)
    ensures Controlled(t, i)
  {
    hide FenceHeld, HasExecutionReceipt, NeverBlind, Unsettled;
    forall r | 0 <= r < |t.runs| ensures RunControlled(t, i, r) {
      if Drives(t.runs[r], i) && Live(t, r) && Planned(t.runs[r].pc) {
        assert RunControlled(s, i, r);
      }
    }
  }

  lemma PlansUnchanged(s: State, act: Action, i: IntentId, r: nat)
    requires LeaseInv(s) && Enabled(s, act) && !act.Work? && r < |Next(s, act).runs|
    requires Drives(Next(s, act).runs[r], i) && Live(Next(s, act), r) && Planned(Next(s, act).runs[r].pc)
    ensures r < |s.runs| && Next(s, act).runs[r] == s.runs[r] && Live(s, r)
  {
    hide Next, FenceHeld;
    CopiesStay(s, act, r);
    JobsStep(s, act);
    assert RunFits(s.db, s.runs[r]);
    LostFenceStaysLost(s.db, Next(s, act).db, FenceOf(s.runs[r]));
  }

  lemma CopiesStay(s: State, act: Action, r: nat)
    requires Enabled(s, act) && !act.Work? && r < |Next(s, act).runs|
    requires Planned(Next(s, act).runs[r].pc)
    ensures r < |s.runs| && s.runs[r] == Next(s, act).runs[r]
  {
    hide EnqueueJob, ClaimJob, HeartbeatJob, CompleteJob, FailJob, RecoverJob,
         RequestReconciliation, RecordManualReceipt, RecordApiReceipt, InvalidateIntent, PrepareIntent;
  }

  lemma OutsideLog(s: State, t: State, change: Change, i: IntentId)
    requires Outside(s.db, t.db, change) && Automatic(s.db, i)
    requires t.log == s.log + ChangeEvents(s.db, change)
    ensures i in t.db.intents
    ensures NeverBlind(t.log, i) == NeverBlind(s.log, i) && Unsettled(t.log, i) == Unsettled(s.log, i)
    ensures HasExecutionReceipt(t.db, i) == HasExecutionReceipt(s.db, i)
    ensures || t.db.intents[i].status == s.db.intents[i].status
            || t.db.intents[i].status == ReconciliationRequired || t.db.intents[i].status == RemediationRequired
  {
    hide NeverBlind, Unsettled, LegalPath, HasExecutionReceipt;
    if change.intentId in s.db.intents {
      PathEventsIrrelevant(change.intentId, s.db.intents[change.intentId].status, change.path, i);
    }
    IrrelevantEvents(s.log, ChangeEvents(s.db, change), i);
    OutsideExecution(s.db, t.db, change, i);
  }

  lemma OutsideExecution(before: Db, after: Db, change: Change, i: IntentId)
    requires Outside(before, after, change) && Automatic(before, i)
    ensures HasExecutionReceipt(after, i) == HasExecutionReceipt(before, i)
  {
    hide LegalPath;
    ReceiptsStay(before, after, i);
    if HasExecutionReceipt(after, i) {
      var k :| 0 <= k < |after.receipts| && after.receipts[k].intentId == i && ExecutionReceipt(after.receipts[k]);
      assert before.receipts[k] == after.receipts[k];
    }
  }

  lemma ReceiptsLoggedOutside(s: State, t: State, change: Change)
    requires ReceiptsLogged(s) && Outside(s.db, t.db, change)
    requires t.log == s.log + ChangeEvents(s.db, change)
    ensures ReceiptsLogged(t)
  {
    hide LegalPath;
    forall k | 0 <= k < |t.log| && t.log[k].Recorded? ensures t.log[k].receipt in t.db.receipts {
      if k < |s.log| {
        assert s.log[k].receipt in s.db.receipts;
      } else {
        assert t.log[k] == ChangeEvents(s.db, change)[k - |s.log|];
        if change.intentId in s.db.intents {
          PathEventsIrrelevant(change.intentId, s.db.intents[change.intentId].status, change.path, 0);
        }
      }
    }
  }

  lemma ReentryOutside(s: State, act: Action)
    requires LeaseInv(s) && ReentryInv(s) && Enabled(s, act) && OutsideAction(act)
    ensures ReentryInv(Next(s, act))
  {
    hide Next, Controlled, OneJob, FenceHeld, NeverBlind, Unsettled, HasExecutionReceipt;
    var t := Next(s, act);
    if act.Fail? {
      FailRunFits(s, act);
    }
    var change := OutsideStep(s, act);
    ReceiptsLoggedOutside(s, t, change);
    RunsStep(s, act);
    forall i | Automatic(t.db, i) && OneJob(t.db, i) ensures Controlled(t, i) {
      SoleBefore(s, act, i);
      OutsideAutomatic(s.db, t.db, change, i);
      OutsideLog(s, t, change, i);
      forall r | 0 <= r < |t.runs| && Drives(t.runs[r], i) && Live(t, r) && Planned(t.runs[r].pc)
        ensures r < |s.runs| && t.runs[r] == s.runs[r] && Live(s, r)
      {
        PlansUnchanged(s, act, i, r);
      }
      UndisturbedControlled(s, t, i);
    }
  }

  lemma FailRunFits(s: State, act: Action)
    requires LeaseInv(s) && Enabled(s, act) && act.Fail?
    ensures act.run < |s.runs| && RunFits(s.db, s.runs[act.run])
  {
  }

  lemma OutsideAutomatic(before: Db, after: Db, change: Change, i: IntentId)
    requires Outside(before, after, change)
    ensures Automatic(after, i) ==> Automatic(before, i)
  {
    hide LegalPath;
  }

  lemma ReentryQuiet(s: State, act: Action)
    requires LeaseInv(s) && ReceiptInv(s) && HistoryInv(s) && ReentryInv(s)
    requires Enabled(s, act) && !act.Work? && !OutsideAction(act)
    ensures ReentryInv(Next(s, act))
  {
    hide Next, Controlled, OneJob, FenceHeld, NeverBlind, Unsettled, RunOk, CopyOk, Justified, HistoryOf,
         HasExecutionReceipt;
    var t := Next(s, act);
    QuietTables(s, act);
    QuietLog(s, act);
    RunsStep(s, act);
    QuietEvent(s, act);
    assert t.db.receipts == s.db.receipts;
    forall i | Automatic(t.db, i) && OneJob(t.db, i) ensures Controlled(t, i) {
      SoleBefore(s, act, i);
      if t.log != s.log {
        IrrelevantEvents(s.log, [t.log[|s.log|]], i);
      }
      forall r | 0 <= r < |t.runs| && Drives(t.runs[r], i) && Live(t, r) && Planned(t.runs[r].pc)
        ensures r < |s.runs| && t.runs[r] == s.runs[r] && Live(s, r)
      {
        PlansUnchanged(s, act, i, r);
      }
      if i in s.db.intents {
        SameExecution(s.db, t.db, i);
        UndisturbedControlled(s, t, i);
      } else {
        FreshControlled(s, t, i);
      }
    }
  }

  lemma SameExecution(before: Db, after: Db, i: IntentId)
    requires before.receipts == after.receipts
    ensures HasExecutionReceipt(after, i) == HasExecutionReceipt(before, i)
  {
  }

  lemma QuietEvent(s: State, act: Action)
    requires Enabled(s, act) && !act.Work? && !OutsideAction(act)
    ensures var t := Next(s, act);
            t.log != s.log ==> |t.log| > |s.log| && !t.log[|s.log|].Denied? && !t.log[|s.log|].Recorded?
  {
    hide EnqueueJob, ClaimJob, HeartbeatJob, CompleteJob, PrepareIntent, Ended;
  }

  lemma {:induction false} UntouchedIsSettled(log: seq<Event>, i: IntentId)
    requires Untouched(log, i)
    ensures Unsettled(log, i) == None && NeverBlind(log, i)
  {
    if log != [] {
      UntouchedIsSettled(log[..|log| - 1], i);
    }
  }

  lemma FreshControlled(s: State, t: State, i: IntentId)
    requires LeaseInv(s) && ReceiptInv(s) && HistoryInv(s) && i !in s.db.intents && i in t.db.intents
    requires NeverBlind(t.log, i) == NeverBlind(s.log, i) && Unsettled(t.log, i) == Unsettled(s.log, i)
    requires forall r :: 0 <= r < |t.runs| && Drives(t.runs[r], i) && Live(t, r) && Planned(t.runs[r].pc) ==>
               r < |s.runs| && t.runs[r] == s.runs[r] && Live(s, r)
    ensures Controlled(t, i)
  {
    assert HistoryOf(s.log, s.db, i);
    UntouchedIsSettled(s.log, i);
    hide FenceHeld, NeverBlind, Unsettled, HasExecutionReceipt, RunOk, HistoryOf;
    forall r | 0 <= r < |t.runs| ensures RunControlled(t, i, r) {
      if Drives(t.runs[r], i) && Live(t, r) && Planned(t.runs[r].pc) {
        assert CopyOk(s.db, s.runs[r]);
      }
    }
  }

  // ------------------------------------------------------------------------- theorems

  lemma {:induction false} ReentryHolds(actions: seq<Action>)
    requires Execution(actions)
    ensures ReentryInv(StateAfter(actions))
  {
    hide ReentryInv, Next, Enabled;
    if actions == [] {
      ReentryInitially();
    } else {
      var before, act := actions[..|actions| - 1], actions[|actions| - 1];
      ReentryHolds(before);
      LeasesHold(before);
      ReceiptsHold(before);
      HistoriesArePaths(before);
      var s := StateAfter(before);
      if act.Work? {
        ReentryWork(s, act);
      } else if OutsideAction(act) {
        ReentryOutside(s, act);
      } else {
        ReentryQuiet(s, act);
      }
    }
  }

  lemma ReentryInitially()
    ensures ReentryInv(INITIAL)
  {
  }

  /** Read at two places of a log that was never blind: a denial lies between any two entries. */
  lemma {:induction false} DenialBetween(log: seq<Event>, i: IntentId, p: nat, q: nat) returns (r: nat)
    requires NeverBlind(log, i) && p < q < |log| && Entry(log[p], i) && Entry(log[q], i)
    ensures p < r < q && Denial(log[r], i) && log[r].observer >= log[p].writer.value
    decreases q
  {
    PrefixNeverBlind(log, i, q + 1);
    var upTo := log[..q + 1];
    assert upTo[..|upTo| - 1] == log[..q];
    r := SettledBy(log, i, p, q);
  }

  lemma {:induction false} PrefixNeverBlind(log: seq<Event>, i: IntentId, k: nat)
    requires NeverBlind(log, i) && k <= |log|
    ensures NeverBlind(log[..k], i)
  {
    if k == |log| {
      assert log[..k] == log;
    } else {
      PrefixNeverBlind(log[..|log| - 1], i, k);
      assert log[..|log| - 1][..k] == log[..k];
    }
  }

  /** If an entry at `p` is settled by position `q`, some event in between settled it. */
  lemma {:induction false} SettledBy(log: seq<Event>, i: IntentId, p: nat, q: nat) returns (r: nat)
    requires NeverBlind(log, i) && p < q <= |log| && Entry(log[p], i) && Unsettled(log[..q], i) == None
    ensures p < r < q && Denial(log[r], i) && log[r].observer >= log[p].writer.value
    decreases q
  {
    assert log[..q][..q - 1] == log[..q - 1];
    if q - 1 == p {
      assert false;
    } else if Unsettled(log[..q - 1], i) == None {
      r := SettledBy(log, i, p, q - 1);
    } else {
      var w := Unsettled(log[..q - 1], i);
      r := q - 1;
      if w != log[p].writer {
        // Another entry came after `p`; by induction that one was not blind either.
        var later := LastEntry(log, i, q - 1);
        if later > p {
          PrefixNeverBlind(log, i, later + 1);
          assert log[..later + 1][..later] == log[..later];
          r := SettledBy(log, i, p, later);
        }
      }
    }
  }

  lemma {:induction false} LastEntry(log: seq<Event>, i: IntentId, q: nat) returns (p: nat)
    requires q <= |log| && Unsettled(log[..q], i).Some?
    ensures p < q && Entry(log[p], i) && log[p].writer == Unsettled(log[..q], i)
    ensures forall k :: p < k < q ==> !Entry(log[k], i)
    decreases q
  {
    assert log[..q][..q - 1] == log[..q - 1];
    if Entry(log[q - 1], i) {
      p := q - 1;
    } else {
      p := LastEntry(log, i, q - 1);
    }
  }

  /**
    While one durable job drives an automatic write, any two begins of the external execution have
    a definitive denial between them, observed by the run of the first begin or a later one.
   */
  lemma NoBlindReentry(actions: seq<Action>, i: IntentId, p: nat, q: nat) returns (r: nat)
    requires Execution(actions)
    requires var s := StateAfter(actions);
             && Automatic(s.db, i) && OneJob(s.db, i)
             && p < q < |s.log| && Entry(s.log[p], i) && Entry(s.log[q], i)
    ensures var log := StateAfter(actions).log;
            p < r < q && Denial(log[r], i) && log[r].observer >= log[p].writer.value
  {
    hide Next, Enabled, NeverBlind;
    ReentryHolds(actions);
    assert Controlled(StateAfter(actions), i);
    r := DenialBetween(StateAfter(actions).log, i, p, q);
  }

  /** And nothing is begun any more once a receipt of execution is on record. */
  lemma NoEntryAfterReceipt(actions: seq<Action>, i: IntentId, p: nat, q: nat)
    requires Execution(actions)
    requires var s := StateAfter(actions);
             && Automatic(s.db, i) && OneJob(s.db, i)
             && p < q < |s.log| && ExecutionRecorded(s.log[p], i)
    ensures !Entry(StateAfter(actions).log[q], i)
  {
    hide Next, Enabled, NeverBlind;
    ReentryHolds(actions);
    var log := StateAfter(actions).log;
    assert Controlled(StateAfter(actions), i);
    PrefixNeverBlind(log, i, q + 1);
    BlindAfterReceipt(log, i, p, q);
  }

  lemma BlindAfterReceipt(log: seq<Event>, i: IntentId, p: nat, q: nat)
    requires p < q < |log| && ExecutionRecorded(log[p], i) && NeverBlind(log[..q + 1], i)
    ensures !Entry(log[q], i)
  {
    var upTo := log[..q + 1];
    assert upTo[..|upTo| - 1] == log[..q];
    assert log[..q][p] == log[p];
  }
}
