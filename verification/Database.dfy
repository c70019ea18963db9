/**
  The stores as objects: each method is one transaction, carried out row by row on mutable tables,
  and proved to be exactly the corresponding function of module Tables.
 */
module Database {
  import opened EffectTable
  import opened Tables

  class PostgresStore {
    var now: nat
    var jobs: map<JobId, Job>
    var jobIndex: map<(JobType, JobKey), JobId>
    var intents: map<IntentId, Intent>
    var intentIndex: map<OperationKey, IntentId>
    var fences: map<ResourceKey, Fence>
    var receipts: seq<Receipt>

    function View(): Db
      reads this
    {
      Db(now, jobs, jobIndex, intents, intentIndex, fences, receipts)
    }

    constructor ()
      ensures Valid() && View() == EMPTY_DB
    {
      now, jobs, jobIndex, intents, intentIndex := 0, map[], map[], map[], map[];
      fences, receipts := map[], [];
    }

    // --------------------------------------------------------- JobsRepository

    method Enqueue(jobId: JobId, jobType: JobType, key: JobKey, intentId: IntentId, maxAttempts: nat, availableAt: nat)
      returns (result: EnqueueResult)
      modifies this
      ensures (View(), result)
           == EnqueueJob(old(View()), jobId, jobType, key, intentId, maxAttempts, availableAt)
    {
      if (jobType, key) in jobIndex {
        var existing := jobIndex[(jobType, key)];
        if existing in jobs && jobs[existing].intentId == intentId {
          result := Enqueued(existing);
        } else {
          result := EnqueueConflict;
        }
      } else if jobId in jobs || maxAttempts == 0 {
        result := EnqueueConflict;
      } else {
        jobs := jobs[jobId := Job(jobType, intentId, Pending, 0, maxAttempts, availableAt, None, 0)];
        jobIndex := jobIndex[(jobType, key) := jobId];
        result := Enqueued(jobId);
      }
    }

    predicate Before(left: JobId, right: JobId)
      requires left in jobs && right in jobs
      reads this
    {
      || jobs[left].availableAt < jobs[right].availableAt
      || (jobs[left].availableAt == jobs[right].availableAt && left <= right)
    }

    /** `locked` are the rows that SKIP LOCKED passes over. */
    method Claim(worker: WorkerId, leaseTime: nat, locked: set<JobId>) returns (claimed: Option<JobId>)
      modifies this
      ensures claimed.None? ==> View() == old(View()) && forall j :: Claimable(old(View()), j) ==> j in locked
      ensures claimed.Some? ==>
                && Claimable(old(View()), claimed.value) && claimed.value !in locked
                && (forall j :: Claimable(old(View()), j) && j !in locked ==>
                      var first, other := old(jobs)[claimed.value].availableAt, old(jobs)[j].availableAt;
                      first < other || (first == other && claimed.value <= j))
                && View() == ClaimJob(old(View()), claimed.value, worker, leaseTime)
    {
      var candidates := set j | j in jobs && Claimable(View(), j) && j !in locked;
      if candidates == {} {
        forall j | Claimable(View(), j) ensures j in locked {
          assert j !in candidates;
        }
        return None;
      }
      var first :| first in candidates;
      var rest := candidates - {first};
      while rest != {}
        invariant rest <= candidates && first in candidates && candidates <= jobs.Keys
        invariant forall j :: j in candidates && j !in rest ==> Before(first, j)
        decreases rest
      {
        var next :| next in rest;
        if !Before(first, next) {
          first := next;
        }
        rest := rest - {next};
      }
      assert forall j :: Claimable(View(), j) && j !in locked ==> j in candidates;
      var job := jobs[first];
      job := job.(status := Running, attempts := job.attempts + 1);
      job := job.(lease := Some(Lease(worker, now + leaseTime)), token := job.token + 1);
      jobs := jobs[first := job];
      claimed := Some(first);
    }

    method Heartbeat(fence: JobFence, leaseTime: nat) returns (renewed: bool)
      modifies this
      ensures View() == HeartbeatJob(old(View()), fence, leaseTime) && renewed == FenceHeld(old(View()), fence)
    {
      renewed := FenceHeld(View(), fence);
      if renewed {
        jobs := jobs[fence.jobId := jobs[fence.jobId].(lease := Some(Lease(fence.worker, now + leaseTime)))];
      }
    }

    method Complete(fence: JobFence) returns (completed: bool)
      modifies this
      ensures View() == CompleteJob(old(View()), fence) && completed == FenceHeld(old(View()), fence)
    {
      completed := FenceHeld(View(), fence);
      if completed {
        jobs := jobs[fence.jobId := jobs[fence.jobId].(status := Succeeded, lease := None)];
      }
    }

    // -------------------------------------------------- PostgresDurableJobStore

    method MarkDeadLetterEffect(job: Job)
      modifies this
      ensures View() == MarkDeadLetter(old(View()), job)
    {
      if job.status != DeadLetter || !EffectJob(job) || job.intentId !in intents {
        return;
      }
      var intent := intents[job.intentId];
      if Rescuable(intent.status) {
        intents := intents[job.intentId := intent.(status := ReconciliationRequired)];
      }
    }

    method Fail(fence: JobFence, retryable: bool, retryAt: nat) returns (status: Option<JobStatus>)
      modifies this
      ensures View() == FailJob(old(View()), fence, retryable, retryAt)
      ensures status.Some? <==> FenceHeld(old(View()), fence)
      ensures status.Some? ==>
                status.value == if retryable && old(jobs)[fence.jobId].attempts < old(jobs)[fence.jobId].maxAttempts
                                then JobFailed else DeadLetter
    {
      if !FenceHeld(View(), fence) {
        return None;
      }
      var job := jobs[fence.jobId];
      if retryable && job.attempts < job.maxAttempts {
        job := job.(status := JobFailed, availableAt := retryAt);
      } else {
        job := job.(status := DeadLetter);
      }
      job := job.(lease := None);
      jobs := jobs[fence.jobId := job];
      status := Some(job.status);
      MarkDeadLetterEffect(job);
    }

    predicate ExpiresBefore(left: JobId, right: JobId)
      requires left in jobs && right in jobs
      reads this
    {
      jobs[left].lease.Some? && jobs[right].lease.Some? ==>
        jobs[left].lease.value.expiresAt <= jobs[right].lease.value.expiresAt
    }

    method FirstExpired(candidates: set<JobId>) returns (first: JobId)
      requires candidates != {} && candidates <= jobs.Keys && forall j :: j in candidates ==> jobs[j].lease.Some?
      ensures first in candidates && forall j :: j in candidates ==> ExpiresBefore(first, j)
    {
      first :| first in candidates;
      var rest := candidates - {first};
      while rest != {}
        invariant rest <= candidates && first in candidates
        invariant forall j :: j in candidates && j !in rest ==> ExpiresBefore(first, j)
        decreases rest
      {
        var next :| next in rest;
        if !ExpiresBefore(first, next) {
          first := next;
        }
        rest := rest - {next};
      }
    }

    /** One pass over at most `limit` expired leases, earliest first, in one transaction; `locked` rows are skipped. */
    method RecoverStalled(limit: nat, locked: set<JobId>) returns (recovered: seq<JobId>)
      modifies this
      ensures View() == RecoverJobs(old(View()), recovered)
      ensures |recovered| <= limit
      ensures forall k :: 0 <= k < |recovered| ==> Stalled(old(View()), recovered[k]) && recovered[k] !in locked
      ensures |recovered| < limit ==> forall j :: Stalled(old(View()), j) && j !in locked ==> j in recovered
      ensures forall k, j :: 0 <= k < |recovered| && Stalled(old(View()), recovered[k])
                             && Stalled(old(View()), j) && j !in locked && j !in recovered ==>
                old(jobs)[recovered[k]].lease.value.expiresAt <= old(jobs)[j].lease.value.expiresAt
    {
      hide RecoverJob;
      var stalled := set j | j in jobs && Stalled(View(), j) && j !in locked;
      recovered := [];
      while stalled != {} && |recovered| < limit
        invariant View() == RecoverJobs(old(View()), recovered) && now == old(now)
        invariant |recovered| <= limit
        invariant forall k :: 0 <= k < |recovered| ==> Stalled(old(View()), recovered[k]) && recovered[k] !in locked
        invariant forall j :: Stalled(old(View()), j) && j !in locked ==> j in stalled || j in recovered
        invariant forall j :: j in stalled ==> Stalled(old(View()), j) && j in jobs && jobs[j] == old(jobs[j])
        invariant forall k, j :: 0 <= k < |recovered| && j in stalled ==> old(ExpiresBefore(recovered[k], j))
        decreases stalled
      {
        var jobId := FirstExpired(stalled);
        stalled := stalled - {jobId};
        RecoverOne(jobId);
        recovered := recovered + [jobId];
        assert recovered[..|recovered| - 1] + [jobId] == recovered;
      }
    }

    method RecoverOne(jobId: JobId)
      requires Stalled(View(), jobId)
      modifies this
      ensures View() == RecoverJob(old(View()), jobId)
      ensures now == old(now) && forall j :: j in old(jobs) && j != jobId ==> j in jobs && jobs[j] == old(jobs[j])
    {
      var job := jobs[jobId];
      if job.attempts < job.maxAttempts {
        job := job.(status := JobFailed);
      } else {
        job := job.(status := DeadLetter);
      }
      job := job.(availableAt := now, lease := None);
      jobs := jobs[jobId := job];
      MarkDeadLetterEffect(job);
    }

    // ----------------------------------------------------- PostgresEffectStore

    method AcquireResource(resource: ResourceKey, leaseTime: nat) returns (token: nat)
      modifies this
      ensures View() == AcquireFence(old(View()), resource, leaseTime)
      ensures resource in fences && fences[resource].token == token
    {
      if resource in fences {
        token := fences[resource].token + 1;
      } else {
        token := 1;
      }
      fences := fences[resource := Fence(token, now + leaseTime)];
    }

    method BeginExternalOperation(
      fence: JobFence, intentId: IntentId, expected: Status, next: Status, leaseTime: nat
    ) returns (result: StoreResult)
      modifies this
      ensures (View(), result) == BeginOperation(old(View()), fence, intentId, expected, next, leaseTime)
      ensures receipts == old(receipts) && (!result.Written? ==> View() == old(View()))
    {
      hide FenceHeld;
      if !FenceHeld(View(), fence) {
        return FenceLost;
      }
      if intentId !in intents || intents[intentId].status != expected {
        return Conflict;
      }
      var token := AcquireResource(intents[intentId].resource, leaseTime);
      intents := intents[intentId := intents[intentId].(token := Some(token), status := next)];
      result := Written(intents[intentId]);
    }

    method Transition(fence: JobFence, intentId: IntentId, expected: Status, next: Status)
      returns (result: StoreResult)
      modifies this
      ensures (View(), result) == TransitionIntent(old(View()), fence, intentId, expected, next)
      ensures receipts == old(receipts) && (!result.Written? ==> View() == old(View()))
    {
      hide FenceHeld;
      if !FenceHeld(View(), fence) {
        return FenceLost;
      }
      if intentId !in intents || intents[intentId].status != expected {
        return Conflict;
      }
      intents := intents[intentId := intents[intentId].(status := next)];
      result := Written(intents[intentId]);
    }

    /** Looks for a row with the receipt's id, as the primary key lookup does. */
    method FindReceipt(id: nat) returns (found: Option<Receipt>)
      ensures found.Some? ==> found.value in receipts && found.value.id == id
      ensures found.None? ==> forall k :: 0 <= k < |receipts| ==> receipts[k].id != id
    {
      found := None;
      for k := 0 to |receipts|
        invariant found.Some? ==> found.value in receipts && found.value.id == id
        invariant found.None? ==> forall n :: 0 <= n < k ==> receipts[n].id != id
      {
        if receipts[k].id == id {
          found := Some(receipts[k]);
        }
      }
    }

    /** effect_receipts.id is the primary key. */
    ghost predicate Valid()
      reads this
    {
      forall m, n :: 0 <= m < n < |receipts| ==> receipts[m].id != receipts[n].id
    }

    method Append(fence: JobFence, receipt: Receipt) returns (result: AppendResult)
      requires Valid()
      modifies this
      ensures Valid()
      ensures (View(), result) == AppendReceipt(old(View()), fence, receipt)
    {
      if !FenceHeld(View(), fence) {
        return AppendFenceLost;
      }
      var existing := FindReceipt(receipt.id);
      if existing.Some? {
        result := if existing.value == receipt then AlreadyStored else AppendRefused;
      } else if receipt.intentId !in intents {
        result := AppendRefused;
      } else {
        receipts := receipts + [receipt];
        result := Stored;
      }
    }

    // ---------------------------------------------------- outside writers

    method FindByKey(key: OperationKey) returns (existing: Option<IntentId>)
      ensures existing == IntentByKey(View(), key)
    {
      if key in intentIndex && intentIndex[key] in intents {
        return Some(intentIndex[key]);
      }
      existing := None;
    }

    /** INSERT ... ON CONFLICT (connector_type, idempotency_key) DO NOTHING, and the lookup after a conflict. */
    method Create(intentId: IntentId, intent: Intent) returns (result: PrepareResult)
      requires intentId !in intents || IntentByKey(View(), KeyOf(intent)).Some?
      modifies this`intents, this`intentIndex
      ensures var existing := old(IntentByKey(View(), KeyOf(intent)));
              if existing.Some? then
                && intents == old(intents) && intentIndex == old(intentIndex)
                && result == (if intents[existing.value].operation.columns == intent.operation.columns
                              then Replayed(existing.value) else PrepareConflict)
              else
                && intents == old(intents)[intentId := intent]
                && intentIndex == old(intentIndex)[KeyOf(intent) := intentId]
                && result == Created(intentId)
    {
      var existing := FindByKey(KeyOf(intent));
      if existing.None? {
        intents := intents[intentId := intent];
        intentIndex := intentIndex[KeyOf(intent) := intentId];
        return Created(intentId);
      }
      if intents[existing.value].operation.columns != intent.operation.columns {
        return PrepareConflict;
      }
      result := Replayed(existing.value);
    }

    /** A conflict rolls the fence back. */
    method Prepare(intentId: IntentId, draft: Intent, leaseTime: nat, late: bool) returns (result: PrepareResult)
      modifies this
      ensures (View(), result) == PrepareIntent(old(View()), intentId, draft, leaseTime, late)
    {
      var existing := FindByKey(KeyOf(draft));
      if existing.Some? && !late {
        if intents[existing.value].operation.digest != draft.operation.digest {
          return PrepareConflict;
        }
        return Replayed(existing.value);
      }
      if existing.None? && intentId in intents {
        return PrepareConflict;
      }
      ghost var start := View();
      var saved := fences;
      var token := AcquireResource(draft.resource, leaseTime);
      result := Create(intentId, draft.(status := Prepared, token := Some(token)));
      if result.PrepareConflict? {
        fences := saved;
        assert View() == start;
      }
    }

    /** A compare-and-swap without a fence, as the API writes it. */
    method CompareAndSwap(intentId: IntentId, expected: Status, next: Status) returns (swapped: bool)
      modifies this`intents
      ensures swapped <==> old(intentId in intents && intents[intentId].status == expected)
      ensures intents == if swapped then old(intents)[intentId := old(intents[intentId]).(status := next)] else old(intents)
    {
      swapped := intentId in intents && intents[intentId].status == expected;
      if swapped {
        intents := intents[intentId := intents[intentId].(status := next)];
      }
    }

    /** The manual receipt transaction; a failed swap rolls everything back. */
    method ManualReceipt(seen: Status, receipt: Receipt) returns (recorded: bool)
      requires Valid()
      modifies this
      ensures Valid()
      ensures View() == RecordManualReceipt(old(View()), seen, receipt)
    {
      var existing := FindReceipt(receipt.id);
      if existing.Some? || receipt.intentId !in intents {
        return false;
      }
      var intent := intents[receipt.intentId];
      if intent.connector.mode != ConnectorMode.ManualReceipt || !Receiptable(seen) {
        return false;
      }
      ghost var start := View();
      var savedReceipts, savedIntents := receipts, intents;
      receipts := receipts + [receipt];
      var current := seen;
      var swapped := true;
      if current == Prepared || current == Failed {
        swapped := CompareAndSwap(receipt.intentId, current, ReconciliationRequired);
        current := ReconciliationRequired;
      }
      if swapped {
        swapped := CompareAndSwap(receipt.intentId, current, TerminalStatus(intent.reversibility));
      }
      if !swapped {
        receipts, intents := savedReceipts, savedIntents;
        assert View() == start;
      } else {
        assert intents == savedIntents[receipt.intentId := intent.(status := TerminalStatus(intent.reversibility))];
      }
      recorded := swapped;
    }

    /** The status writes of the receipts route, each checked against the table first; the caller undoes a refusal. */
    method MoveThrough(intentId: IntentId, seen: Status, next: Status) returns (accepted: bool)
      requires intentId in intents
      modifies this`intents
      ensures accepted <==>
                seen == next || (old(intents[intentId].status) == seen && LegalPath(seen, ApiReceiptPath(seen, next)))
      ensures accepted ==>
                intents == if seen == next then old(intents)
                           else old(intents)[intentId := old(intents[intentId]).(status := next)]
    {
      hide LegalPath, CanTransition, ApiReceiptPath;
      PathLegality(seen, next);
      if seen == next {
        return true;
      }
      var current := seen;
      if seen == Prepared || seen == Failed {
        if !CanTransition(seen, Executing) {
          return false;
        }
        var swapped := CompareAndSwap(intentId, seen, Executing);
        if !swapped {
          return false;
        }
        current := Executing;
      }
      if !CanTransition(current, next) {
        return false;
      }
      accepted := CompareAndSwap(intentId, current, next);
    }

    /** The receipts route; a refusal rolls everything back. */
    method ApiReceipt(seen: Status, verdict: Verdict, receipt: Receipt) returns (recorded: bool)
      requires Valid()
      modifies this
      ensures Valid()
      ensures View() == RecordApiReceipt(old(View()), seen, verdict, receipt)
    {
      hide LegalPath, CanTransition;
      var existing := FindReceipt(receipt.id);
      if existing.Some? || receipt.intentId !in intents
         || intents[receipt.intentId].connector.mode != ConnectorMode.ManualReceipt {
        return false;
      }
      ghost var start := View();
      var savedReceipts, savedIntents := receipts, intents;
      receipts := receipts + [receipt];
      recorded := MoveThrough(receipt.intentId, seen, VerdictStatus(verdict, intents[receipt.intentId].reversibility));
      if !recorded {
        receipts, intents := savedReceipts, savedIntents;
        assert View() == start;
      }
    }

    /** The reconcile route: move the intent, then enqueue; a refused insert rolls both back. */
    method Reconciliation(intentId: IntentId, seen: Status, jobId: JobId, request: nat) returns (accepted: bool)
      modifies this
      ensures View() == RequestReconciliation(old(View()), intentId, seen, jobId, request)
    {
      accepted := false;
      if intentId !in intents {
        return;
      }
      if seen == Committed || seen == IrreversibleCommitted || seen == Compensated {
        return;
      }
      ghost var start := View();
      var saved := intents;
      if seen != ReconciliationRequired {
        if !CanTransition(seen, ReconciliationRequired) {
          return;
        }
        var swapped := CompareAndSwap(intentId, seen, ReconciliationRequired);
        if !swapped {
          return;
        }
      }
      var result := Enqueue(jobId, ReconcileEffect, RequestKey(request), intentId, 8, now);
      if result == EnqueueConflict {
        intents := saved;
        assert View() == start;
      } else {
        accepted := true;
      }
    }

    method Invalidate(intentId: IntentId, seen: Status)
      modifies this
      ensures View() == InvalidateIntent(old(View()), intentId, seen)
    {
      if ExternalReality(seen) && seen != RemediationRequired && seen != Compensated {
        var swapped := CompareAndSwap(intentId, seen, RemediationRequired);
      }
    }
  }

  lemma PathLegality(seen: Status, next: Status)
    ensures LegalPath(seen, ApiReceiptPath(seen, next)) <==>
              || seen == next
              || (if seen == Prepared || seen == Failed then CanTransition(seen, Executing) && CanTransition(Executing, next)
                  else CanTransition(seen, next))
  {
    assert LegalPath(next, []);
    assert [next][1..] == [];
    assert [Executing, next][1..] == [next];
    assert LegalPath(Executing, [next]) <==> CanTransition(Executing, next);
  }
}
