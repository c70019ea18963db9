# ArcDB: a verified model

ArcDB records outputs of automated work, the evidence about them, the lineage between them and the
external effects they cause. This project models its two hard cores, and the smaller ones that meet
them, in Dafny 4.11, and proves what they are for. `dafny verify dfyconfig.toml` checks all of it.

## The effect protocol

An external write is driven by durable jobs. A worker claims a job under a lease and a rising token,
loads the intent, and moves it through PREPARED, EXECUTING, COMMITTED and so on; every store call is one
transaction guarded by the job fence and by a compare-and-swap on the status, and the resource has a
rising fence of its own.

- `EffectTable`, `Tables`: the status table, the rows, and every transaction as a function of the database.
- `Database`: the same transactions as methods of a class that updates its tables row by row, each proved
  equal to its function.
- `EffectRuntime`, `EffectWorker`: a handler execution from one await to the next, as a function of the
  tables and a stale local copy, and as an object whose `Advance` is proved to be that function. The
  connector is an oracle that may answer anything, fail before or after taking effect, or throw the
  runtime's own error type.
- `JobProcessor`: how the end of a handler settles its job.
- `Protocol`: the whole system as a state machine. Any number of jobs and runs; workers, lease expiry,
  recovery, timeouts, manual receipts, the API and invalidation interleave transaction by transaction. A
  run that is never stepped again has crashed, and a run stepped after its lease has expired, or after its
  processor gave up on it, is a zombie.
- `RunSteps`, `RunInvariant`, `OutsideWriters`: what one step of a run, or of any other writer, can do.
- `Leases`, `ResourceFences`, `ReceiptSafety`, `StatusHistory`, `IntentKeys`, `JobKeys`, `JobLife`,
  `NoStrandedEffect`, `NoBlindReentry`, `ApprovedEntries`: the theorems about every state of every execution.
- `UninterruptedRuns`, `HandlerOutcomes`, `CompensationOutcomes`, `HandlerFaults`, `OutsideOutcomes`: what one
  handler execution, one fault or one call from outside comes to, in terms of what it finds and is answered.
- `TwoJobs`: an execution that shows why `NoBlindReentry` speaks of one durable job. The commit route enqueues
  one per intent (its key is fixed at apps/api/src/routes/effects.ts:488); the reconcile route enqueues one more
  per request, for an automatic write too once its connector is registered. In this build only manual receipts
  are (apps/worker/src/server.ts:37).

Begins are counted at their committed transaction, not at the connector call, which a zombie may still
make after losing its lease.

## Impact and invalidation

- `Selectors`: when two selectors may talk about the same component.
- `Impact`, `ImpactWorklist`: the worklist over (version, selector) pairs, as a function of its state with
  its termination measure, and as the loop, proved to compute that function.
- `ImpactFixpoint`, `ImpactChains`, `ImpactReasons`, `ImpactRoutes`, `ImpactCounts`, `ImpactDistance`, `ImpactOrder`,
  `ImpactExplain`: what the result is (a least fixpoint, which chains of dependencies reach), what its reasons say, when a change comes back to its source, what the analysis costs, what generations
  mean, what the result does not depend on, and what its reason graph explains. `ImpactCycle` shows why the
  theorem about generations needs its hypothesis.
- `EvidencePolicy`, `OutputMachine`, `Invalidation`: freshness and policies, the guarded life cycle of an
  output, and how an invalidation plan closes the promotion gate.

Selector lists are kept sorted by canonical text wherever they are stored, so they are modelled as sets;
identifiers are numbers, whose order stands for the locale order of strings. The report's arrays are
sorted by distinct keys, so they are modelled as maps.

## Text, artifacts, diffs, mutations, spans

- `CanonicalText`, `CanonicalJson`, `JsonReader`, `Utf8`, `Fingerprints`: canonical JSON is an unambiguous printer (key
  order as in section 3.2.3 of RFC 8785) whose text a reader after RFC 8259 reads back, and what digests and fingerprints of its UTF-8 bytes therefore identify.
- `Chunks`, `ArtifactStore`, `GarbageRace`: the chunked content-addressed store, and garbage collection as
  one pass, and as any number of passes interleaved with puts request by request.
- `Diffs`, `DiffEdits`: when the edits that JSON and text diffs report rebuild the right side, and what they are.
- `AtMostOnce`, `OfflineClient`: idempotency records, a retrying client and its offline buffer over a
  network that may lose, delay, repeat and reorder anything.
- `SpanForest`, `SpanRows`: a forest from arbitrary parent pointers, and its rows.

Hashes are parameters, assumed free of collisions where a lemma says so. The text ECMAScript gives a finite
number is taken to identify the number.

## Where the code differs from what is said about it

- Selector intersection is described as conservative (packages/lineage/src/selectors.ts:75-78), but two file
  selectors that share a file are taken for disjoint when the changed directory lies strictly inside the one
  depended on, and whenever one of them is the root "./" (`Selectors.FilesMeetExactly` says exactly when;
  `Selectors.InnerDirectoryUnseen` and `Selectors.RootUnseen` are inputs).
- Sparse arrays are meant to be refused by canonical JSON (packages/contracts/src/digest.ts:39-45), but the check
  sits inside `map`, which skips holes; `[,]` gives the text and digest of `[]` (`CanonicalJson.HoleUnseen`).
  `CanonicalJson.CanonicalTextIdentifies` says that nothing else is confused. A hole among other items gives
  text that is no JSON; `JsonReader.ReadsBack` says that this is the only case.
- Domains of digests that differ only in lone surrogates give one digest (`Fingerprints.LoneSurrogatesCollide`);
  `Fingerprints.DigestIdentifies` says what a digest does identify.
- An artifact whose manifest exceeds 16 MiB can be put but not read back (`ArtifactStore.S3ArtifactStore.Read`,
  `ArtifactStore.ManifestTooLarge`), and stops every later collection pass of its tenant
  (`ArtifactStore.S3ArtifactStore.CollectGarbage`).
- A garbage collection pass can take a chunk away under an upload that found it already stored, or, when two
  passes overlap, one that was put afresh (`GarbageRace.CarelessPutLosesChunk`,
  `GarbageRace.OverlappingPassesLoseFreshChunk`); `GarbageRace.KeptExactly` says exactly when nothing can be lost.
- A JSON diff asks for keys with `in` (packages/artifacts/src/diff.ts:27-31), which finds inherited names too: a key
  such as "constructor" or "__proto__" on one side only is compared with what `Object.prototype` holds under it
  (`Diffs.ConstructorReplaced`, `Diffs.EmptyProtoUnseen`); `Diffs.RebuildsExactly` says when the edits rebuild.
- Metadata fixed by a commit becomes editable again when the output goes stale and is verified again
  (`OutputMachine.FixedUntilReverified`, `OutputMachine.EditableAgain`).
- The generation of a version can exceed its distance from the source when a scoped change comes back to the
  source (`ImpactCycle.GenerationIsNotDistance`); otherwise it is the distance (`ImpactDistance.GenerationIsDistance`).
- A flush that throws removes nothing, so operations that succeeded before the throw are sent again later; the
  idempotency key makes that harmless (`OfflineClient.MemoryOfflineBuffer.FlushOffline`, `AtMostOnce.CommitsOnce`).

## Model

| member | source | states |
|---|---|---|
| Database.PostgresStore.Enqueue | packages/db/src/repositories/control.ts:59-104 | One job per (type, idempotency key): a repeated key returns the first job if it is for the same intent and is a conflict otherwise; whole new database state given |
| Database.PostgresStore.Claim | packages/db/src/repositories/control.ts:118-154 | Claims the earliest available job that is not locked by somebody else, raising its attempt count and token by one, or reports that every claimable job is locked; nothing else changes |
| Database.PostgresStore.Heartbeat | packages/db/src/repositories/control.ts:156-174 | Renews the lease exactly when the presented fence is held |
| Database.PostgresStore.Complete | packages/db/src/repositories/control.ts:176-198 | Ends the job exactly when the presented fence is held |
| Database.PostgresStore.Fail | apps/worker/src/job-store.ts:222-265 | Under the fence: the job is FAILED if the error is retryable and attempts remain, and otherwise a dead letter whose intent is handed to reconciliation in the same transaction; nothing at all without the fence |
| Database.PostgresStore.MarkDeadLetterEffect | apps/worker/src/job-store.ts:106-127 | Moves only an intent in PREPARED, EXECUTING, FAILED or COMPENSATION_PENDING, and only for a dead-lettered effect job |
| Database.PostgresStore.RecoverStalled | apps/worker/src/job-store.ts:291-329 | Recovers expired leases that nobody locks, earliest first, up to the limit; a pass below the limit leaves none behind; equal to recovering them one by one |
| Database.PostgresStore.BeginExternalOperation | apps/worker/src/effect-store.ts:117-170 | One transaction: under the job fence and the status compare-and-swap, a fresh larger resource token and the new status, or no change at all |
| Database.PostgresStore.Transition | apps/worker/src/effect-store.ts:172-188 | The fenced compare-and-swap on status, or no change at all |
| Database.PostgresStore.Append | apps/worker/src/effect-store.ts:190-230 | Appends under the fence; the same receipt again is accepted without a change, a different one under the same id is refused |
| Database.PostgresStore.ManualReceipt | apps/worker/src/effect-store.ts:250-290 | Receipt and status move together through the table, or everything rolls back |
| Database.PostgresStore.ApiReceipt | apps/api/src/routes/effects.ts:513-640 | The receipts route appends and walks the status along legal edges, or rolls back |
| Database.PostgresStore.Reconciliation | apps/api/src/routes/effects.ts:642-710 | The reconcile route moves the intent, unless it is settled, and enqueues its job in one transaction, or changes nothing |
| Database.PostgresStore.Prepare | apps/api/src/routes/effects.ts:204-355 | The earlier intent under the key is replayed or the request is a conflict, also when only the unique index of the insert finds it; otherwise a new intent is PREPARED with a fresh resource token; a conflict changes nothing |
| Database.PostgresStore.Invalidate | apps/api/src/routes/lineage.ts:492-505 | Invalidation moves an intent with an external reality to REMEDIATION_REQUIRED if its status is still the one seen, and changes nothing otherwise |
| EffectWorker.HandlerRun.Advance | apps/worker/src/effects.ts:119-219 | The handler object, run from one await to the next, is exactly one `Step` of the protocol: same branch, same table change, same events, for every oracle and every stale local copy |
| EffectWorker.HandlerRun.TransitionTo | apps/worker/src/effects.ts:265-297 | Table check, then the fenced swap; a conflict is a retryable error, a lost answer leaves the local copy stale |
| EffectWorker.HandlerRun.BeginExternalOperation | apps/worker/src/effects.ts:299-335 | The only place an external operation is begun; success arms the catch block |
| EffectWorker.HandlerRun.CallOut | apps/worker/src/effects.ts:384-644 | Connector calls and the fence checks around them, with their try/catch: unknown outcomes go to reconciliation, the runtime's own error type passes through |
| EffectWorker.HandlerRun.PersistReceipt | apps/worker/src/effects.ts:504-530 | Receipt first, status afterwards |
| EffectWorker.HandlerRun.ReconcileEffectJob | apps/worker/src/effects.ts:119-171 | Dispatch of an execution job on its receipts, connector, status and approval; what it comes to is proved in `HandlerOutcomes`, and over executions in `ApprovedEntries` |
| EffectWorker.HandlerRun.RunCompensationJob | apps/worker/src/effects.ts:173-219 | Dispatch of a compensation job on its receipts and status; what it comes to is proved in `CompensationOutcomes` |
| Leases.LeasesHold | packages/db/src/repositories/control.ts:118-249 | In every reachable state tokens equal attempts, a lease exists exactly while running, and later runs of a job carry larger tokens |
| Leases.OneHolder | packages/db/src/repositories/control.ts:118-198 | Of all runs a job ever had, at most one holds its fence, and it is the latest |
| Leases.StaleChangesNothing | apps/worker/src/effect-store.ts:64-93 | No step of a run without the fence changes any table |
| Leases.StaleStaysStale | packages/db/src/repositories/control.ts:156-198 | A lost fence is never regained, through any step of anybody |
| Leases.AttemptsBounded | packages/db/src/repositories/control.ts:118-154 | In every execution a job is run at most max_attempts times |
| Leases.NoJobIsStuck | apps/worker/src/job-store.ts:222-329 | An unfinished job can always be claimed or recovered after a finite wait |
| Leases.TerminalIsForever | packages/db/src/repositories/control.ts:176-249 | SUCCEEDED and DEAD_LETTER rows are frozen in every continuation |
| ResourceFences.TokensRise | packages/db/src/repositories/lifecycle.ts:736-760 | On one resource every begin takes a strictly larger token than all before it |
| ResourceFences.OnlyTheLatestAcquirer | apps/worker/src/effects.ts:345-366 | In every reachable state a run that passes the external fence check holds the token of the last acquisition of its resource |
| ResourceFences.EarlierAcquirersFail | apps/worker/src/effects.ts:345-366 | A run holding an earlier token fails the check as soon as anybody has acquired the resource after it |
| ReceiptSafety.ReceiptBeforeStatus | apps/worker/src/effects.ts:504-545 | In every reachable state, with all writers interleaved: COMMITTED and IRREVERSIBLE_COMMITTED have a durable receipt and fit the reversibility, COMPENSATED has a compensation receipt |
| ReceiptSafety.ReceiptsAppendOnly | packages/db/src/repositories/lifecycle.ts:686-721 | The receipt table of an execution is a prefix of that of any continuation |
| OutsideWriters.OutsideStep | apps/api/src/routes/effects.ts:569-607 | Dead-lettering, manual receipts, API calls and invalidation change the tables only as one receipt plus one legal path of statuses of one intent |
| StatusHistory.EveryWriteIsAnEdge | packages/lifecycle/src/effects.ts:14-38 | Every status write of every writer starts at the status the history had reached, which is one of the sources listed for its target, and is an edge of the transition table |
| StatusHistory.HistoriesArePaths | packages/lifecycle/src/effects.ts:14-38 | Replaying the log of writes gives the stored status of every intent |
| StatusHistory.CompensatedIsForever | packages/lifecycle/src/effects.ts:14-31 | COMPENSATED is absorbing in every continuation |
| IntentKeys.OnePerKey | packages/db/src/repositories/lifecycle.ts:495-577 | In every reachable state at most one intent is stored for a connector type and idempotency key |
| IntentKeys.PreparedOnce | apps/api/src/routes/effects.ts:204-355 | Over any execution, racing lookups included: once the route has answered with an intent, every later answer for the same key replays that very intent or is a conflict |
| IntentKeys.AnswerFits | packages/lifecycle/src/effects.ts:81-98 | An answer names an intent stored under the key, with the request's operation digest or, after a race, its columns |
| NoStrandedEffect.InFlightHasJob | apps/worker/src/job-store.ts:106-126 | With any number of jobs, workers, crashes and zombies, an intent in EXECUTING or COMPENSATION_PENDING has an unfinished effect job of its own |
| NoStrandedEffect.NothingStranded | apps/worker/src/processor.ts:217-301 | Once all effect jobs of an intent are SUCCEEDED or DEAD_LETTER it is in neither in-flight status |
| NoBlindReentry.NoBlindReentry | apps/worker/src/effects.ts:384-502 | While one durable job drives an automatic-write intent, between any two begins of its execution lies a definitive failure or absence, observed by the run of the first begin or a later one |
| NoBlindReentry.NoEntryAfterReceipt | apps/worker/src/effects.ts:119-131 | Under the same hypothesis nothing is begun once an execution receipt is durable |
| Selectors.PrefixTokensIntersect | packages/lineage/src/selectors.ts:5-15 | The loop decides whether two JSON path patterns meet |
| Selectors.PrefixTokensSound | packages/lineage/src/selectors.ts:5-36 | Two JSON path patterns meet exactly when some concrete path lies under both |
| Selectors.DottedSound | packages/lineage/src/selectors.ts:64-73 | Two column patterns meet exactly when some concrete column is named by both |
| Selectors.FilesMeetExactly | packages/lineage/src/selectors.ts:38-62 | Globs meet everything; otherwise two file selectors meet exactly when a concrete file is covered by both, unless the left directory lies strictly inside the right one or exactly one of them is the root; the order of the arguments matters exactly for one directory strictly inside the other |
| Selectors.InnerDirectoryUnseen | packages/lineage/src/selectors.ts:46-62 | A concrete nested pair of directories of which only one order is seen |
| Selectors.RootUnseen | packages/lineage/src/selectors.ts:46-62 | The root and a directory below it, unseen in either order |
| ImpactWorklist.ComputeImpact | packages/lineage/src/impact.ts:153-334 | The loop terminates and computes the analysis; without transfer functions a version is affected exactly when it is the source or a chain of dependencies leads to it from the source, the first of which names something that the delta names too |
| ImpactWorklist.VisitBatch | packages/lineage/src/impact.ts:203-305 | The inner loop over the outgoing edges of one batch of new selectors |
| ImpactWorklist.Examine | packages/lineage/src/impact.ts:205-276 | The decision for one edge: disjoint, rejected, unchanged, or what is propagated and why |
| Impact.DequeueFits | packages/lineage/src/impact.ts:182-204 | Each round lowers (pairs not yet pushed, queue length) lexicographically and stays in the universe |
| ImpactFixpoint.ImpactIsLeast | packages/lineage/src/impact.ts:167-305 | With transfer functions that act selector by selector, the result is exactly the least set of (version, selector) pairs that contains the delta at the source and is closed under the edges |
| ImpactFixpoint.PlainImpactIsLeast | packages/lineage/src/impact.ts:167-305 | The same without any hypothesis when no transfer function is registered, as the API calls it |
| ImpactFixpoint.PlainIsSelectorWise | packages/lineage/src/impact.ts:205-254 | Without transfer functions the hypothesis holds, whatever the fingerprint resolver |
| ImpactCounts.AffectedAndSkipped | packages/lineage/src/impact.ts:134-147 | Affected and skipped versions are disjoint and together are the source and all targets of edges leaving affected versions |
| ImpactRoutes.LeastReturns | packages/lineage/src/impact.ts:205-305 | In the least set of pairs the source holds the unknown selector exactly when a nonempty route of carrying edges leads back to it, a condition on the input alone |
| ImpactCounts.BackIsReturn | packages/lineage/src/impact.ts:278-305 | The reason graph of the analysis leads back to the source exactly when such a route does |
| ImpactCounts.VisitedExactly | packages/lineage/src/impact.ts:182-206 | Without transfer functions the analysis succeeds, and the number of visited edges is exactly the number of edges leaving affected versions, plus the out-degree of the source exactly when the delta is scoped and a route returns to the source; never more than all edges plus that out-degree |
| ImpactDistance.GenerationBounds | packages/lineage/src/impact.ts:182-305 | Without transfer functions, on every graph and for every delta: each generation is the length of some route that the unscoped change could take, and at most the length of any route that the scoped change takes |
| ImpactDistance.AffectedExactly | packages/lineage/src/impact.ts:182-305 | The affected versions are exactly those a carrying route reaches, or, once a scoped change comes back to its source, those the unscoped change would reach |
| ImpactDistance.ScopedNeverSooner | packages/lineage/src/impact.ts:182-305 | A scoped change affects nothing that the unscoped one does not, and nothing at a smaller generation |
| ImpactDistance.ExactWhereRoutesAgree | packages/lineage/src/impact.ts:278-306 | With or without a return, the generation is the distance of every version whose shortest scoped and unscoped routes have one length |
| ImpactDistance.GenerationIsDistance | packages/lineage/src/impact.ts:278-306 | Without transfer functions, if the delta is unscoped or no route returns to the source, the affected versions are those a route reaches and each generation is the length of a shortest one |
| ImpactDistance.AcyclicIsExact | packages/lineage/src/impact.ts:167-306 | On an acyclic graph generations are distances and the visited edges are exactly the edges leaving affected versions |
| ImpactOrder.OrderDoesNotMatter | packages/lineage/src/impact.ts:156-165 | Any permutation of edges with distinct ids gives the identical result, reasons and order included |
| ImpactOrder.RestrictionIsEnough | apps/api/src/routes/lineage.ts:153-185 | Analysing only the edges around a closed region of the source gives the identical result |
| ImpactOrder.ReachableEdges | apps/api/src/routes/lineage.ts:153-185 | Returns exactly the edges leaving the versions reachable from the source, each once, or refuses exactly when they are more than 10,000 |
| ImpactExplain.ReasonsAreGrounded | packages/lineage/src/impact.ts:278-305 | The reason graph records real edges, is grounded in the source, and enters exactly the affected versions |
| ImpactExplain.ExplainImpact | packages/lineage/src/invalidation.ts:317-353 | Each explanation is a chain of affected edges from the source to the version; on a grounded reason graph there is one exactly when an affected edge enters the version; every affected edge that leaves the source, and from whose end the version is reached past the source, opens one of them |
| EvidencePolicy.CheckRequirement | packages/lifecycle/src/evidence-policy.ts:215-277 | A requirement passes exactly when some record is about the subject, fresh, passing and confident; otherwise the failure kind says which of these was missing |
| EvidencePolicy.EvaluateEvidencePolicy | packages/lifecycle/src/evidence-policy.ts:187-290 | Approves exactly when every requirement finds a record; matches the first record accepted for each, in order, and reports one failure of the right kind for every other |
| EvidencePolicy.StaleDenies | packages/lifecycle/src/evidence-policy.ts:92-101 | Stale records satisfy no policy, at any time |
| OutputMachine.TransitionOutput | packages/lifecycle/src/output-machine.ts:187-273 | An output is moved exactly when every guard passes, and then only its state and time change; otherwise the error is that of the first guard that fails |
| OutputMachine.FixedUntilReverified | packages/lifecycle/src/output-machine.ts:116-144 | Metadata fixed by a commit stays fixed along a sequence of transitions exactly as long as the output is not verified again |
| OutputMachine.EditableAgain | packages/lifecycle/src/output-machine.ts:23-35 | Every committed output has an allowed sequence, by way of STALE, after which its metadata can be edited |
| OutputMachine.ShutStaysShut | packages/lifecycle/src/output-machine.ts:23-35 | With only stale evidence about it, an output that is STALE, INVALIDATED, REJECTED or SUPERSEDED stays among those through any sequence of allowed transitions |
| Invalidation.PlannedMovesAreLegal | packages/lineage/src/invalidation.ts:144-154 | Each planned move is an edge of the output table, and none is planned exactly where nothing is left to do |
| Invalidation.CreateInvalidationPlan | packages/lineage/src/invalidation.ts:178-282 | The plan holds every move that is due for the affected versions and nothing else; applied, it leaves the source INVALIDATED, what depends on it STALE, and everything else, rejected, superseded and invalidated outputs included, as it was |
| Invalidation.SortedNodes | packages/lineage/src/impact.ts:307-317 | Affected nodes by generation, then id |
| Invalidation.AffectedOutputsShut | packages/lineage/src/invalidation.ts:284-308 | After applying a plan every affected output is shut and every other one is in its old state |
| Invalidation.AffectedEvidenceStale | packages/lineage/src/invalidation.ts:308-315 | After applying a plan all evidence about affected versions is stale |
| Invalidation.EveryPolicyDenies | packages/lifecycle/src/evidence-policy.ts:205-258 | Every policy denies every affected version on that evidence |
| Invalidation.GateClosed | packages/lifecycle/src/output-machine.ts:187-220 | No sequence of allowed transitions that offers only that evidence verifies, commits or promotes an affected output |
| Invalidation.ReplanIsEmpty | packages/lineage/src/invalidation.ts:189-220 | Planning again on the result yields no transition |
| CanonicalText.QuotedUnique | packages/contracts/src/digest.ts:21-22 | A quoted string, escapes and lone surrogates included, can be read back from the front of any text |
| CanonicalText.JoinUnique | packages/contracts/src/digest.ts:39-62 | A comma-separated list of parts, each empty or self-delimiting, can be read back; only no part and one empty part look alike |
| CanonicalJson.SortedKeysIncrease | packages/contracts/src/digest.ts:56-57 | Keys are printed in strictly increasing code unit order, each once |
| CanonicalJson.PrintUnique | packages/contracts/src/digest.ts:15-74 | No value's text, arrays with holes included, is a proper part of the front of another's |
| CanonicalJson.CanonicalTextIdentifies | packages/contracts/src/digest.ts:80-82 | Two values print alike exactly when they are equal up to key order, the sign of zero and reading an array of one hole as empty |
| CanonicalJson.HoleUnseen | packages/contracts/src/digest.ts:38-49 | A sparse array is not refused, and the one-hole array prints like the empty one |
| Utf8.BytesIdentify | packages/contracts/src/digest.ts:84-91 | Two texts have the same UTF-8 bytes exactly when they have the same scalars, and well-formed texts exactly when they are equal |
| Fingerprints.PrintSound | packages/contracts/src/digest.ts:15-62 | Canonical text has no lone surrogate and no NUL |
| Fingerprints.DigestIdentifies | packages/contracts/src/digest.ts:84-91 | With a collision-free hash of bytes, for every domain: digests are equal exactly when the domains have the same scalars and the values are equal up to key order, the sign of zero and a lone hole; well-formed domains exactly when they are equal |
| Fingerprints.LoneSurrogatesCollide | packages/contracts/src/digest.ts:84-91 | Two different ill-formed domains that no hash tells apart |
| Fingerprints.FingerprintIdentifies | packages/contracts/src/digest.ts:122-134 | Equal evidence fingerprints mean equal scope, dependencies in any order |
| ArtifactStore.S3ArtifactStore.PutStream | packages/artifacts/src/s3-store.ts:218-266 | The staged manifest depends only on the concatenation of the stream, every chunk is stored, and nothing stored before changes |
| ArtifactStore.S3ArtifactStore.PutBytes | packages/artifacts/src/s3-store.ts:268-289 | Staging and finalizing leave the artifact intact under its reference |
| ArtifactStore.S3ArtifactStore.Read | packages/artifacts/src/s3-store.ts:291-359 | On an arbitrarily corrupted store, what is yielded is a prefix of the original and success yields all of it; on an intact store it succeeds exactly when the manifest fits the 16 MiB collection limit |
| ArtifactStore.ManifestTooLarge | packages/artifacts/src/s3-store.ts:252-266 | Content of more than 262,144 chunks has a manifest above the collection limit, if a listed chunk takes at least the digits of its digest |
| ArtifactStore.S3ArtifactStore.CollectGarbage | packages/artifacts/src/s3-store.ts:425-507 | Deletes exactly the unreachable chunks of the tenant older than the cutoff and reports how many it saw and deleted; deletes nothing and gives up exactly when some manifest of the tenant cannot be parsed; every intact artifact stays intact |
| GarbageRace.KeptExactly | packages/artifacts/src/s3-store.ts:425-507 | From any state, whatever manifests, old chunks, garbage and running passes it holds: no careful continuation ever misses a chunk that a stored manifest lists exactly when every needed chunk is stored, beyond the reach of the running passes, and either young or listed |
| GarbageRace.CareIsExact | packages/artifacts/src/s3-store.ts:197-216 | A step from such a state leads to such a state exactly when it is no put that settles for a chunk a pass can still delete, or for an old chunk that no manifest lists |
| GarbageRace.ManifestsStayReadable | packages/artifacts/src/s3-store.ts:425-507 | With puts and any number of passes interleaved request by request, from any such state: at every moment of a careful run every chunk a stored manifest lists is stored |
| GarbageRace.OnePassAtATime | packages/artifacts/src/s3-store.ts:425-507 | When passes do not overlap and the clock is past the cutoff, it is enough that no put dedups onto an old chunk that no manifest lists |
| GarbageRace.CollectsAroundAnUpload | packages/artifacts/src/s3-store.ts:425-507 | A concrete such run in which an upload reuses an old listed chunk and puts a new one while the pass deletes garbage |
| GarbageRace.CarelessPutLosesChunk | packages/artifacts/src/s3-store.ts:197-216 | After any put that was not careful there is a continuation, careful itself, in which a stored manifest lists a chunk that is gone |
| GarbageRace.OverlappingPassesLoseFreshChunk | packages/artifacts/src/s3-store.ts:480-492 | A concrete run in which one of two overlapping passes deletes a chunk that was put afresh after the other deleted it |
| AtMostOnce.IdempotencyStore.Mutate | apps/api/src/idempotency.ts:56-134 | Insert, run, complete, or roll back: one transaction |
| AtMostOnce.CommitsOnce | apps/api/src/idempotency.ts:69-133 | For any loss, delay, repetition and reordering of requests and responses: one commit per key, and every success a call sees is that commit's answer |
| AtMostOnce.BufferedUntilCommitted | packages/sdk-typescript/src/client.ts:440-455 | A buffered operation is in the buffer until it has committed |
| OfflineClient.Send | packages/sdk-typescript/src/client.ts:503-547 | Attempts go on exactly through lost connections and retryable refusals, up to the limit; the answer is the last one |
| OfflineClient.MemoryOfflineBuffer.FlushOffline | packages/sdk-typescript/src/client.ts:440-455 | A flush sends the longest front of the batch whose sends all end in success; it throws exactly when the next one ends unreachable or in a refusal that is not retryable, and then removes nothing; otherwise it removes exactly that front |
| OfflineClient.MemoryOfflineBuffer.Remove | packages/sdk-typescript/src/offline.ts:49-51 | Removes the given ids and keeps the order of the rest |
| SpanForest.WouldCreateCycle | apps/web/src/lib/span-tree.ts:11-20 | The walk over parent pointers terminates and decides whether the chain of ancestors is endless |
| SpanForest.BuildSpanForest | apps/web/src/lib/span-tree.ts:22-45 | The first span of each id stands in exactly one place, under its parent or among the roots, siblings in order of start time and id |
| SpanRows.FlattenSpanTree | apps/web/src/lib/span-tree.ts:47-57 | For arbitrary parent pointers, every distinct id is listed exactly once, at the length of its chain of known ancestors, or 0 when that chain is cyclic; ancestors before what hangs below them, earlier siblings with all below them before later ones |
| SpanRows.OrderedUnique | apps/web/src/lib/span-tree.ts:47-57 | That order leaves no choice: two ordered lists of the same rows are equal |
| TwoJobs.TwoJobsReenterBlindly | apps/worker/src/effects.ts:255-263 | A concrete execution in which two jobs on one intent begin it twice with no denial in between: the one-job hypothesis cannot be dropped |
| ImpactCycle.GenerationIsNotDistance | packages/lineage/src/impact.ts:278-304 | A concrete graph with a route back to the source and a scoped delta for which a generation exceeds the distance over affected edges: the hypothesis of the distance theorem cannot be dropped |
| JobProcessor.Settle | apps/worker/src/processor.ts:217-301 | However a handler ends, one store call settles the job: a retry is scheduled exactly for a retryable error or a timeout with attempts left, a dead letter exactly for a permanent error, a result that is no JSON, or the last attempt; with the new rows of each |
| JobProcessor.SettlingIsReporting | apps/worker/src/processor.ts:217-301 | Settling is an enabled action of the state machine with the same effect on the tables |
| Diffs.RebuildsExactly | packages/artifacts/src/diff.ts:8-37 | For all JSON documents: the edits of a diff, applied in order to the left side, give the right side exactly when wherever two objects are compared no name inherited from Object.prototype is an own key of just one of them |
| Diffs.OrdinaryRebuilds | packages/artifacts/src/diff.ts:8-37 | Between documents without such keys a diff always rebuilds |
| Diffs.ConstructorReplaced | packages/artifacts/src/diff.ts:27-33 | A concrete pair, one side with an own key "constructor": it is replaced, by a function or where it is not there, instead of removed or added, and nothing is rebuilt either way |
| Diffs.EmptyProtoUnseen | packages/artifacts/src/diff.ts:27-33 | An own "__proto__" holding an empty object is not reported at all |
| Diffs.DiffJson | packages/artifacts/src/diff.ts:8-37 | The path-carrying recursion, inherited values included, ends and reports exactly those edits under its path |
| Diffs.DiffText | packages/artifacts/src/diff.ts:40-69 | One hunk turns the left lines into the right ones, starts where they first differ and has nothing in common left at either end; none exactly when they are equal |
| EffectTable.EdgesInto | packages/lifecycle/src/effects.ts:14-31 | The transition table read by its targets: for each status the ones that may come directly before it |
| JobKeys.NewKeyStartsJob | packages/db/src/repositories/control.ts:59-104 | An unused key starts a pending job that can be claimed exactly from its available time on |
| JobKeys.UsedKeyNamesJob | packages/db/src/repositories/control.ts:59-104 | A used key starts nothing: it names its job if that is for the same intent, and is a conflict otherwise |
| JobKeys.EnqueuedOnce | packages/db/src/repositories/control.ts:59-104 | Over any execution a job type and key start at most one job |
| JobLife.ClaimLasts | packages/db/src/repositories/control.ts:118-154 | A claimed job is held by its new run for exactly the time of its lease and can be recovered exactly from then on |
| JobLife.HeartbeatLasts | packages/db/src/repositories/control.ts:156-174 | A heartbeat of the holder lets the lease last exactly that long from now |
| JobLife.HoldersAreClaimants | apps/worker/src/effect-store.ts:64-93 | Whoever holds a fence is the worker of the running claim, under its token, before its lease runs out |
| JobLife.CompletionEnds | packages/db/src/repositories/control.ts:176-198 | A completion by the holder ends the job as succeeded and touches nothing else |
| JobLife.PermanentFailureEnds | apps/worker/src/job-store.ts:237-258 | A permanent failure under the fence dead-letters the job whatever attempts are left, and hands its intent over |
| JobLife.LastFailureEnds | apps/worker/src/job-store.ts:237-258 | So does any failure of the last attempt |
| JobLife.RetryableFailureWaits | apps/worker/src/job-store.ts:222-265 | After a retryable failure with attempts left the job can be claimed exactly from the given time on |
| JobLife.RecoveryEnds | apps/worker/src/job-store.ts:291-329 | Recovery touches a job exactly when its lease has run out: it can be claimed at once, or, on its last attempt, is dead-lettered |
| JobLife.NeverClaimedAgain | apps/worker/src/job-store.ts:237-258 | In every continuation of an execution nobody claims a job after its permanent failure |
| ApprovedEntries.EntryWasApproved | apps/worker/src/effects.ts:389-398 | Over every execution: each begin of an external execution was let through beforehand by its own run, which had found no receipt, had an automatic connector that takes keys and answers for them, and, for an R3 effect, an approval |
| ApprovedEntries.CompensationWasFenced | apps/worker/src/effects.ts:547-572 | Over every execution: a connector is asked to compensate only by a run that has found itself still in charge of the resource after its begin |
| HandlerOutcomes.ExecutionSucceeds | apps/worker/src/effects.ts:384-451 | Left alone, a job that finds a PREPARED or FAILED automatic intent without a receipt, not R3 or approved, begins it, and a success ends committed with its receipt |
| HandlerOutcomes.ExecutionDenied | apps/worker/src/effects.ts:432-451 | A definitive failure ends FAILED, to be retried exactly when the connector says so |
| HandlerOutcomes.ExecutionUnknown | apps/worker/src/effects.ts:415-431 | An unknown outcome ends in reconciliation |
| HandlerOutcomes.UnapprovedIsHeldBack | apps/worker/src/effects.ts:389-398 | An R3 intent without approval is not begun but ends in reconciliation with a permanent error |
| HandlerOutcomes.QueryFinds | apps/worker/src/effects.ts:453-502 | An intent found EXECUTING or in reconciliation is asked about, not begun; found, its receipt is stored and it is committed |
| HandlerOutcomes.QueryDenies | apps/worker/src/effects.ts:453-502 | Definitively absent, it is FAILED and retried |
| HandlerOutcomes.QueryLeavesOpen | apps/worker/src/effects.ts:453-502 | Anything less leaves it in reconciliation |
| HandlerOutcomes.ReceiptCommits | apps/worker/src/effects.ts:532-545 | With a durable receipt of execution the intent is committed without asking anybody, where the table allows |
| HandlerOutcomes.ReceiptChangesNothing | apps/worker/src/effects.ts:532-545 | An intent already committed stays so; a receipt found once remediation has begun is a permanent error |
| HandlerOutcomes.SettledIsLeft | apps/worker/src/effects.ts:134-140 | A settled intent is left alone |
| HandlerOutcomes.PendingCompensationRefused | apps/worker/src/effects.ts:163-168 | An execution job for an intent whose compensation is under way fails for good |
| HandlerOutcomes.ManualWaits | apps/worker/src/effects.ts:142-159 | A manual intent is never begun: it waits for its receipt in reconciliation |
| HandlerOutcomes.ManualMustNotAct | apps/worker/src/effects.ts:145-150 | A manual connector that claims to have acted is a permanent error |
| HandlerOutcomes.UnsafeIsHeldBack | apps/worker/src/effects.ts:236-253 | Without a connector that is safe to drive neither job begins anything; unsettled work goes to reconciliation |
| CompensationOutcomes.CompensationSucceeds | apps/worker/src/effects.ts:547-606 | A committed intent, or one whose earlier compensation definitively did not happen, is compensated with its receipt |
| CompensationOutcomes.CompensationDenied | apps/worker/src/effects.ts:593-606 | A definitive failure needs remediation, and is retried exactly when the connector says so |
| CompensationOutcomes.CompensationUnknown | apps/worker/src/effects.ts:583-592 | An unknown outcome ends in reconciliation |
| CompensationOutcomes.CompensationFound | apps/worker/src/effects.ts:608-644 | An earlier compensation that is found is recorded and ends it, without a second one |
| CompensationOutcomes.CompensationLeftOpen | apps/worker/src/effects.ts:608-644 | Without a definitive answer it stays in reconciliation |
| CompensationOutcomes.NothingToCompensate | apps/worker/src/effects.ts:198-219 | What was never committed, or cannot be undone, is a permanent error; what is undone is left alone |
| CompensationOutcomes.ReceiptCompensates | apps/worker/src/effects.ts:646-656 | With a durable compensation receipt the intent is compensated without asking anybody, where the table allows |
| CompensationOutcomes.UnsupportedNeedsRemedy | apps/worker/src/effects.ts:179-190 | A connector or intent that cannot compensate leaves what was applied to be remedied |
| HandlerFaults.CallThrows | apps/worker/src/effects.ts:384-413 | A call that throws counts as an unknown outcome: to reconciliation, and retried |
| HandlerFaults.ResourceLost | apps/worker/src/effects.ts:345-366 | An answer that arrives after the resource has passed on is not trusted |
| HandlerFaults.WriteRefused | apps/worker/src/effects.ts:265-335 | A write without the fence, or over a row somebody else has moved, changes nothing and is retried |
| HandlerFaults.ReceiptRefused | apps/worker/src/effects.ts:504-530 | A receipt under the identifier of a different one is refused for good |
| HandlerFaults.AnswerLost | apps/worker/src/effects.ts:265-335 | When only the answer of a write is lost, the write stands and the handler fails |
| OutsideOutcomes.NewIsPrepared | apps/api/src/routes/effects.ts:204-355 | An operation whose key is new is stored as PREPARED under the next token of its resource, and nothing else changes |
| OutsideOutcomes.KnownIsReplayed | apps/api/src/routes/effects.ts:204-355 | A known one is replayed for the same request and refused for another; nothing is stored |
| OutsideOutcomes.ManualReceiptCommits | apps/worker/src/effect-store.ts:250-290 | A manual receipt commits a manual intent that is PREPARED, EXECUTING, FAILED or in reconciliation as it was seen, and does nothing else at all |
| OutsideOutcomes.ApiReceiptReports | apps/api/src/routes/effects.ts:513-640 | A receipt through the API moves such an intent to what it reports, an uncertain one reopens a pending compensation, and one that reports what was seen is only recorded; nothing else changes |
| OutsideOutcomes.ReceiptWrites | apps/api/src/routes/effects.ts:569-607 | The statuses written on the way: through EXECUTING for the API, through reconciliation for the worker |
| OutsideOutcomes.ReconciliationQueues | apps/api/src/routes/effects.ts:642-710 | A new request moves an intent that is in flight or waiting to reconciliation and queues a job of eight attempts for it, or changes nothing |
| OutsideOutcomes.RepeatedRequestQueuesNothing | apps/api/src/routes/effects.ts:642-710 | A repeated one queues nothing, and moves the intent only if its job is about that intent |
| OutsideOutcomes.InvalidationDemandsRemediation | packages/lineage/src/invalidation.ts:106-113 | Exactly committed, irreversibly committed, reconciling and compensating intents, as they were seen, are moved to REMEDIATION_REQUIRED |
| OutsideOutcomes.BeginFences | packages/db/src/repositories/lifecycle.ts:736-760 | A begin fences its resource under the next token, current for exactly the time of its lease, and no other token is |
| Selectors.IntersectExactly | packages/lineage/src/selectors.ts:79-108 | Selectors intersect exactly when one is unknown, or both are paths of which one is unparsed, or they share a file as `FilesMeetExactly` says, or one real place, column, symbol or record is named by both; different known kinds share nothing |
| Selectors.NormalizedMeans | packages/lineage/src/selectors.ts:39-44 | A normalised file selector is made of the same names, with single slashes and no backslash, and begins and ends as it did |
| ImpactChains.TouchedExactly | packages/lineage/src/impact.ts:159-305 | With transfer functions that act selector by selector: a change of a selector at a version is found exactly when the delta has it or a chain of edges, each handing on what the one before it left, leads to it |
| ImpactChains.DependentsAreAffected | packages/lineage/src/impact.ts:159-305 | Without transfer functions: affected are exactly the source and what a path of dependencies leads to whose first edge depends on something the delta names |
| ImpactChains.SharedPlaceIsAffected | packages/lineage/src/impact.ts:205-217 | In particular the target of an edge leaving the source whose JSON path shares a place with the delta |
| ImpactReasons.ReportIsRight | packages/lineage/src/impact.ts:134-334 | In every report each edge looked at has the reason that its selector, transfer function and fingerprint call for, an affected version lists exactly the edges that affect it, and a skipped one exactly its edges and their reasons |
| EvidencePolicy.AcceptedExactly | packages/lifecycle/src/evidence-policy.ts:92-146 | A record is accepted exactly when none of the ten reasons against it applies, it passes, and it is confident enough |
| EvidencePolicy.ReasonsApply | packages/lifecycle/src/evidence-policy.ts:92-146 | The freshness reasons reported are exactly those that apply |
| EvidencePolicy.FreshInWindow | packages/lifecycle/src/evidence-policy.ts:130-147 | A record speaks for its version for one stretch of time: from its creation until it expires or is too old |
| OutputMachine.EdgesInto | packages/lifecycle/src/output-machine.ts:23-35 | The life cycle table read by its targets: for each state the ones that may come directly before it |
| OutputMachine.NothingUnearned | packages/lifecycle/src/output-machine.ts:187-253 | Whatever has happened to a new output: if it is committed, consumed or promoted, the requests that last brought it there verified it under its policy, then approved it, then committed it with complete provenance and the current token, one directly after the other; a promotion had the expected head, the current token and its policy |
| OutputMachine.FullLife | packages/lifecycle/src/output-machine.ts:23-35 | A new output can be staged, verified, approved, committed, consumed, promoted and superseded in this order |
| OutputMachine.TimesRise | packages/lifecycle/src/output-machine.ts:190-199 | Along allowed transitions time never runs backwards |
| OutputMachine.InvalidatedIsLost | packages/lifecycle/src/output-machine.ts:31-34 | A rejected, invalidated or superseded output can at most be superseded, whatever evidence is offered |
| Invalidation.StatesAfterPlan | packages/lineage/src/invalidation.ts:144-154 | After a plan is applied the source is INVALIDATED and every other affected output STALE, unless it was rejected, superseded or invalidated; unaffected ones are untouched |
| Invalidation.OnlyDependentsRecover | packages/lineage/src/invalidation.ts:144-154 | Each output that went stale so can be verified on fresh evidence, and promoted; the source never again |
| Invalidation.EvidenceAfterPlan | packages/lineage/src/invalidation.ts:211-219 | Exactly the evidence about affected versions is stale after the plan, and all other records are untouched |
| CanonicalJson.FirstDifference | packages/contracts/src/digest.ts:60-62 | Keys are ordered by the first code unit in which they differ |
| CanonicalJson.RefusedExactly | packages/contracts/src/digest.ts:15-74 | Refused are exactly values that hold something unsupported somewhere |
| JsonReader.ReadsBack | packages/contracts/src/digest.ts:15-82 | A JSON reader gets the value back from its canonical text, at the front of any text, up to the sign of zero and a lone hole, exactly when no array has a hole among other items; otherwise it can read nothing |
| JsonReader.EscapesAreShort | packages/contracts/src/digest.ts:20-22 | Characters are escaped exactly where they must be, in the shortest way |
| Utf8.DecodesBack | packages/contracts/src/digest.ts:84-91 | The bytes hashed decode to the scalars of the text, as section 3 of RFC 3629 has it |
| Utf8.UnitsBack | packages/contracts/src/digest.ts:84-91 | Well-formed text is the code units of its scalars |
| Fingerprints.PreimageReads | packages/contracts/src/digest.ts:84-91 | What is hashed can be taken apart: the version, the domain, and UTF-8 of JSON text that reads back as the value |
| Fingerprints.ScopeSpelled | packages/contracts/src/digest.ts:122-134 | The six names under which a scope is hashed, and their values; dependencies in ascending order |
| Fingerprints.FingerprintHashes | packages/contracts/src/digest.ts:122-134 | A fingerprint is the hash of the version, the domain "evidence-scope" and the text of the scope |
| Chunks.ChunkSizes | packages/artifacts/src/s3-store.ts:222-253 | All chunks but the last are full and the last is neither empty nor larger, except that nothing at all is one empty chunk |
| AtMostOnce.ReplayedForEver | apps/api/src/idempotency.ts:56-134 | In every reachable state a request under a committed key changes nothing: the same one is answered as it was, any other is refused for good |
| AtMostOnce.FreshKeyRuns | apps/api/src/idempotency.ts:56-134 | Under a free key the operation runs, and commits exactly when it succeeds |
| DiffEdits.EditsExact | packages/artifacts/src/diff.ts:8-37 | Between documents without inherited names: each edit says what differs at its path and cannot be told further down, edits are in the order of their paths with none below another, and there is none exactly between equal documents |
| HandlerOutcomes.ReceiptsCount | apps/worker/src/effects.ts:62-71 | Which receipts count as one of an execution and as one of a compensation |
| JobLife.ReportedRunsRest | apps/worker/src/processor.ts:217-301 | A run that has reported its return or its error takes no further step that changes anything |
| Utf8.UnitsRepaired | packages/contracts/src/digest.ts:84-91 | Whatever the text, what is encoded is the text with every lone surrogate replaced by U+FFFD |
| AtMostOnce.CallHears | packages/sdk-typescript/src/client.ts:503-547 | A call ends with a success or a final refusal and goes on after a retryable one while attempts are left |
| AtMostOnce.CallLosesConnection | packages/sdk-typescript/src/client.ts:503-547 | Without a response it goes on too, and after the last attempt is buffered exactly if the caller asked for that |
| AtMostOnce.FlushHears | packages/sdk-typescript/src/client.ts:440-455 | What becomes of a flush and of the buffer with each reply: a final refusal stops it and removes nothing, a retryable one at the last attempt stops it and removes what has succeeded |
| OfflineClient.CallsSend | packages/sdk-typescript/src/client.ts:503-547 | The calls of the protocol are the retry loop: each ends as the loop does on the same answers |
| Diffs.TwelveNames | packages/artifacts/src/diff.ts:27-33 | Exactly the twelve names of Object.prototype are found without being own keys |

## Left out

- Tenants and projects: folded into identifiers; row-level security, roles, API keys and authentication.
- The receipt sequence column: receipts are a sequence in insertion order instead.
- Separate fence checks immediately before a fenced store call are merged with that call, which repeats them.
- Heartbeat timing, backoff arithmetic and the computation of resource lease times: lease lengths and retry
  times are free parameters, and time passes by any amount between steps.
- The bodies of job handlers other than the two effect handlers; the processor's timers and abort signals (that a
  timer fires is an `Ending` of `JobProcessor`, and may happen to a run at any moment in `Protocol`).
- The reconcile route's refusal of an intent whose connector is not registered: the model accepts every intent.
- The approval guard and connector availability are answers of the oracle; R3 approval records are not modelled.
- The order in which jobs are claimed is that of `Database.PostgresStore.Claim`; the state machine lets any
  claimable job be claimed next, and recovers stalled jobs one at a time.
- What an intent was prepared for is two numbers: one for what its operation digest covers, one for the columns that
  an insert compares after a conflict.
- Receipts recorded outside the worker carry fresh identifiers, and a duplicate rolls the transaction back.
- ImpactFixpoint.ImpactIsLeast: needs transfer functions that act selector by selector; for others the result
  depends on how selectors are batched, and no fixpoint is claimed.
- NoBlindReentry.NoBlindReentry: makes no claim for manual-receipt connectors or across jobs of different types,
  and none about compensating once.
- ImpactDistance.GenerationIsDistance: one direction only. Where a scoped change does come back to the source,
  `GenerationBounds` bounds every generation from both sides; in between it depends on the order in which versions
  come up (in `ImpactCycle` one such generation is exact and another is not).
- A registry of transfer functions is a map from names. No registry, as in the API, is the empty map; an object given
  as one would also answer to the names it inherits (packages/lineage/src/impact.ts:227).
- Explanations are chains of edges; their text and its sorting are not modelled.
- Delta digests, detail texts and the JSONPath regular expression: token lists are given, and unsupported paths
  are marked as such.
- Recomputation steps, remediation obligations and preserved receipt ids of an invalidation plan, and the rows the
  invalidate route writes for them: filters over the affected set. The status write it makes is in `Protocol`.
- Recomputing a fingerprint when a record of evidence is assessed is the flag `intact`; what equal fingerprints
  mean is proved in `Fingerprints`.
- `dependencyFingerprint`, whose parts are ordered by locale comparison of their canonical text.
- Heads and their compare-and-swap: a promotion carries the reservation it was given.
- Diffs.RebuildsExactly: arrays are objects keyed by index and paths are token sequences; the escaped text of a
  path, in which the root and an empty key look alike, is not modelled.
- GarbageRace: one tenant, and a manifest that cannot be parsed ends a pass like any other failure.
- Artifact forks, and streaming back-pressure; reads are given the objects of one moment.
- Mutations without an idempotency key; expiry of idempotency records, which nothing in the repository carries out.
- `FileOfflineBuffer`, whose serialized read-modify-write has the effect of the in-memory buffer.
- Strings of span ids and start times are numbers already parsed.
- OTLP ingestion, the audit chain, web pages, configuration, metrics, logging, health servers and migrations.
