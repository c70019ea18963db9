/**
  Garbage collection while artifacts are being put (packages/artifacts/src/s3-store.ts:197-289, 425-507):
  every object-store request is a step of its own. One tenant, any number of uploads and of passes, which may
  overlap. Each pass fixes the age below which it deletes when it starts listing chunks; `cutoff` is a bound on
  all of these ages, fixed for a whole run.
 */
module GarbageRace {

  type Digest = nat
  type ManifestId = nat
  type UploadId = nat
  type PassId = nat

  /** Reading the manifests listed at the start, listing chunks, deleting candidates. */
  datatype Pass =
    | Scanning(todo: set<ManifestId>, reachable: set<Digest>)
    | Listing(olderThan: int, reachable: set<Digest>, found: set<Digest>)
    | Sweeping(left: set<Digest>)
  {
    function Candidates(): set<Digest> {
      match this
      case Scanning(_, _) => {}
      case Listing(_, _, found) => found
      case Sweeping(left) => left
    }
  }

  /** `chunks` maps a stored chunk to the time it was last modified. */
  datatype State = State(
    now: int, chunks: map<Digest, int>, manifests: map<ManifestId, set<Digest>>, uploads: map<UploadId, set<Digest>>,
    passes: map<PassId, Pass>)

  datatype Action =
    | Tick(elapsed: nat)
    | PutChunk(upload: UploadId, chunk: Digest)
    | PutManifest(upload: UploadId, id: ManifestId)
    | StartPass(pass: PassId)
    | ReadManifest(pass: PassId, id: ManifestId)
    | StartListing(pass: PassId, olderThan: int)
    | ListChunk(pass: PassId, chunk: Digest)
    | StartSweep(pass: PassId)
    | DeleteChunk(pass: PassId, chunk: Digest)
    | EndPass(pass: PassId)  // also a dry run, and a request that fails

  predicate Enabled(s: State, act: Action, cutoff: int) {
    match act
    case StartPass(p) => p !in s.passes
    case ReadManifest(p, id) => p in s.passes && s.passes[p].Scanning? && id in s.manifests
    case StartListing(p, olderThan) =>
      p in s.passes && s.passes[p].Scanning? && s.passes[p].todo == {} && olderThan <= cutoff
    case ListChunk(p, chunk) => p in s.passes && s.passes[p].Listing? && chunk in s.chunks
    case StartSweep(p) => p in s.passes && s.passes[p].Listing?
    case DeleteChunk(p, chunk) => p in s.passes && s.passes[p].Sweeping? && chunk in s.passes[p].left
    case EndPass(p) => p in s.passes
    case PutManifest(upload, _) => upload in s.uploads
    case _ => true
  }

  function Staged(s: State, upload: UploadId): set<Digest> {
    if upload in s.uploads then s.uploads[upload] else {}
  }

  /** Put-if-absent leaves an existing object and its time alone. */
  function Stored(s: State, chunk: Digest): map<Digest, int> {
    if chunk in s.chunks then s.chunks else s.chunks[chunk := s.now]
  }

  function Next(s: State, act: Action, cutoff: int): State
    requires Enabled(s, act, cutoff)
  {
    match act
    case Tick(elapsed) => s.(now := s.now + elapsed)
    case PutChunk(upload, chunk) =>
      s.(chunks := Stored(s, chunk), uploads := s.uploads[upload := Staged(s, upload) + {chunk}])
    case PutManifest(upload, id) =>
      if id in s.manifests then s else s.(manifests := s.manifests[id := s.uploads[upload]])
    case StartPass(p) => s.(passes := s.passes[p := Scanning(s.manifests.Keys, {})])
    case ReadManifest(p, id) =>
      var pass := s.passes[p];
      s.(passes := s.passes[p := Scanning(pass.todo - {id}, pass.reachable + s.manifests[id])])
    case StartListing(p, olderThan) => s.(passes := s.passes[p := Listing(olderThan, s.passes[p].reachable, {})])
    case ListChunk(p, chunk) =>
      var pass := s.passes[p];
      if chunk !in pass.reachable && s.chunks[chunk] < pass.olderThan
      then s.(passes := s.passes[p := pass.(found := pass.found + {chunk})]) else s
    case StartSweep(p) => s.(passes := s.passes[p := Sweeping(s.passes[p].found)])
    case DeleteChunk(p, chunk) =>
      s.(chunks := s.chunks - {chunk}, passes := s.passes[p := Sweeping(s.passes[p].left - {chunk})])
    case EndPass(p) => s.(passes := s.passes - {p})
  }

  predicate Listed(s: State, chunk: Digest) {
    exists id :: id in s.manifests && chunk in s.manifests[id]
  }

  predicate Needed(s: State, chunk: Digest) {
    Listed(s, chunk) || exists u :: u in s.uploads && chunk in s.uploads[u]
  }

  /** What collection is for: every chunk that a stored manifest lists is stored. */
  predicate Readable(s: State) {
    forall id :: id in s.manifests ==> s.manifests[id] <= s.chunks.Keys
  }

  predicate ToBeRead(s: State, todo: set<ManifestId>, chunk: Digest) {
    exists id :: id in todo && id in s.manifests && chunk in s.manifests[id]
  }

  /** The pass can still delete a chunk that was last modified at `time`. */
  predicate Threatens(s: State, pass: Pass, chunk: Digest, time: int, cutoff: int) {
    match pass
    case Scanning(todo, reachable) => time < cutoff && chunk !in reachable && !ToBeRead(s, todo, chunk)
    case Listing(olderThan, reachable, found) => chunk in found || (chunk !in reachable && time < olderThan)
    case Sweeping(left) => chunk in left
  }

  predicate Threatened(s: State, chunk: Digest, time: int, cutoff: int) {
    exists p :: p in s.passes && Threatens(s, s.passes[p], chunk, time, cutoff)
  }

  /** Safe from the running passes, and from those that will start before a manifest lists the chunk. */
  predicate Safe(s: State, chunk: Digest, cutoff: int) {
    && chunk in s.chunks
    && !Threatened(s, chunk, s.chunks[chunk], cutoff)
    && (s.chunks[chunk] >= cutoff || Listed(s, chunk))
  }

  /** A put does not settle for a chunk that a pass can still delete, or that is old and listed nowhere. */
  predicate Careful(s: State, act: Action, cutoff: int) {
    act.PutChunk? ==>
      var time := Stored(s, act.chunk)[act.chunk];
      !Threatened(s, act.chunk, time, cutoff) && (time >= cutoff || Listed(s, act.chunk))
  }

  predicate Execution(start: State, actions: seq<Action>, cutoff: int)
    decreases |actions|, 0
  {
    actions == [] ||
    (Execution(start, actions[..|actions| - 1], cutoff)
     && Enabled(After(start, actions[..|actions| - 1], cutoff), actions[|actions| - 1], cutoff))
  }

  function After(start: State, actions: seq<Action>, cutoff: int): State
    requires Execution(start, actions, cutoff)
    decreases |actions|, 1
  {
    if actions == [] then start
    else Next(After(start, actions[..|actions| - 1], cutoff), actions[|actions| - 1], cutoff)
  }

  predicate AllCareful(start: State, actions: seq<Action>, cutoff: int)
    requires Execution(start, actions, cutoff)
  {
    actions == [] ||
    (AllCareful(start, actions[..|actions| - 1], cutoff)
     && Careful(After(start, actions[..|actions| - 1], cutoff), actions[|actions| - 1], cutoff))
  }

  // ------------------------------------------------------------------------- invariant

  ghost predicate Kept(s: State, cutoff: int) {
    forall chunk :: Needed(s, chunk) ==> Safe(s, chunk, cutoff)
  }

  /** A manifest once put is never changed, so what it lists stays listed. */
  lemma ListedStays(s: State, act: Action, cutoff: int, chunk: Digest)
    requires Enabled(s, act, cutoff) && Listed(s, chunk)
    ensures Listed(Next(s, act, cutoff), chunk)
  {
    var id :| id in s.manifests && chunk in s.manifests[id];
    assert id in Next(s, act, cutoff).manifests;
  }

  lemma NeededBefore(s: State, act: Action, cutoff: int, chunk: Digest)
    requires Enabled(s, act, cutoff) && Needed(Next(s, act, cutoff), chunk)
    ensures Needed(s, chunk) || (act.PutChunk? && act.chunk == chunk)
  {
  }

  /** What a pass can delete after a step, it or a pass just started could delete before. */
  lemma ThreatenedBefore(s: State, act: Action, cutoff: int, chunk: Digest, time: int)
    requires Enabled(s, act, cutoff) && Threatened(Next(s, act, cutoff), chunk, time, cutoff)
    requires act.ListChunk? && act.chunk == chunk ==> time == s.chunks[chunk]
    ensures Threatened(s, chunk, time, cutoff) || (act.StartPass? && !Listed(s, chunk) && time < cutoff)
  {
    hide Threatened, Listed;
    var t := Next(s, act, cutoff);
    var p := SomeThreat(t, chunk, time, cutoff);
    if act.StartPass? && act.pass == p {
      ReadLater(s, act, cutoff, chunk);
      return;
    }
    assert p in s.passes;
    if s.passes[p].Scanning? && ToBeRead(s, s.passes[p].todo, chunk) {
      ToBeReadStays(s, act, cutoff, s.passes[p], chunk);
    }
    assert Threatens(s, s.passes[p], chunk, time, cutoff);
    ThreatCounts(s, p, chunk, time, cutoff);
  }

  lemma SomeThreat(s: State, chunk: Digest, time: int, cutoff: int) returns (p: PassId)
    requires Threatened(s, chunk, time, cutoff)
    ensures p in s.passes && Threatens(s, s.passes[p], chunk, time, cutoff)
  {
    p :| p in s.passes && Threatens(s, s.passes[p], chunk, time, cutoff);
  }

  lemma ThreatCounts(s: State, p: PassId, chunk: Digest, time: int, cutoff: int)
    requires p in s.passes && Threatens(s, s.passes[p], chunk, time, cutoff)
    ensures Threatened(s, chunk, time, cutoff)
  {
  }

  /** A pass that has just started will read every manifest. */
  lemma ReadLater(s: State, act: Action, cutoff: int, chunk: Digest)
    requires act.StartPass? && Enabled(s, act, cutoff)
    requires !ToBeRead(Next(s, act, cutoff), s.manifests.Keys, chunk)
    ensures !Listed(s, chunk)
  {
  }

  /** Reading a manifest moves its chunks from those still to be read to those reachable. */
  lemma ToBeReadStays(s: State, act: Action, cutoff: int, pass: Pass, chunk: Digest)
    requires Enabled(s, act, cutoff) && pass.Scanning? && ToBeRead(s, pass.todo, chunk)
    ensures ToBeRead(Next(s, act, cutoff), pass.todo, chunk)
    ensures act.ReadManifest? ==>
              ToBeRead(Next(s, act, cutoff), pass.todo - {act.id}, chunk) || chunk in s.manifests[act.id]
  {
  }

  /** A careful step never takes away, or leaves open to deletion, a chunk that somebody needs. */
  lemma KeptStep(s: State, act: Action, cutoff: int)
    requires Enabled(s, act, cutoff) && Careful(s, act, cutoff) && Kept(s, cutoff)
    ensures Kept(Next(s, act, cutoff), cutoff)
  {
    hide Needed, Safe;
    forall chunk | Needed(Next(s, act, cutoff), chunk) ensures Safe(Next(s, act, cutoff), chunk, cutoff) {
      NeededBefore(s, act, cutoff, chunk);
      if act.PutChunk? && act.chunk == chunk {
        PutSafeExactly(s, act, cutoff);
      } else {
        SafeStays(s, act, cutoff, chunk);
      }
    }
  }

  lemma SafeStays(s: State, act: Action, cutoff: int, chunk: Digest)
    requires Enabled(s, act, cutoff) && Safe(s, chunk, cutoff)
    ensures Safe(Next(s, act, cutoff), chunk, cutoff)
  {
    hide Threatened, Listed;
    var t := Next(s, act, cutoff);
    var time := s.chunks[chunk];
    if act.DeleteChunk? && act.chunk == chunk {
      ThreatCounts(s, act.pass, chunk, time, cutoff);
      return;
    }
    if Listed(s, chunk) {
      ListedStays(s, act, cutoff, chunk);
    }
    if Threatened(t, chunk, time, cutoff) {
      ThreatenedBefore(s, act, cutoff, chunk, time);
    }
  }

  lemma PutSafeExactly(s: State, act: Action, cutoff: int)
    requires act.PutChunk?
    ensures Safe(Next(s, act, cutoff), act.chunk, cutoff) <==> Careful(s, act, cutoff)
  {
    var t := Next(s, act, cutoff);
    var time := t.chunks[act.chunk];
    assert Listed(t, act.chunk) <==> Listed(s, act.chunk);
    forall p | p in s.passes
      ensures Threatens(t, t.passes[p], act.chunk, time, cutoff) <==> Threatens(s, s.passes[p], act.chunk, time, cutoff)
    {
    }
  }

  /** The care asked of a put is exactly what keeps the invariant. */
  lemma CareIsExact(s: State, act: Action, cutoff: int)
    requires Enabled(s, act, cutoff) && Kept(s, cutoff)
    ensures Kept(Next(s, act, cutoff), cutoff) <==> Careful(s, act, cutoff)
  {
    hide Safe, Threatened, Listed;
    if Careful(s, act, cutoff) {
      KeptStep(s, act, cutoff);
    } else {
      PutSafeExactly(s, act, cutoff);
      var t := Next(s, act, cutoff);
      assert act.upload in t.uploads && act.chunk in t.uploads[act.upload];
      assert Needed(t, act.chunk);
    }
  }

  lemma {:induction false} CarefulKeeps(start: State, actions: seq<Action>, cutoff: int)
    requires Kept(start, cutoff)
    requires Execution(start, actions, cutoff) && AllCareful(start, actions, cutoff)
    ensures Kept(After(start, actions, cutoff), cutoff)
  {
    hide Kept, Next, Enabled, Careful;
    if actions != [] {
      var before, act := actions[..|actions| - 1], actions[|actions| - 1];
      CarefulKeeps(start, before, cutoff);
      KeptStep(After(start, before, cutoff), act, cutoff);
    }
  }

  lemma KeptIsReadable(s: State, cutoff: int)
    requires Kept(s, cutoff)
    ensures Readable(s)
  {
    forall id, chunk | id in s.manifests && chunk in s.manifests[id] ensures chunk in s.chunks {
      assert Needed(s, chunk);
    }
  }

  // ---------------------------------------------------------------------- losing a chunk

  /** `actions` is a careful execution from `start` to `s`. */
  predicate Leads(start: State, actions: seq<Action>, cutoff: int, s: State) {
    && Execution(start, actions, cutoff)
    && AllCareful(start, actions, cutoff)
    && After(start, actions, cutoff) == s
  }

  /** One more step of a known execution. */
  lemma Then(start: State, actions: seq<Action>, cutoff: int, s: State, act: Action) returns (longer: seq<Action>)
    requires Leads(start, actions, cutoff, s) && Enabled(s, act, cutoff) && Careful(s, act, cutoff)
    ensures Leads(start, longer, cutoff, Next(s, act, cutoff))
  {
    hide Next, Enabled, Careful;
    longer := actions + [act];
    assert longer[..|actions|] == actions;
  }

  lemma ThenTo(start: State, actions: seq<Action>, cutoff: int, s: State, act: Action, t: State)
    returns (longer: seq<Action>)
    requires Leads(start, actions, cutoff, s) && Enabled(s, act, cutoff) && Careful(s, act, cutoff)
    requires Next(s, act, cutoff) == t
    ensures Leads(start, longer, cutoff, t)
  {
    longer := Then(start, actions, cutoff, s, act);
  }

  /** Every manifest a pass has still to read is stored, as it was when the pass listed them. */
  predicate TodoStored(s: State) {
    forall p :: p in s.passes && s.passes[p].Scanning? ==> s.passes[p].todo <= s.manifests.Keys
  }

  lemma TodoStays(s: State, act: Action, cutoff: int)
    requires Enabled(s, act, cutoff) && TodoStored(s)
    ensures TodoStored(Next(s, act, cutoff))
  {
  }

  /** A pass that threatens a stored chunk can go on to delete it without any help. */
  lemma SweepTakes(start: State, actions: seq<Action>, cutoff: int, s: State, p: PassId, chunk: Digest)
    returns (longer: seq<Action>, t: State)
    requires Leads(start, actions, cutoff, s)
    requires p in s.passes && s.passes[p].Sweeping? && chunk in s.passes[p].left
    ensures Leads(start, longer, cutoff, t) && chunk !in t.chunks
    ensures t.manifests == s.manifests && t.uploads == s.uploads
  {
    hide Leads;
    longer := Then(start, actions, cutoff, s, DeleteChunk(p, chunk));
    t := Next(s, DeleteChunk(p, chunk), cutoff);
  }

  lemma ListingTakes(start: State, actions: seq<Action>, cutoff: int, s: State, p: PassId, chunk: Digest)
    returns (longer: seq<Action>, t: State)
    requires Leads(start, actions, cutoff, s) && chunk in s.chunks
    requires p in s.passes && s.passes[p].Listing? && Threatens(s, s.passes[p], chunk, s.chunks[chunk], cutoff)
    ensures Leads(start, longer, cutoff, t) && chunk !in t.chunks
    ensures t.manifests == s.manifests && t.uploads == s.uploads
  {
    hide Leads;
    longer := actions;
    t := s;
    if chunk !in s.passes[p].found {
      longer := Then(start, longer, cutoff, t, ListChunk(p, chunk));
      t := Next(t, ListChunk(p, chunk), cutoff);
    }
    longer := Then(start, longer, cutoff, t, StartSweep(p));
    t := Next(t, StartSweep(p), cutoff);
    longer, t := SweepTakes(start, longer, cutoff, t, p, chunk);
  }

  lemma {:induction false} ScanTakes(start: State, actions: seq<Action>, cutoff: int, s: State, p: PassId,
                                     chunk: Digest)
    returns (longer: seq<Action>, t: State)
    requires Leads(start, actions, cutoff, s) && chunk in s.chunks && TodoStored(s)
    requires p in s.passes && s.passes[p].Scanning? && Threatens(s, s.passes[p], chunk, s.chunks[chunk], cutoff)
    ensures Leads(start, longer, cutoff, t) && chunk !in t.chunks
    ensures t.manifests == s.manifests && t.uploads == s.uploads
    decreases s.passes[p].todo
  {
    hide Leads;
    var todo := s.passes[p].todo;
    if todo == {} {
      longer := Then(start, actions, cutoff, s, StartListing(p, cutoff));
      t := Next(s, StartListing(p, cutoff), cutoff);
      longer, t := ListingTakes(start, longer, cutoff, t, p, chunk);
    } else {
      var id :| id in todo;
      var act := ReadManifest(p, id);
      longer := Then(start, actions, cutoff, s, act);
      t := Next(s, act, cutoff);
      TodoStays(s, act, cutoff);
      longer, t := ScanTakes(start, longer, cutoff, t, p, chunk);
    }
  }

  lemma ThreatTakes(start: State, actions: seq<Action>, cutoff: int, s: State, chunk: Digest)
    returns (longer: seq<Action>, t: State)
    requires Leads(start, actions, cutoff, s) && chunk in s.chunks && TodoStored(s)
    requires Threatened(s, chunk, s.chunks[chunk], cutoff)
    ensures Leads(start, longer, cutoff, t) && chunk !in t.chunks
    ensures t.manifests == s.manifests && t.uploads == s.uploads
  {
    hide Leads, TodoStored;
    var p := SomeThreat(s, chunk, s.chunks[chunk], cutoff);
    match s.passes[p]
    case Scanning(_, _) => longer, t := ScanTakes(start, actions, cutoff, s, p, chunk);
    case Listing(_, _, _) => longer, t := ListingTakes(start, actions, cutoff, s, p, chunk);
    case Sweeping(_) => longer, t := SweepTakes(start, actions, cutoff, s, p, chunk);
  }

  lemma {:induction false} Unused(used: set<nat>) returns (bound: nat)
    ensures forall n :: n in used ==> n < bound
  {
    bound := 0;
    if used != {} {
      var n :| n in used;
      var others := Unused(used - {n});
      bound := if others <= n then n + 1 else others;
      assert used == (used - {n}) + {n};
    }
  }

  /** A staged chunk that is gone is missed as soon as its upload is finalized. */
  lemma MissedOnceListed(start: State, actions: seq<Action>, cutoff: int, s: State, chunk: Digest)
    returns (longer: seq<Action>, t: State)
    requires Leads(start, actions, cutoff, s) && Needed(s, chunk) && chunk !in s.chunks
    ensures Leads(start, longer, cutoff, t) && !Readable(t)
  {
    hide Leads;
    longer, t := actions, s;
    if !Listed(s, chunk) {
      var u :| u in s.uploads && chunk in s.uploads[u];
      var id := Unused(s.manifests.Keys);
      longer := Then(start, actions, cutoff, s, PutManifest(u, id));
      t := Next(s, PutManifest(u, id), cutoff);
      assert chunk in t.manifests[id];
    }
  }

  /** Without the invariant there is a careful continuation that loses a chunk. */
  lemma UnkeptLoses(s: State, cutoff: int) returns (actions: seq<Action>, t: State)
    requires !Kept(s, cutoff) && TodoStored(s)
    ensures Leads(s, actions, cutoff, t) && !Readable(t)
  {
    hide Leads, Threatened, TodoStored;
    var chunk :| Needed(s, chunk) && !Safe(s, chunk, cutoff);
    actions, t := [], s;
    assert Leads(s, [], cutoff, s) by { NoActions(s, cutoff); }
    if chunk in s.chunks {
      if !Threatened(s, chunk, s.chunks[chunk], cutoff) {
        var p := Unused(s.passes.Keys);
        actions := Then(s, [], cutoff, s, StartPass(p));
        t := Next(s, StartPass(p), cutoff);
        TodoStays(s, StartPass(p), cutoff);
        NewPassThreatens(s, p, chunk, cutoff);
      }
      actions, t := ThreatTakes(s, actions, cutoff, t, chunk);
    }
    assert Needed(t, chunk);
    actions, t := MissedOnceListed(s, actions, cutoff, t, chunk);
  }

  lemma NewPassThreatens(s: State, p: PassId, chunk: Digest, cutoff: int)
    requires p !in s.passes && chunk in s.chunks && s.chunks[chunk] < cutoff && !Listed(s, chunk)
    ensures Threatened(Next(s, StartPass(p), cutoff), chunk, s.chunks[chunk], cutoff)
  {
    var t := Next(s, StartPass(p), cutoff);
    assert Threatens(t, t.passes[p], chunk, s.chunks[chunk], cutoff);
  }

  lemma NoActions(s: State, cutoff: int)
    ensures Leads(s, [], cutoff, s)
  {
  }

  // -------------------------------------------------------------------------- theorems

  ghost predicate NeverLoses(start: State, cutoff: int) {
    forall actions :: Execution(start, actions, cutoff) && AllCareful(start, actions, cutoff) ==>
      Readable(After(start, actions, cutoff))
  }

  /**
    Started in any state, however old its manifests, chunks and garbage and whatever passes are running, a
    system whose puts are careful never misses a listed chunk exactly when no needed chunk is missing or can
    still be deleted.
   */
  lemma KeptExactly(start: State, cutoff: int)
    requires TodoStored(start)
    ensures Kept(start, cutoff) <==> NeverLoses(start, cutoff)
  {
    hide Kept, Execution, AllCareful, After, Readable, TodoStored;
    if Kept(start, cutoff) {
      forall actions | Execution(start, actions, cutoff) && AllCareful(start, actions, cutoff)
        ensures Readable(After(start, actions, cutoff))
      {
        ManifestsStayReadable(start, actions, cutoff);
      }
    } else {
      var actions, t := UnkeptLoses(start, cutoff);
      assert !Readable(After(start, actions, cutoff));
    }
  }

  /**
    At every moment of a careful run, with any number of passes in any phase, every chunk that a stored
    manifest lists is stored.
   */
  lemma ManifestsStayReadable(start: State, actions: seq<Action>, cutoff: int)
    requires Kept(start, cutoff)
    requires Execution(start, actions, cutoff) && AllCareful(start, actions, cutoff)
    ensures Readable(After(start, actions, cutoff))
  {
    CarefulKeeps(start, actions, cutoff);
    KeptIsReadable(After(start, actions, cutoff), cutoff);
  }

  /** After a put that was not careful, careful steps alone can lose a chunk. */
  lemma CarelessPutLosesChunk(s: State, put: Action, cutoff: int) returns (actions: seq<Action>, t: State)
    requires Kept(s, cutoff) && TodoStored(s)
    requires Enabled(s, put, cutoff) && !Careful(s, put, cutoff)
    ensures Leads(Next(s, put, cutoff), actions, cutoff, t) && !Readable(t)
  {
    hide *;
    CareIsExact(s, put, cutoff);
    TodoStays(s, put, cutoff);
    actions, t := UnkeptLoses(Next(s, put, cutoff), cutoff);
  }

  // ----------------------------------------------------------------- one pass at a time

  /** No pass starts while another runs, and no put dedups onto an old chunk that no manifest lists. */
  predicate Tidy(s: State, act: Action, cutoff: int) {
    && (act.StartPass? ==> s.passes == map[])
    && (act.PutChunk? ==>
          (act.chunk in s.chunks && s.chunks[act.chunk] < cutoff ==> Listed(s, act.chunk)))
  }

  predicate AllTidy(start: State, actions: seq<Action>, cutoff: int)
    requires Execution(start, actions, cutoff)
  {
    actions == [] ||
    (AllTidy(start, actions[..|actions| - 1], cutoff)
     && Tidy(After(start, actions[..|actions| - 1], cutoff), actions[|actions| - 1], cutoff))
  }

  predicate OnePass(s: State, cutoff: int) {
    && s.now >= cutoff
    && (forall p, q :: p in s.passes && q in s.passes ==> p == q)
    && (forall p :: p in s.passes ==> PassOk(s, s.passes[p], cutoff))
  }

  predicate PassOk(s: State, pass: Pass, cutoff: int) {
    && (pass.Listing? ==> pass.olderThan <= cutoff)
    && (forall chunk :: chunk in pass.Candidates() ==> chunk in s.chunks && s.chunks[chunk] < cutoff)
  }

  lemma OnePassStep(s: State, act: Action, cutoff: int)
    requires Enabled(s, act, cutoff) && Tidy(s, act, cutoff) && OnePass(s, cutoff)
    ensures OnePass(Next(s, act, cutoff), cutoff)
  {
    hide Listed;
  }

  lemma TidyIsCareful(s: State, act: Action, cutoff: int)
    requires Kept(s, cutoff) && OnePass(s, cutoff) && Tidy(s, act, cutoff)
    ensures Careful(s, act, cutoff)
  {
    if act.PutChunk? {
      if Listed(s, act.chunk) {
        assert Needed(s, act.chunk);
      }
    }
  }

  lemma {:induction false} TidyKeeps(start: State, actions: seq<Action>, cutoff: int)
    requires Kept(start, cutoff) && OnePass(start, cutoff)
    requires Execution(start, actions, cutoff) && AllTidy(start, actions, cutoff)
    ensures AllCareful(start, actions, cutoff)
    ensures Kept(After(start, actions, cutoff), cutoff) && OnePass(After(start, actions, cutoff), cutoff)
  {
    hide Kept, OnePass, Next, Enabled, Careful, Tidy;
    if actions != [] {
      var before, act := actions[..|actions| - 1], actions[|actions| - 1];
      TidyKeeps(start, before, cutoff);
      var s := After(start, before, cutoff);
      TidyIsCareful(s, act, cutoff);
      OnePassStep(s, act, cutoff);
      KeptStep(s, act, cutoff);
    }
  }

  /**
    Passes one at a time, on a clock past the cutoff: nothing listed is ever lost as long as no put dedups onto
    an old chunk that no manifest lists.
   */
  lemma OnePassAtATime(start: State, actions: seq<Action>, cutoff: int)
    requires Kept(start, cutoff) && OnePass(start, cutoff)
    requires Execution(start, actions, cutoff) && AllTidy(start, actions, cutoff)
    ensures Readable(After(start, actions, cutoff))
  {
    TidyKeeps(start, actions, cutoff);
    ManifestsStayReadable(start, actions, cutoff);
  }

  // ------------------------------------------------------------------------- witnesses

  /** `actions` is a tidy execution from `start` to `s`. */
  predicate TidyLeads(start: State, actions: seq<Action>, cutoff: int, s: State) {
    && Execution(start, actions, cutoff)
    && AllTidy(start, actions, cutoff)
    && After(start, actions, cutoff) == s
  }

  lemma TidyThen(start: State, actions: seq<Action>, cutoff: int, s: State, act: Action, t: State)
    returns (longer: seq<Action>)
    requires TidyLeads(start, actions, cutoff, s)
    requires Enabled(s, act, cutoff) && Tidy(s, act, cutoff) && Next(s, act, cutoff) == t
    ensures longer == actions + [act] && TidyLeads(start, longer, cutoff, t)
  {
    hide Next, Enabled, Tidy;
    longer := actions + [act];
    assert longer[..|actions|] == actions;
  }

  /** Chunk 1 is old and listed by manifest 5, chunk 2 is old garbage. */
  const OLD_STORE := State(20, map[1 := 0, 2 := 0], map[5 := {1}], map[], map[])

  lemma OldStoreKept()
    ensures Kept(OLD_STORE, 10) && OnePass(OLD_STORE, 10) && TidyLeads(OLD_STORE, [], 10, OLD_STORE)
  {
    assert 1 in OLD_STORE.manifests[5];
  }

  lemma UploadDuringScan() returns (run: seq<Action>, s: State)
    ensures TidyLeads(OLD_STORE, run, 10, s)
    ensures s == OLD_STORE.(chunks := map[1 := 0, 2 := 0, 3 := 20], uploads := map[0 := {1, 3}],
                           passes := map[0 := Scanning({}, {1})])
  {
    hide TidyLeads;
    OldStoreKept();
    var none: set<nat> := {};
    assert none + {1} == {1} && {5} - {5} == none && {1} + {3} == {1, 3};
    assert OLD_STORE.manifests.Keys == {5};
    var s0 := OLD_STORE.(passes := map[0 := Scanning({5}, {})]);
    run := TidyThen(OLD_STORE, [], 10, OLD_STORE, StartPass(0), s0);
    var s1 := s0.(uploads := map[0 := {1}]);
    assert Listed(s0, 1) by { assert 1 in s0.manifests[5]; }
    run := TidyThen(OLD_STORE, run, 10, s0, PutChunk(0, 1), s1);
    var s2 := s1.(passes := map[0 := Scanning({}, {1})]);
    run := TidyThen(OLD_STORE, run, 10, s1, ReadManifest(0, 5), s2);
    s := s2.(chunks := map[1 := 0, 2 := 0, 3 := 20], uploads := map[0 := {1, 3}]);
    run := TidyThen(OLD_STORE, run, 10, s2, PutChunk(0, 3), s);
  }

  lemma GarbageFound() returns (run: seq<Action>, s: State)
    ensures TidyLeads(OLD_STORE, run, 10, s)
    ensures s == OLD_STORE.(chunks := map[1 := 0, 2 := 0, 3 := 20], uploads := map[0 := {1, 3}],
                           passes := map[0 := Sweeping({2})])
  {
    hide TidyLeads;
    var s3;
    run, s3 := UploadDuringScan();
    var none: set<nat> := {};
    assert none + {2} == {2};
    var s4 := s3.(passes := map[0 := Listing(10, {1}, {})]);
    run := TidyThen(OLD_STORE, run, 10, s3, StartListing(0, 10), s4);
    var s5 := s4.(passes := map[0 := Listing(10, {1}, {2})]);
    run := TidyThen(OLD_STORE, run, 10, s4, ListChunk(0, 2), s5);
    s := s5.(passes := map[0 := Sweeping({2})]);
    run := TidyThen(OLD_STORE, run, 10, s5, StartSweep(0), s);
  }

  /**
    A pass really deletes under concurrent puts: an upload reuses chunk 1 and puts chunk 3 while a pass runs, the
    pass deletes chunk 2, and the upload is finalized.
   */
  lemma CollectsAroundAnUpload() returns (run: seq<Action>, s: State)
    ensures Kept(OLD_STORE, 10) && OnePass(OLD_STORE, 10)
    ensures TidyLeads(OLD_STORE, run, 10, s) && DeleteChunk(0, 2) in run
    ensures s.manifests == map[5 := {1}, 6 := {1, 3}] && s.chunks == map[1 := 0, 3 := 20]
  {
    hide TidyLeads;
    OldStoreKept();
    var s6;
    run, s6 := GarbageFound();
    var none: set<nat> := {};
    assert {2} - {2} == none;
    var s7 := s6.(chunks := map[1 := 0, 3 := 20], passes := map[0 := Sweeping({})]);
    run := TidyThen(OLD_STORE, run, 10, s6, DeleteChunk(0, 2), s7);
    s := s7.(manifests := map[5 := {1}, 6 := {1, 3}]);
    run := TidyThen(OLD_STORE, run, 10, s7, PutManifest(0, 6), s);
  }

  /** Chunk 2 is old garbage, and nothing else is stored. */
  const GARBAGE := State(20, map[2 := 0], map[], map[], map[])

  function Overlapping(first: Pass, second: Pass): State {
    GARBAGE.(passes := map[0 := first, 1 := second])
  }

  lemma TwoPassesStart() returns (run: seq<Action>)
    ensures Leads(GARBAGE, run, 10, Overlapping(Listing(10, {}, {}), Listing(10, {}, {})))
  {
    hide Leads;
    NoActions(GARBAGE, 10);
    var none: set<nat> := {};
    assert GARBAGE.manifests.Keys == none;
    var s0 := GARBAGE.(passes := map[0 := Scanning({}, {})]);
    run := ThenTo(GARBAGE, [], 10, GARBAGE, StartPass(0), s0);
    var s1 := Overlapping(Scanning({}, {}), Scanning({}, {}));
    run := ThenTo(GARBAGE, run, 10, s0, StartPass(1), s1);
    var s2 := Overlapping(Listing(10, {}, {}), Scanning({}, {}));
    run := ThenTo(GARBAGE, run, 10, s1, StartListing(0, 10), s2);
    run := ThenTo(GARBAGE, run, 10, s2, StartListing(1, 10), Overlapping(Listing(10, {}, {}), Listing(10, {}, {})));
  }

  lemma TwoPassesFind() returns (run: seq<Action>)
    ensures Leads(GARBAGE, run, 10, Overlapping(Listing(10, {}, {2}), Listing(10, {}, {2})))
  {
    hide Leads;
    run := TwoPassesStart();
    var none: set<nat> := {};
    assert none + {2} == {2};
    var s3 := Overlapping(Listing(10, {}, {}), Listing(10, {}, {}));
    var s4 := Overlapping(Listing(10, {}, {2}), Listing(10, {}, {}));
    run := ThenTo(GARBAGE, run, 10, s3, ListChunk(0, 2), s4);
    run := ThenTo(GARBAGE, run, 10, s4, ListChunk(1, 2), Overlapping(Listing(10, {}, {2}), Listing(10, {}, {2})));
  }

  /** Two passes have found the same garbage, and one has deleted it. */
  const SWEPT := Overlapping(Sweeping({}), Sweeping({2})).(chunks := map[])

  lemma OneOfThemSweeps() returns (run: seq<Action>)
    ensures Leads(GARBAGE, run, 10, SWEPT)
  {
    hide Leads;
    run := TwoPassesFind();
    var none: set<nat> := {};
    assert {2} - {2} == none;
    var s5 := Overlapping(Listing(10, {}, {2}), Listing(10, {}, {2}));
    var s6 := Overlapping(Sweeping({2}), Listing(10, {}, {2}));
    run := ThenTo(GARBAGE, run, 10, s5, StartSweep(0), s6);
    var s7 := Overlapping(Sweeping({2}), Sweeping({2}));
    run := ThenTo(GARBAGE, run, 10, s6, StartSweep(1), s7);
    run := ThenTo(GARBAGE, run, 10, s7, DeleteChunk(0, 2), SWEPT);
  }

  /** An upload that now puts that chunk afresh can still lose it to the other pass. */
  lemma OverlappingPassesLoseFreshChunk() returns (run: seq<Action>, more: seq<Action>, t: State)
    ensures Kept(GARBAGE, 10) && Leads(GARBAGE, run, 10, SWEPT) && 2 !in SWEPT.chunks && SWEPT.now >= 10
    ensures Leads(Next(SWEPT, PutChunk(0, 2), 10), more, 10, t) && !Readable(t)
  {
    hide Leads;
    run := OneOfThemSweeps();
    assert Threatens(SWEPT, SWEPT.passes[1], 2, 20, 10);
    more, t := CarelessPutLosesChunk(SWEPT, PutChunk(0, 2), 10);
  }
}
