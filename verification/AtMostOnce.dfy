/**
  Keyed mutations end to end: the idempotency record of the API (apps/api/src/idempotency.ts), the
  retrying client (packages/sdk-typescript/src/client.ts:440-547) and its offline buffer
  (packages/sdk-typescript/src/offline.ts). The network may lose, delay, repeat and reorder anything.
 */
module AtMostOnce {
  import opened Tables

  type Key = nat
  type OperationId = nat

  /** A keyed mutation; `hash` is the digest of method, path and body. */
  datatype Request = Request(key: Key, hash: nat)

  datatype Reply = Success(data: nat) | Refusal(retryable: bool)

  // ----------------------------------------------------------------------------- server

  /** A row of idempotency_records; without data it is in progress. */
  datatype Record = Record(hash: nat, data: Option<nat>)

  datatype Commit = Commit(key: Key, hash: nat, data: nat)

  /** `commits` is history: every operation whose transaction committed, in order. */
  datatype Server = Server(records: map<Key, Record>, commits: seq<Commit>)

  /** One transaction; `outcome` is what the operation answers when it runs, None when it throws. */
  function Serve(server: Server, q: Request, outcome: Option<nat>, retryable: bool): (Server, Reply) {
    if q.key in server.records then
      var row := server.records[q.key];
      if row.hash != q.hash then (server, Refusal(false))
      else if row.data.None? then (server, Refusal(true))
      else (server, Success(row.data.value))
    else if outcome.None? then (server, Refusal(retryable))
    else
      (Server(server.records[q.key := Record(q.hash, outcome)],
              server.commits + [Commit(q.key, q.hash, outcome.value)]),
       Success(outcome.value))
  }

  class IdempotencyStore {
    var records: map<Key, Record>
    var commits: seq<Commit>

    function View(): Server
      reads this
    {
      Server(records, commits)
    }

    constructor ()
      ensures View() == Server(map[], [])
    {
      records, commits := map[], [];
    }

    /** Insert the row, run the operation, complete the row; a throw rolls the transaction back. */
    method Mutate(q: Request, outcome: Option<nat>, retryable: bool) returns (reply: Reply)
      modifies this
      ensures (View(), reply) == Serve(old(View()), q, outcome, retryable)
      ensures q.key in old(records) ==>
                && View() == old(View())
                && var row := old(records)[q.key];
                   reply == if row.hash != q.hash then Refusal(false)
                            else if row.data == None then Refusal(true) else Success(row.data.value)
    {
      if q.key in records {
        var existing := records[q.key];
        if existing.hash != q.hash {
          return Refusal(false);
        }
        if existing.data.None? {
          return Refusal(true);
        }
        return Success(existing.data.value);
      }
      ghost var before := View();
      var saved := records;
      records := records[q.key := Record(q.hash, None)];
      if outcome.None? {
        records := saved;
        assert View() == before;
        return Refusal(retryable);
      }
      commits := commits + [Commit(q.key, q.hash, outcome.value)];
      records := records[q.key := Record(q.hash, outcome)];
      assert records == saved[q.key := Record(q.hash, outcome)];
      reply := Success(outcome.value);
    }
  }

  // ----------------------------------------------------------------------------- client

  datatype Phase = Sending(attempt: nat) | Succeeded(data: nat) | Failed | Buffered

  datatype Call = Call(request: Request, buffers: bool, phase: Phase)

  /** One run of flushOffline: what it still has to send, and what it has seen succeed. */
  datatype Flush = Flush(todo: seq<OperationId>, completed: set<OperationId>, attempt: nat, running: bool)

  /**
    `sent` and `replies` hold everything ever put on the wire; `created` is the content of every buffered
    operation, `buffer` the queue, `removed` what has left it.
   */
  datatype State = State(
    server: Server,
    sent: set<Request>,
    replies: set<(Request, Reply)>,
    calls: seq<Call>,
    created: map<OperationId, Request>,
    buffer: seq<OperationId>,
    removed: set<OperationId>,
    flushes: seq<Flush>)

  datatype Action =
    | StartCall(request: Request, buffers: bool)
    | SendCall(call: nat)
    | Deliver(request: Request, outcome: Option<nat>, retryable: bool)
    | CallReply(call: nat, reply: Reply)
    | CallNetworkError(call: nat, id: OperationId)
    | StartFlush(limit: nat)
    | SendBuffered(flush: nat)
    | FlushReply(flush: nat, reply: Reply)
    | FlushNetworkError(flush: nat)
    | FinishFlush(flush: nat)

  predicate Active(s: State, flush: nat) {
    flush < |s.flushes| && s.flushes[flush].running
  }

  /** The head of a running flush, with the request it stands for. */
  predicate HasHead(s: State, flush: nat) {
    Active(s, flush) && s.flushes[flush].todo != [] && s.flushes[flush].todo[0] in s.created
  }

  function HeadOf(s: State, flush: nat): Request
    requires HasHead(s, flush)
  {
    s.created[s.flushes[flush].todo[0]]
  }

  predicate Waiting(s: State, call: nat) {
    call < |s.calls| && s.calls[call].phase.Sending?
  }

  predicate Enabled(s: State, act: Action) {
    match act
    case SendCall(call) => Waiting(s, call)
    case Deliver(request, _, _) => request in s.sent
    case CallReply(call, reply) => Waiting(s, call) && (s.calls[call].request, reply) in s.replies
    case CallNetworkError(call, id) => Waiting(s, call) && id !in s.created
    case SendBuffered(flush) => HasHead(s, flush)
    case FlushReply(flush, reply) => HasHead(s, flush) && (HeadOf(s, flush), reply) in s.replies
    case FlushNetworkError(flush) => HasHead(s, flush)
    case FinishFlush(flush) => Active(s, flush) && s.flushes[flush].todo == []
    case _ => true
  }

  function Without(queue: seq<OperationId>, gone: set<OperationId>): seq<OperationId> {
    if queue == [] then []
    else
      var init := Without(queue[..|queue| - 1], gone);
      if queue[|queue| - 1] in gone then init else init + [queue[|queue| - 1]]
  }

  /** The tail of flushOffline: remove what completed. */
  function Remove(s: State, flush: nat): State
    requires flush < |s.flushes|
  {
    var f := s.flushes[flush];
    s.(buffer := Without(s.buffer, f.completed),
       removed := s.removed + f.completed,
       flushes := s.flushes[flush := f.(running := false)])
  }

  function Next(s: State, act: Action, maxAttempts: nat): State
    requires Enabled(s, act)
  {
    match act
    case StartCall(request, buffers) => s.(calls := s.calls + [Call(request, buffers, Sending(1))])
    case SendCall(call) => s.(sent := s.sent + {s.calls[call].request})
    case Deliver(request, outcome, retryable) =>
      var (server, reply) := Serve(s.server, request, outcome, retryable);
      s.(server := server, replies := s.replies + {(request, reply)})
    case CallReply(call, reply) =>
      var c := s.calls[call];
      var phase :=
        if reply.Success? then Phase.Succeeded(reply.data)
        else if !reply.retryable || c.phase.attempt >= maxAttempts then Failed
        else Sending(c.phase.attempt + 1);
      s.(calls := s.calls[call := c.(phase := phase)])
    case CallNetworkError(call, id) =>
      var c := s.calls[call];
      if c.phase.attempt < maxAttempts then
        s.(calls := s.calls[call := c.(phase := Sending(c.phase.attempt + 1))])
      else if !c.buffers then s.(calls := s.calls[call := c.(phase := Failed)])
      else
        s.(calls := s.calls[call := c.(phase := Buffered)],
           created := s.created[id := c.request],
           buffer := s.buffer + [id])
    case StartFlush(limit) =>
      var n := if limit <= |s.buffer| then limit else |s.buffer|;
      s.(flushes := s.flushes + [Flush(s.buffer[..n], {}, 1, true)])
    case SendBuffered(flush) => s.(sent := s.sent + {HeadOf(s, flush)})
    case FlushReply(flush, reply) =>
      var f := s.flushes[flush];
      if reply.Success? then
        s.(flushes := s.flushes[flush := f.(todo := f.todo[1..], completed := f.completed + {f.todo[0]}, attempt := 1)])
      else if !reply.retryable then s.(flushes := s.flushes[flush := f.(running := false)])  // thrown before the removal
      else if f.attempt < maxAttempts then s.(flushes := s.flushes[flush := f.(attempt := f.attempt + 1)])
      else Remove(s, flush)
    case FlushNetworkError(flush) =>
      var f := s.flushes[flush];
      if f.attempt < maxAttempts then s.(flushes := s.flushes[flush := f.(attempt := f.attempt + 1)])
      else s.(flushes := s.flushes[flush := f.(running := false)])
    case FinishFlush(flush) => Remove(s, flush)
  }

  const INITIAL := State(Server(map[], []), {}, {}, [], map[], [], {}, [])

  predicate Execution(actions: seq<Action>, maxAttempts: nat)
    decreases |actions|, 0
  {
    actions == [] ||
    (Execution(actions[..|actions| - 1], maxAttempts)
     && Enabled(After(actions[..|actions| - 1], maxAttempts), actions[|actions| - 1]))
  }

  function After(actions: seq<Action>, maxAttempts: nat): State
    requires Execution(actions, maxAttempts)
    decreases |actions|, 1
  {
    if actions == [] then INITIAL
    else Next(After(actions[..|actions| - 1], maxAttempts), actions[|actions| - 1], maxAttempts)
  }

  // -------------------------------------------------------------------------- invariants

  predicate Done(server: Server, q: Request, data: nat) {
    Commit(q.key, q.hash, data) in server.commits
  }

  predicate DoneAtAll(server: Server, q: Request) {
    exists k :: 0 <= k < |server.commits| && server.commits[k].key == q.key && server.commits[k].hash == q.hash
  }

  ghost predicate ServerOk(server: Server) {
    && (forall i, j :: 0 <= i < j < |server.commits| ==> server.commits[i].key != server.commits[j].key)
    && (forall k :: k in server.records ==>
          server.records[k].data.Some? && Commit(k, server.records[k].hash, server.records[k].data.value) in server.commits)
    && (forall c :: c in server.commits ==> c.key in server.records)
  }

  /** Every success on the wire, or seen by a call, is the answer of the commit. */
  ghost predicate SuccessesOk(s: State) {
    && (forall q, data :: (q, Success(data)) in s.replies ==> Done(s.server, q, data))
    && (forall c :: 0 <= c < |s.calls| && s.calls[c].phase.Succeeded? ==>
          Done(s.server, s.calls[c].request, s.calls[c].phase.data))
  }

  /** What a flush counts as completed, and what left the buffer, has committed; nothing else has left. */
  ghost predicate BufferOk(s: State) {
    && (forall f, id :: 0 <= f < |s.flushes| && id in s.flushes[f].completed ==>
          id in s.created && DoneAtAll(s.server, s.created[id]))
    && (forall id :: id in s.removed ==> id in s.created && DoneAtAll(s.server, s.created[id]))
    && (forall id :: id in s.created ==> id in s.buffer || id in s.removed)
  }

  lemma ServeOk(server: Server, q: Request, outcome: Option<nat>, retryable: bool)
    requires ServerOk(server)
    ensures var (after, reply) := Serve(server, q, outcome, retryable);
            && ServerOk(after) && server.commits <= after.commits
            && (reply.Success? ==> Done(after, q, reply.data))
  {
    var (after, reply) := Serve(server, q, outcome, retryable);
    if after != server {
      var added := Commit(q.key, q.hash, outcome.value);
      assert after.commits == server.commits + [added];
      forall i | 0 <= i < |server.commits| ensures server.commits[i].key != q.key {
        assert server.commits[i] in server.commits;
      }
    }
  }

  lemma DoneStays(before: Server, after: Server)
    requires before.commits <= after.commits
    ensures forall q, data :: Done(before, q, data) ==> Done(after, q, data)
    ensures forall q :: DoneAtAll(before, q) ==> DoneAtAll(after, q)
  {
    forall q | DoneAtAll(before, q) ensures DoneAtAll(after, q) {
      var k :| 0 <= k < |before.commits| && before.commits[k].key == q.key && before.commits[k].hash == q.hash;
      assert after.commits[k] == before.commits[k];
    }
  }

  lemma ServerStep(s: State, act: Action, maxAttempts: nat)
    requires Enabled(s, act) && ServerOk(s.server)
    ensures ServerOk(Next(s, act, maxAttempts).server)
    ensures s.server.commits <= Next(s, act, maxAttempts).server.commits
  {
    hide ServerOk, Serve, Without;
    if act.Deliver? {
      ServeOk(s.server, act.request, act.outcome, act.retryable);
    }
  }

  lemma SuccessesStep(s: State, act: Action, maxAttempts: nat)
    requires Enabled(s, act) && ServerOk(s.server) && SuccessesOk(s)
    ensures SuccessesOk(Next(s, act, maxAttempts))
  {
    hide ServerOk, Serve, Without, Done, HasHead;
    ServerStep(s, act, maxAttempts);
    DoneStays(s.server, Next(s, act, maxAttempts).server);
    if act.Deliver? {
      ServeOk(s.server, act.request, act.outcome, act.retryable);
    }
  }

  lemma {:induction false} WithoutMembers(queue: seq<OperationId>, gone: set<OperationId>)
    ensures forall id :: id in Without(queue, gone) <==> id in queue && id !in gone
  {
    if queue != [] {
      WithoutMembers(queue[..|queue| - 1], gone);
      assert queue == queue[..|queue| - 1] + [queue[|queue| - 1]];
    }
  }

  lemma RemoveOk(s: State, flush: nat)
    requires flush < |s.flushes| && BufferOk(s)
    ensures BufferOk(Remove(s, flush))
  {
    hide DoneAtAll;
    WithoutMembers(s.buffer, s.flushes[flush].completed);
  }

  lemma BufferStep(s: State, act: Action, maxAttempts: nat)
    requires Enabled(s, act) && ServerOk(s.server) && SuccessesOk(s) && BufferOk(s)
    ensures BufferOk(Next(s, act, maxAttempts))
  {
    hide ServerOk, Serve, DoneAtAll, Remove, SuccessesOk;
    ServerStep(s, act, maxAttempts);
    DoneStays(s.server, Next(s, act, maxAttempts).server);
    if act.FlushReply? {
      FlushReplyOk(s, act, maxAttempts);
    } else if act.FinishFlush? {
      RemoveOk(s, act.flush);
    }
  }

  lemma FlushReplyOk(s: State, act: Action, maxAttempts: nat)
    requires Enabled(s, act) && act.FlushReply? && SuccessesOk(s) && BufferOk(s)
    ensures BufferOk(Next(s, act, maxAttempts))
  {
    hide Remove;
    RemoveOk(s, act.flush);
    if act.reply.Success? {
      SuccessIsDone(s.server, HeadOf(s, act.flush), act.reply.data);
    }
    hide DoneAtAll;
  }

  lemma SuccessIsDone(server: Server, q: Request, data: nat)
    requires Done(server, q, data)
    ensures DoneAtAll(server, q)
  {
    var k :| 0 <= k < |server.commits| && server.commits[k] == Commit(q.key, q.hash, data);
  }

  // --------------------------------------------------------------------------- theorems

  lemma {:induction false} EndToEnd(actions: seq<Action>, maxAttempts: nat)
    requires Execution(actions, maxAttempts)
    ensures var s := After(actions, maxAttempts); ServerOk(s.server) && SuccessesOk(s) && BufferOk(s)
  {
    hide ServerOk, SuccessesOk, BufferOk, Next, Enabled;
    if actions == [] {
      NothingYet();
    } else {
      var before, act := actions[..|actions| - 1], actions[|actions| - 1];
      EndToEnd(before, maxAttempts);
      var s := After(before, maxAttempts);
      ServerStep(s, act, maxAttempts);
      SuccessesStep(s, act, maxAttempts);
      BufferStep(s, act, maxAttempts);
    }
  }

  lemma NothingYet()
    ensures ServerOk(INITIAL.server) && SuccessesOk(INITIAL) && BufferOk(INITIAL)
  {
  }

  /** A keyed mutation commits at most once, and all calls that succeed with one key see its one answer. */
  lemma CommitsOnce(actions: seq<Action>, maxAttempts: nat)
    requires Execution(actions, maxAttempts)
    ensures var s := After(actions, maxAttempts);
            && (forall i, j :: 0 <= i < j < |s.server.commits| ==> s.server.commits[i].key != s.server.commits[j].key)
            && (forall c :: 0 <= c < |s.calls| && s.calls[c].phase.Succeeded? ==>
                  Commit(s.calls[c].request.key, s.calls[c].request.hash, s.calls[c].phase.data) in s.server.commits)
            && (forall c, d :: 0 <= c < |s.calls| && 0 <= d < |s.calls|
                               && s.calls[c].phase.Succeeded? && s.calls[d].phase.Succeeded?
                               && s.calls[c].request.key == s.calls[d].request.key ==>
                  s.calls[c].phase.data == s.calls[d].phase.data && s.calls[c].request == s.calls[d].request)
  {
    hide Next, Enabled;
    EndToEnd(actions, maxAttempts);
  }

  /** A buffered operation is in the buffer until it has committed: it is never dropped, nor removed early. */
  lemma BufferedUntilCommitted(actions: seq<Action>, maxAttempts: nat, id: OperationId)
    requires Execution(actions, maxAttempts)
    requires id in After(actions, maxAttempts).created
    ensures var s := After(actions, maxAttempts); id in s.buffer || DoneAtAll(s.server, s.created[id])
  {
    hide Next, Enabled, DoneAtAll;
    EndToEnd(actions, maxAttempts);
  }

  /**
    A repeated request under a key that has committed changes nothing: the same request is answered with what the
    commit answered, any other one is refused for good; whatever the operation would do now.
   */
  lemma ReplayedForEver(actions: seq<Action>, maxAttempts: nat, c: Commit, q: Request, outcome: Option<nat>, retryable: bool)
    requires Execution(actions, maxAttempts)
    requires c in After(actions, maxAttempts).server.commits && q.key == c.key
    ensures var server := After(actions, maxAttempts).server;
            Serve(server, q, outcome, retryable)
            == (server, if q.hash == c.hash then Success(c.data) else Refusal(false))
  {
    hide Next, Enabled;
    EndToEnd(actions, maxAttempts);
    var server := After(actions, maxAttempts).server;
    var row := server.records[c.key];
    assert Commit(c.key, row.hash, row.data.value) in server.commits;
  }

  lemma RecordIsCommitted(server: Server, key: Key)
    requires ServerOk(server) && key in server.records
    ensures exists c :: c in server.commits && c.key == key
  {
    var c := Commit(key, server.records[key].hash, server.records[key].data.value);
    assert c in server.commits && c.key == key;
  }

  /** A key that is free runs the operation: it commits exactly when the operation succeeds, and answers what it says. */
  lemma FreshKeyRuns(actions: seq<Action>, maxAttempts: nat, q: Request, outcome: Option<nat>, retryable: bool)
    requires Execution(actions, maxAttempts)
    requires forall c :: c in After(actions, maxAttempts).server.commits ==> c.key != q.key
    ensures var server := After(actions, maxAttempts).server;
            var (after, reply) := Serve(server, q, outcome, retryable);
            if outcome == None then after == server && reply == Refusal(retryable)
            else after.commits == server.commits + [Commit(q.key, q.hash, outcome.value)]
                 && reply == Success(outcome.value)
  {
    hide Next, Enabled;
    EndToEnd(actions, maxAttempts);
    var server := After(actions, maxAttempts).server;
    if q.key in server.records {
      RecordIsCommitted(server, q.key);
    }
  }

  // ------------------------------------------------------------------------ client, step by step

  /** A call ends with a success or a final refusal, and goes on after a retryable one while attempts are left. */
  lemma CallHears(s: State, call: nat, reply: Reply, maxAttempts: nat)
    requires Enabled(s, CallReply(call, reply))
    ensures var attempt := s.calls[call].phase.attempt;
            var phase := match reply
                         case Success(data) => Phase.Succeeded(data)
                         case Refusal(false) => Failed
                         case Refusal(true) => if attempt < maxAttempts then Sending(attempt + 1) else Failed;
            Next(s, CallReply(call, reply), maxAttempts)
            == s.(calls := s.calls[call := s.calls[call].(phase := phase)])
  {
  }

  /** Without a response it goes on too; after the last attempt it is buffered, exactly if the caller asked for that. */
  lemma CallLosesConnection(s: State, call: nat, id: OperationId, maxAttempts: nat)
    requires Enabled(s, CallNetworkError(call, id))
    ensures var c, t := s.calls[call], Next(s, CallNetworkError(call, id), maxAttempts);
            if c.phase.attempt < maxAttempts then
              t == s.(calls := s.calls[call := c.(phase := Sending(c.phase.attempt + 1))])
            else if c.buffers then
              t == s.(calls := s.calls[call := c.(phase := Buffered)],
                      created := s.created[id := c.request], buffer := s.buffer + [id])
            else t == s.(calls := s.calls[call := c.(phase := Failed)])
  {
  }

  /** What becomes of a flush, and of the buffer, when it hears about the head of its batch. */
  lemma FlushHears(s: State, flush: nat, reply: Reply, maxAttempts: nat)
    requires Enabled(s, FlushReply(flush, reply))
    ensures var f, t := s.flushes[flush], Next(s, FlushReply(flush, reply), maxAttempts);
            var stopped := s.(flushes := s.flushes[flush := f.(running := false)]);
            match reply
            case Success(_) =>
              t == s.(flushes := s.flushes[flush := Flush(f.todo[1..], f.completed + {f.todo[0]}, 1, true)])
            case Refusal(false) => t == stopped
            case Refusal(true) =>
              if f.attempt < maxAttempts then t == s.(flushes := s.flushes[flush := f.(attempt := f.attempt + 1)])
              else t == stopped.(buffer := Without(s.buffer, f.completed), removed := s.removed + f.completed)
  {
  }

  lemma FlushLosesConnection(s: State, flush: nat, maxAttempts: nat)
    requires Enabled(s, FlushNetworkError(flush))
    ensures var f := s.flushes[flush];
            Next(s, FlushNetworkError(flush), maxAttempts)
            == s.(flushes := s.flushes[flush := if f.attempt < maxAttempts then f.(attempt := f.attempt + 1)
                                                else f.(running := false)])
  {
  }

  lemma StartsAtOne(s: State, request: Request, buffers: bool, limit: nat, maxAttempts: nat)
    ensures Next(s, StartCall(request, buffers), maxAttempts)
         == s.(calls := s.calls + [Call(request, buffers, Sending(1))])
    ensures var t := Next(s, StartFlush(limit), maxAttempts);
            && t == s.(flushes := t.flushes)
            && |t.flushes| == |s.flushes| + 1 && t.flushes[..|s.flushes|] == s.flushes
            && var f := t.flushes[|s.flushes|];
               f == Flush(f.todo, {}, 1, true) && f.todo <= s.buffer
               && (|f.todo| == limit || (f.todo == s.buffer && |f.todo| <= limit))
  {
  }
}
