/**
  The client's loops (packages/sdk-typescript/src/client.ts:440-547) and the buffer they work on
  (packages/sdk-typescript/src/offline.ts:34-60). What each HTTP attempt answers is a parameter.
 */
module OfflineClient {
  import opened AtMostOnce

  datatype Answer = Delivered(reply: Reply) | Unreachable

  /** Worth another attempt: no response, or a response marked retryable. */
  predicate Retryable(answer: Answer) {
    answer.Unreachable? || (answer.reply.Refusal? && answer.reply.retryable)
  }

  predicate Succeeds(answer: Answer) {
    answer.Delivered? && answer.reply.Success?
  }

  /** The first answer that is not worth another attempt, or the last one allowed. */
  function FinalAnswer(answers: nat -> Answer, attempt: nat, maxAttempts: nat): Answer
    requires attempt <= maxAttempts
    decreases maxAttempts - attempt
  {
    if Retryable(answers(attempt)) && attempt < maxAttempts then FinalAnswer(answers, attempt + 1, maxAttempts)
    else answers(attempt)
  }

  /** The retry loop: attempts go on through retryable answers, and only through those, up to the limit. */
  method Send(answers: nat -> Answer, maxAttempts: nat) returns (final: Answer, attempts: nat)
    requires maxAttempts >= 1
    ensures 1 <= attempts <= maxAttempts && final == answers(attempts)
    ensures final == FinalAnswer(answers, 1, maxAttempts)
    ensures forall k :: 1 <= k < attempts ==> answers(k) == Unreachable || answers(k) == Delivered(Refusal(true))
    ensures (final.Delivered? && final.reply != Refusal(true)) || attempts == maxAttempts
  {
    attempts := 1;
    final := answers(1);
    while Retryable(final) && attempts < maxAttempts
      invariant 1 <= attempts <= maxAttempts && final == answers(attempts)
      invariant FinalAnswer(answers, 1, maxAttempts) == FinalAnswer(answers, attempts, maxAttempts)
      invariant forall k :: 1 <= k < attempts ==> Retryable(answers(k))
      decreases maxAttempts - attempts
    {
      attempts := attempts + 1;
      final := answers(attempts);
    }
  }

  /** What the protocol makes of one answer to a call; `id` is what it would be buffered under. */
  function Hearing(call: nat, answer: Answer, id: OperationId): Action {
    if answer.Delivered? then CallReply(call, answer.reply) else CallNetworkError(call, id)
  }

  /** Answer by answer the call is brought from `s` to `t`, where it waits no longer. */
  ghost predicate Heard(
    s: State, call: nat, answers: nat -> Answer, attempt: nat, maxAttempts: nat, id: OperationId, t: State)
    requires attempt <= maxAttempts
    decreases maxAttempts - attempt
  {
    && Enabled(s, Hearing(call, answers(attempt), id))
    && var next := Next(s, Hearing(call, answers(attempt), id), maxAttempts);
       if Waiting(next, call) then attempt < maxAttempts && Heard(next, call, answers, attempt + 1, maxAttempts, id, t)
       else next == t
  }

  /** How a call ends that ends with this answer. */
  function PhaseOf(final: Answer, buffers: bool): Phase {
    match final
    case Delivered(Success(data)) => Phase.Succeeded(data)
    case Delivered(Refusal(_)) => Phase.Failed
    case Unreachable => if buffers then Buffered else Phase.Failed
  }

  /** The calls of the protocol are the retry loop: each ends as the loop does on the same answers. */
  lemma {:induction false} CallsSend(
    s: State, call: nat, answers: nat -> Answer, attempt: nat, maxAttempts: nat, id: OperationId, t: State)
    requires attempt <= maxAttempts && Waiting(s, call) && s.calls[call].phase == Sending(attempt)
    requires Heard(s, call, answers, attempt, maxAttempts, id, t)
    ensures |t.calls| == |s.calls|
    ensures t.calls[call].phase == PhaseOf(FinalAnswer(answers, attempt, maxAttempts), s.calls[call].buffers)
    decreases maxAttempts - attempt
  {
    var next := Next(s, Hearing(call, answers(attempt), id), maxAttempts);
    if Waiting(next, call) {
      CallsSend(next, call, answers, attempt + 1, maxAttempts, id, t);
    }
  }

  /** Operations in the order they were buffered. */
  class MemoryOfflineBuffer {
    var operations: seq<OperationId>

    constructor ()
      ensures operations == []
    {
      operations := [];
    }

    method Enqueue(id: OperationId)
      requires id !in operations
      modifies this
      ensures operations == old(operations) + [id]
    {
      operations := operations + [id];
    }

    method Peek(limit: int) returns (first: seq<OperationId>)
      ensures first == Front(operations, limit)
    {
      first := operations[..Least(if limit < 0 then 0 else limit, |operations|)];
    }

    method Remove(ids: seq<OperationId>)
      modifies this
      ensures operations == Without(old(operations), Members(ids))
    {
      WithoutNothing(operations);
      var removed: set<OperationId> := {};
      for k := 0 to |ids|
        invariant removed == Members(ids[..k])
        invariant operations == Without(old(operations), removed)
      {
        assert ids[..k + 1] == ids[..k] + [ids[k]];
        WithoutTwice(old(operations), removed, {ids[k]});
        operations := Without(operations, {ids[k]});
        removed := removed + {ids[k]};
      }
      assert ids[..|ids|] == ids;
    }

    /**
      flushOffline: sends the front of the buffer in order. It stops at the first operation that does not
      succeed; a retryable refusal there ends the flush normally, anything else throws, and a throw removes
      nothing, not even what has succeeded.
     */
    method FlushOffline(limit: int, answers: (OperationId, nat) -> Answer, maxAttempts: nat)
      returns (flushed: seq<OperationId>, threw: bool)
      requires maxAttempts >= 1
      modifies this
      ensures flushed <= Front(old(operations), limit)
      ensures forall k :: 0 <= k < |flushed| ==> Succeeds(FinalFor(answers, flushed[k], maxAttempts))
      ensures var batch, done := Front(old(operations), limit), |flushed|;
              && (done < |batch| ==> !Succeeds(FinalFor(answers, batch[done], maxAttempts)))
              && (threw <==>
                    && done < |batch|
                    && FinalFor(answers, batch[done], maxAttempts) in {Unreachable, Delivered(Refusal(false))})
      ensures threw ==> operations == old(operations)
      ensures !threw ==> operations == Without(old(operations), Members(flushed))
    {
      var batch := Peek(limit);
      flushed, threw := [], false;
      for k := 0 to |batch|
        invariant operations == old(operations) && flushed == batch[..k]
        invariant forall j :: 0 <= j < k ==> Succeeds(FinalFor(answers, flushed[j], maxAttempts))
      {
        var final, attempts := Send(AttemptsAt(answers, batch[k]), maxAttempts);
        if final.Delivered? && final.reply.Success? {
          flushed := flushed + [batch[k]];
        } else if final.Delivered? && final.reply.retryable {
          break;
        } else {
          return flushed, true;
        }
      }
      Remove(flushed);
    }
  }

  function Front(operations: seq<OperationId>, limit: int): seq<OperationId> {
    operations[..Least(if limit < 0 then 0 else limit, |operations|)]
  }

  /** The first operations, as many as the limit says and there are; none for a negative limit. */
  lemma FrontIsPrefix(operations: seq<OperationId>, limit: int)
    ensures Front(operations, limit) <= operations
    ensures |Front(operations, limit)| == if limit <= 0 then 0 else if limit <= |operations| then limit else |operations|
  {
  }

  function AttemptsAt(answers: (OperationId, nat) -> Answer, id: OperationId): nat -> Answer {
    (n: nat) => answers(id, n)
  }

  /** How sending one buffered operation ends. */
  function FinalFor(answers: (OperationId, nat) -> Answer, id: OperationId, maxAttempts: nat): Answer
    requires maxAttempts >= 1
  {
    FinalAnswer(AttemptsAt(answers, id), 1, maxAttempts)
  }

  function Members(ids: seq<OperationId>): set<OperationId> {
    set id | id in ids
  }

  function Least(a: int, b: int): int {
    if a <= b then a else b
  }

  lemma {:induction false} WithoutNothing(queue: seq<OperationId>)
    ensures Without(queue, {}) == queue
  {
    if queue != [] {
      WithoutNothing(queue[..|queue| - 1]);
      assert queue == queue[..|queue| - 1] + [queue[|queue| - 1]];
    }
  }

  lemma {:induction false} WithoutTwice(queue: seq<OperationId>, a: set<OperationId>, b: set<OperationId>)
    ensures Without(Without(queue, a), b) == Without(queue, a + b)
  {
    if queue != [] {
      var init, last := queue[..|queue| - 1], queue[|queue| - 1];
      WithoutTwice(init, a, b);
      if last !in a {
        assert (Without(init, a) + [last])[..|Without(init, a)|] == Without(init, a);
      }
    }
  }
}
