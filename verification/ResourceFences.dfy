/**
  Resource fences: every begin takes a larger token than any before it on the same resource, and
  only the run that took the largest can pass the fence check around an external call.
 */
module ResourceFences {
  import opened EffectTable
  import opened Tables
  import opened EffectRuntime
  import opened RunSteps
  import opened RunInvariant
  import opened Protocol
  import opened Leases
  import opened OutsideWriters

  predicate AcquiredOn(event: Event, resource: ResourceKey) {
    event.Acquired? && event.resource == resource
  }

  /** The token a reader of the log would expect a resource to be at. */
  function LatestToken(log: seq<Event>, resource: ResourceKey): nat {
    if log == [] then 0
    else if AcquiredOn(log[|log| - 1], resource) then log[|log| - 1].token
    else LatestToken(log[..|log| - 1], resource)
  }

  predicate Rising(log: seq<Event>) {
    forall p, q :: 0 <= p < q < |log| && log[p].Acquired? && log[q].Acquired? && log[p].resource == log[q].resource ==>
      log[p].token < log[q].token
  }

  ghost predicate FenceInv(s: State) {
    && Rising(s.log)
    && (forall p :: 0 <= p < |s.log| && s.log[p].Acquired? ==> s.log[p].token <= CurrentToken(s.db, s.log[p].resource))
    && (forall resource :: CurrentToken(s.db, resource) == LatestToken(s.log, resource))
  }

  function CurrentToken(db: Db, resource: ResourceKey): nat {
    if resource in db.fences then db.fences[resource].token else 0
  }

  lemma LatestOne(log: seq<Event>, event: Event, resource: ResourceKey)
    ensures LatestToken(log + [event], resource)
         == if AcquiredOn(event, resource) then event.token else LatestToken(log, resource)
  {
    assert (log + [event])[..|log|] == log;
  }

  lemma {:induction false} LatestOther(log: seq<Event>, events: seq<Event>, resource: ResourceKey)
    requires forall k :: 0 <= k < |events| ==> !AcquiredOn(events[k], resource)
    ensures LatestToken(log + events, resource) == LatestToken(log, resource)
    decreases |events|
  {
    if events == [] {
      assert log + events == log;
    } else {
      var init, last := events[..|events| - 1], events[|events| - 1];
      LatestOther(log, init, resource);
      LatestOne(log + init, last, resource);
      assert log + events == log + init + [last];
    }
  }

  // ------------------------------------------------------------------------- steps

  /** Events that acquire nothing, over tables whose fences did not move. */
  lemma FencesIdle(s: State, t: State, events: seq<Event>)
    requires FenceInv(s) && t.log == s.log + events && t.db.fences == s.db.fences
    requires forall k :: 0 <= k < |events| ==> !events[k].Acquired?
    ensures FenceInv(t)
  {
    forall resource ensures CurrentToken(t.db, resource) == LatestToken(t.log, resource) {
      LatestOther(s.log, events, resource);
    }
    forall p | 0 <= p < |t.log| && t.log[p].Acquired? ensures p < |s.log| && t.log[p] == s.log[p] {
      assert t.log[p] == (s.log + events)[p];
    }
  }

  /** One acquisition, after events that acquire nothing. */
  lemma FencesAcquire(s: State, t: State, events: seq<Event>, resource: ResourceKey, token: nat)
    requires FenceInv(s) && t.log == s.log + events + [Acquired(resource, token)]
    requires forall k :: 0 <= k < |events| ==> !events[k].Acquired?
    requires token == CurrentToken(s.db, resource) + 1
    requires resource in t.db.fences && t.db.fences[resource].token == token
    requires forall other :: other != resource ==> CurrentToken(t.db, other) == CurrentToken(s.db, other)
    ensures FenceInv(t)
  {
    var mid := State(s.db, s.runs, s.log + events, s.owner);
    FencesIdle(s, mid, events);
    forall other ensures CurrentToken(t.db, other) == LatestToken(t.log, other) {
      LatestOne(mid.log, Acquired(resource, token), other);
      assert CurrentToken(mid.db, other) == LatestToken(mid.log, other);
    }
    forall p | 0 <= p < |t.log| && t.log[p].Acquired?
      ensures t.log[p].token <= CurrentToken(t.db, t.log[p].resource)
    {
      if p < |mid.log| {
        assert t.log[p] == mid.log[p];
      }
    }
  }

  lemma FenceWork(s: State, act: Action)
    requires FenceInv(s) && Enabled(s, act) && act.Work?
    ensures FenceInv(Next(s, act))
  {
    hide Step, FenceHeld, CanTransition, LatestToken, FenceInv;
    var run := s.runs[act.run];
    var result := Step(s.db, run, act.run, act.oracle);
    var kind := StepKind(s.db, run, act.run, act.oracle);
    var t := Next(s, act);
    if kind.Begins? {
      var resource := s.db.intents[run.intentId].resource;
      var token := CurrentToken(s.db, resource) + 1;
      assert t.log == s.log + [result.events[0]] + [Acquired(resource, token)];
      FencesAcquire(s, t, [result.events[0]], resource, token);
    } else {
      FencesIdle(s, t, result.events);
    }
  }

  lemma {:induction false} PathEventsAcquireNothing(intentId: IntentId, from: Status, path: seq<Status>)
    ensures forall k :: 0 <= k < |PathEvents(intentId, from, path)| ==> !PathEvents(intentId, from, path)[k].Acquired?
    decreases |path|
  {
    if path != [] {
      PathEventsAcquireNothing(intentId, path[0], path[1..]);
    }
  }

  lemma FenceOutside(s: State, t: State, change: Change)
    requires FenceInv(s) && Outside(s.db, t.db, change) && t.log == s.log + ChangeEvents(s.db, change)
    ensures FenceInv(t)
  {
    hide LegalPath, FenceInv;
    if change.intentId in s.db.intents {
      PathEventsAcquireNothing(change.intentId, s.db.intents[change.intentId].status, change.path);
    }
    FencesIdle(s, t, ChangeEvents(s.db, change));
  }

  lemma FenceQuiet(s: State, act: Action)
    requires FenceInv(s) && Enabled(s, act) && !act.Work? && !OutsideAction(act)
    ensures FenceInv(Next(s, act))
  {
    hide FenceInv, FenceHeld, LatestToken;
    var t := Next(s, act);
    if act.Prepare? && t.db != s.db {
      var resource := act.draft.resource;
      assert t.log == s.log + [] + [Acquired(resource, CurrentToken(s.db, resource) + 1)];
      FencesAcquire(s, t, [], resource, CurrentToken(s.db, resource) + 1);
    } else if act.Claim? {
      FencesIdle(s, t, [t.log[|s.log|]]);
    } else {
      QuietFences(s, act);
      assert t.log == s.log + [];
      FencesIdle(s, t, []);
    }
  }

  lemma QuietFences(s: State, act: Action)
    requires Enabled(s, act) && !act.Work? && !OutsideAction(act) && !act.Claim?
    requires act.Prepare? ==> Next(s, act).db == s.db
    ensures Next(s, act).db.fences == s.db.fences && Next(s, act).log == s.log
  {
    hide FenceHeld;
  }

  // ------------------------------------------------------------------------- theorems

  lemma {:induction false} FencesHold(actions: seq<Action>)
    requires Execution(actions)
    ensures FenceInv(StateAfter(actions))
  {
    hide Next, FenceInv, Enabled;
    if actions == [] {
      FencesInitially();
    } else {
      var before, act := actions[..|actions| - 1], actions[|actions| - 1];
      FencesHold(before);
      LeasesHold(before);
      var s := StateAfter(before);
      if act.Work? {
        FenceWork(s, act);
      } else if OutsideAction(act) {
        if act.Fail? {
          FailedRunFits(s, act);
        }
        var change := OutsideStep(s, act);
        FenceOutside(s, Next(s, act), change);
      } else {
        FenceQuiet(s, act);
      }
    }
  }

  lemma FencesInitially()
    ensures FenceInv(INITIAL)
  {
  }

  /** On one resource, every begin takes a strictly larger token than every begin before it. */
  lemma TokensRise(actions: seq<Action>, p: nat, q: nat)
    requires Execution(actions)
    requires var log := StateAfter(actions).log;
             p < q < |log| && log[p].Acquired? && log[q].Acquired? && log[p].resource == log[q].resource
    ensures StateAfter(actions).log[p].token < StateAfter(actions).log[q].token
  {
    FencesHold(actions);
  }

  /** A run that passes the external fence check holds the token of the last acquisition of its resource. */
  lemma OnlyTheLatestAcquirer(actions: seq<Action>, r: nat)
    requires Execution(actions)
    requires var s := StateAfter(actions); r < |s.runs| && ExternalFenceHeld(s.db, s.runs[r])
    ensures var s := StateAfter(actions); s.runs[r].local.token == Some(LatestToken(s.log, s.runs[r].local.resource))
  {
    hide Next, Enabled, LatestToken, FenceHeld;
    FencesHold(actions);
  }

  /** So an earlier token fails it as soon as anybody has acquired the same resource after it. */
  lemma EarlierAcquirersFail(actions: seq<Action>, r: nat, p: nat, q: nat)
    requires Execution(actions)
    requires var s := StateAfter(actions);
             && r < |s.runs| && p < q < |s.log|
             && s.log[p].Acquired? && s.runs[r].local.token == Some(s.log[p].token)
             && s.log[p].resource == s.runs[r].local.resource
             && AcquiredOn(s.log[q], s.runs[r].local.resource)
    ensures !ExternalFenceHeld(StateAfter(actions).db, StateAfter(actions).runs[r])
  {
    hide Next, Enabled, LatestToken, FenceHeld;
    FencesHold(actions);
  }
}
