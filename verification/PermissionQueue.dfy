/** Permission requests: what each comes to, whatever is enqueued, answered, timed out or destroyed around it. */
module PermissionQueues {
  import opened Options

  datatype Decision = Allow | Deny | AlwaysAllow
  datatype Status = Pending | Allowed | Denied | AlwaysAllowed | TimedOut

  datatype Request = Request(sessionId: string, requestedAt: int, timeoutAt: int, status: Status,
                             resolvedBy: Option<string>)

  function StatusFor(d: Decision): Status {
    match d
    case Allow => Allowed
    case AlwaysAllow => AlwaysAllowed
    case Deny => Denied
  }

  datatype Answer = Done | NotFound | AlreadyResolved(who: string)

  // ---------------------------------------------------------------------------
  // The queue as a state machine
  // ---------------------------------------------------------------------------

  /** The queue's maps, and what each promise it gave out was resolved with. */
  datatype State = State(requests: map<string, Request>, timers: map<string, int>, resolvers: set<string>,
                         settled: map<string, seq<Decision>>)

  const EMPTY := State(map[], map[], {}, map[])

  datatype Step =
    | Enqueue(id: string, sessionId: string, now: int, timeoutMs: int)
    | Respond(id: string, decision: Decision, who: string)
    | Timeout(id: string)
    | Destroy

  predicate IsPending(s: State, id: string) {
    id in s.requests && s.requests[id].status.Pending?
  }

  function Resolve(settled: map<string, seq<Decision>>, ids: set<string>, d: Decision): map<string, seq<Decision>> {
    map id | id in settled :: if id in ids then settled[id] + [d] else settled[id]
  }

  /** A pending request takes its final status; its timer and its resolver go. */
  function Close(s: State, id: string, status: Status, who: string, d: Decision): State
    requires id in s.requests
  {
    State(s.requests[id := s.requests[id].(status := status, resolvedBy := Some(who))], s.timers - {id},
          s.resolvers - {id}, Resolve(s.settled, s.resolvers * {id}, d))
  }

  function Apply(s: State, step: Step): State {
    match step
    case Enqueue(id, sessionId, now, timeoutMs) =>
      State(s.requests[id := Request(sessionId, now, now + timeoutMs, Pending, None)],
            s.timers[id := now + timeoutMs], s.resolvers + {id}, s.settled[id := []])
    case Respond(id, decision, who) =>
      if IsPending(s, id) then Close(s, id, StatusFor(decision), who, decision) else s
    case Timeout(id) =>
      if IsPending(s, id) then Close(s, id, TimedOut, "timeout", Deny) else s
    case Destroy =>
      State(map[], map[], {}, Resolve(s.settled, s.resolvers, Deny))
  }

  function Run(steps: seq<Step>): State {
    if steps == [] then EMPTY else Apply(Run(steps[..|steps| - 1]), steps[|steps| - 1])
  }

  // ---------------------------------------------------------------------------
  // One request by itself
  // ---------------------------------------------------------------------------

  datatype Promise = Absent | Waiting | Settled(decision: Decision)

  /** One request's life: its promise, and its record until the queue is destroyed. */
  datatype Life = Life(promise: Promise, request: Option<Request>)

  const UNBORN := Life(Absent, None)

  function Live(l: Life, id: string, step: Step): Life {
    match step
    case Enqueue(k, sessionId, now, timeoutMs) =>
      if k == id then Life(Waiting, Some(Request(sessionId, now, now + timeoutMs, Pending, None))) else l
    case Respond(k, decision, who) =>
      if k == id && l.promise.Waiting? && l.request.Some?
      then Life(Settled(decision), Some(l.request.value.(status := StatusFor(decision), resolvedBy := Some(who))))
      else l
    case Timeout(k) =>
      if k == id && l.promise.Waiting? && l.request.Some?
      then Life(Settled(Deny), Some(l.request.value.(status := TimedOut, resolvedBy := Some("timeout"))))
      else l
    case Destroy =>
      Life(if l.promise.Waiting? then Settled(Deny) else l.promise, None)
  }

  function LifeOf(id: string, steps: seq<Step>): Life {
    if steps == [] then UNBORN else Live(LifeOf(id, steps[..|steps| - 1]), id, steps[|steps| - 1])
  }

  /** No id is given out twice. */
  ghost predicate FreshIds(steps: seq<Step>) {
    forall i, j :: 0 <= i < j < |steps| && steps[i].Enqueue? && steps[j].Enqueue? ==> steps[i].id != steps[j].id
  }

  /** Everything the queue holds about an id is what the id's own life says. */
  ghost predicate Shows(s: State, id: string, l: Life) {
    && (id in s.requests <==> l.request.Some?)
    && (id in s.requests ==> s.requests[id] == l.request.value)
    && (id in s.timers <==> l.promise.Waiting?)
    && (id in s.resolvers <==> l.promise.Waiting?)
    && (id in s.settled <==> !l.promise.Absent?)
    && (id in s.settled ==> s.settled[id] == if l.promise.Settled? then [l.promise.decision] else [])
    && (l.promise.Waiting? <==> l.request.Some? && l.request.value.status.Pending?)
    && (id in s.timers ==> s.timers[id] == s.requests[id].timeoutAt)
  }

  lemma StepShows(s: State, id: string, l: Life, step: Step)
    requires Shows(s, id, l)
    ensures Shows(Apply(s, step), id, Live(l, id, step))
  {
  }

  /** The queue is its requests, each living by itself: whatever the interleaving, the state about an id depends on no
      other id's steps. */
  lemma {:induction false} QueueIsItsRequests(steps: seq<Step>, id: string)
    ensures Shows(Run(steps), id, LifeOf(id, steps))
  {
    if steps != [] {
      var front, last := steps[..|steps| - 1], steps[|steps| - 1];
      QueueIsItsRequests(front, id);
      StepShows(Run(front), id, LifeOf(id, front), last);
    }
  }

  // ---------------------------------------------------------------------------
  // Over whole runs
  // ---------------------------------------------------------------------------

  /** The timers, the resolvers and the pending requests have the same ids. */
  lemma {:induction false} SameKeys(steps: seq<Step>)
    ensures var s := Run(steps);
              s.timers.Keys == s.resolvers == set id | id in s.requests && s.requests[id].status.Pending?
  {
    var s := Run(steps);
    var pending := set id | id in s.requests && s.requests[id].status.Pending?;
    hide Run;
    forall id ensures (id in s.timers <==> id in s.resolvers) && (id in s.resolvers <==> id in pending) {
      QueueIsItsRequests(steps, id);
    }
  }

  /** Each promise is resolved at most once, and has been exactly when its request is no longer pending. */
  lemma ResolvedAtMostOnce(steps: seq<Step>, id: string)
    requires id in Run(steps).settled
    ensures |Run(steps).settled[id]| == if IsPending(Run(steps), id) then 0 else 1
  {
    QueueIsItsRequests(steps, id);
    hide Run;
  }

  /** What can settle a waiting request, and with which decision. */
  predicate Decides(step: Step, id: string, d: Decision) {
    match step
    case Enqueue(_, _, _, _) => false
    case Respond(k, decision, _) => k == id && decision == d
    case Timeout(k) => k == id && d == Deny
    case Destroy => d == Deny
  }

  /** A promise's resolution has a cause: a step that decides so, at a time when the request was pending. In particular
      an allowing one comes from a response that says so. */
  lemma ResolutionHasACause(steps: seq<Step>, id: string) returns (k: nat)
    requires id in Run(steps).settled && Run(steps).settled[id] != []
    ensures k < |steps| && IsPending(Run(steps[..k]), id) && Decides(steps[k], id, Run(steps).settled[id][0])
  {
    QueueIsItsRequests(steps, id);
    k := LifeHasACause(steps, id);
    QueueIsItsRequests(steps[..k], id);
    hide Run;
  }

  lemma {:induction false} LifeHasACause(steps: seq<Step>, id: string) returns (k: nat)
    requires LifeOf(id, steps).promise.Settled?
    ensures k < |steps| && LifeOf(id, steps[..k]).promise.Waiting?
    ensures Decides(steps[k], id, LifeOf(id, steps).promise.decision)
  {
    var front := steps[..|steps| - 1];
    if LifeOf(id, front).promise.Settled? && LifeOf(id, front).promise == LifeOf(id, steps).promise {
      k := LifeHasACause(front, id);
      assert steps[..k] == front[..k];
    } else {
      k := |steps| - 1;
    }
  }

  ghost predicate Enqueued(steps: seq<Step>, id: string) {
    exists i :: 0 <= i < |steps| && steps[i].Enqueue? && steps[i].id == id
  }

  lemma {:induction false} BornWhenEnqueued(id: string, steps: seq<Step>)
    ensures LifeOf(id, steps).promise.Absent? <==> !Enqueued(steps, id)
  {
    if steps != [] {
      var front, last := steps[..|steps| - 1], steps[|steps| - 1];
      assert steps == front + [last];
      BornWhenEnqueued(id, front);
      assert Enqueued(steps, id) <==> Enqueued(front, id) || (last.Enqueue? && last.id == id) by {
        if Enqueued(front, id) {
          var i :| 0 <= i < |front| && front[i].Enqueue? && front[i].id == id;
          assert steps[i] == front[i];
        }
        if last.Enqueue? && last.id == id { assert steps[|front|] == last; }
      }
    }
  }

  lemma FreshPrefix(front: seq<Step>, last: Step)
    requires FreshIds(front + [last])
    ensures FreshIds(front) && (last.Enqueue? ==> !Enqueued(front, last.id))
  {
    var steps := front + [last];
    assert forall i :: 0 <= i < |front| ==> steps[i] == front[i];
    assert steps[|front|] == last;
  }

  /** A settled promise stays as it is, and a final status too, until the queue is destroyed. */
  lemma {:induction false} SettledForGood(id: string, steps: seq<Step>, more: seq<Step>)
    requires FreshIds(steps + more) && LifeOf(id, steps).promise.Settled?
    ensures LifeOf(id, steps + more).promise == LifeOf(id, steps).promise
    ensures LifeOf(id, steps + more).request in {LifeOf(id, steps).request, None}
  {
    if more == [] {
      assert steps + more == steps;
    } else {
      var front, last := steps + more[..|more| - 1], more[|more| - 1];
      assert steps + more == front + [last] && (front + [last])[..|front|] == front;
      FreshPrefix(front, last);
      SettledForGood(id, steps, more[..|more| - 1]);
      BornWhenEnqueued(id, front);
    }
  }

  /** In the queue: what a request's status and promise once are, they are at every later time. */
  lemma FinalStatusStays(id: string, steps: seq<Step>, more: seq<Step>)
    requires FreshIds(steps + more) && id in Run(steps).settled && !IsPending(Run(steps), id)
    ensures id in Run(steps + more).settled && Run(steps + more).settled[id] == Run(steps).settled[id]
    ensures id in Run(steps + more).requests ==>
              id in Run(steps).requests && Run(steps + more).requests[id] == Run(steps).requests[id]
  {
    QueueIsItsRequests(steps, id);
    QueueIsItsRequests(steps + more, id);
    SettledForGood(id, steps, more);
    hide Run, LifeOf;
  }

  /** A request's status, as long as it is kept, tells how its promise was resolved. */
  lemma StatusTellsResolution(steps: seq<Step>, id: string)
    requires id in Run(steps).requests
    ensures var s := Run(steps);
              && id in s.settled
              && s.settled[id] == match s.requests[id].status
                                  case Pending => []
                                  case Allowed => [Allow]
                                  case AlwaysAllowed => [AlwaysAllow]
                                  case Denied => [Deny]
                                  case TimedOut => [Deny]
  {
    QueueIsItsRequests(steps, id);
    StatusOfLife(id, steps);
    hide Run, LifeOf;
  }

  lemma {:induction false} StatusOfLife(id: string, steps: seq<Step>)
    requires LifeOf(id, steps).request.Some?
    ensures var l := LifeOf(id, steps);
              match l.request.value.status
              case Pending => l.promise == Waiting
              case Allowed => l.promise == Settled(Allow)
              case AlwaysAllowed => l.promise == Settled(AlwaysAllow)
              case Denied => l.promise == Settled(Deny)
              case TimedOut => l.promise == Settled(Deny)
  {
    var front := steps[..|steps| - 1];
    if LifeOf(id, front).request.Some? { StatusOfLife(id, front); }
  }

  // ---------------------------------------------------------------------------
  // The queue
  // ---------------------------------------------------------------------------

  class PermissionQueue {
    const timeoutMs: int
    var requests: map<string, Request>
    var timers: map<string, int>
    var resolvers: set<string>
    // What each promise given out was resolved with, and the calls so far.
    ghost var settled: map<string, seq<Decision>>
    ghost var steps: seq<Step>

    ghost predicate Valid()
      reads this
    {
      State(requests, timers, resolvers, settled) == Run(steps)
    }

    constructor (timeoutMs: int)
      ensures Valid() && steps == [] && this.timeoutMs == timeoutMs
    {
      this.timeoutMs := timeoutMs;
      requests, timers, resolvers, settled, steps := map[], map[], {}, map[], [];
    }

    /** The new promise is the one of the given id. */
    method Enqueue(id: string, sessionId: string, now: int)
      requires Valid()
      modifies this
      ensures Valid() && steps == old(steps) + [Step.Enqueue(id, sessionId, now, timeoutMs)]
      ensures requests == old(requests)[id := Request(sessionId, now, now + timeoutMs, Pending, None)]
      ensures timers == old(timers)[id := now + timeoutMs] && resolvers == old(resolvers) + {id}
      ensures settled == old(settled)[id := []]
    {
      var request := Request(sessionId, now, now + timeoutMs, Pending, None);
      requests := requests[id := request];
      timers := timers[id := now + timeoutMs];
      resolvers := resolvers + {id};
      settled := settled[id := []];
      steps := steps + [Step.Enqueue(id, sessionId, now, timeoutMs)];
      assert steps[..|steps| - 1] == old(steps);
    }

    /** Calls the resolver of an id, if there is one, and forgets it. */
    method ResolveOne(id: string, d: Decision)
      modifies `resolvers, `settled
      ensures resolvers == old(resolvers) - {id}
      ensures settled == Resolve(old(settled), old(resolvers) * {id}, d)
    {
      if id in resolvers {
        settled := Resolve(settled, {id}, d);
        resolvers := resolvers - {id};
      }
    }

    /** A pending request takes the answer, and its promise is resolved with it; otherwise nothing changes. */
    method Respond(id: string, decision: Decision, who: string) returns (a: Answer)
      requires Valid()
      modifies this
      ensures Valid() && steps == old(steps) + [Step.Respond(id, decision, who)]
      ensures a.Done? <==> IsPending(Run(old(steps)), id)
      ensures a.NotFound? <==> id !in Run(old(steps)).requests
      ensures a.AlreadyResolved? ==> Run(old(steps)).requests[id].resolvedBy == Some(a.who)
      ensures a.Done? ==> id in old(requests) && settled == old(settled)[id := [decision]]
      ensures a.Done? ==> id in requests && requests[id].resolvedBy == Some(who)
                          && requests == old(requests)[id := old(requests)[id].(status := requests[id].status,
                                                                                 resolvedBy := Some(who))]
      ensures a.Done? ==> match decision
                          case Allow => requests[id].status == Allowed
                          case AlwaysAllow => requests[id].status == AlwaysAllowed
                          case Deny => requests[id].status == Denied
      ensures a.Done? ==> timers == old(timers) - {id} && resolvers == old(resolvers) - {id}
      ensures !a.Done? ==> requests == old(requests) && timers == old(timers) && resolvers == old(resolvers)
                           && settled == old(settled)
    {
      RunSnoc(steps, Step.Respond(id, decision, who));
      QueueIsItsRequests(steps, id);
      ResolvedByIsKnown(id, steps);
      hide Run, LifeOf;
      ghost var before := State(requests, timers, resolvers, settled);
      steps := steps + [Step.Respond(id, decision, who)];
      if id !in requests {
        return NotFound;
      }
      var request := requests[id];
      if !request.status.Pending? {
        return AlreadyResolved(if request.resolvedBy.Some? then request.resolvedBy.value else "unknown");
      }
      requests := requests[id := request.(status := StatusFor(decision), resolvedBy := Some(who))];
      if id in timers {
        timers := timers - {id};
      }
      ResolveOpen(settled, resolvers, id, decision);
      ResolveOne(id, decision);
      a := Done;
      assert State(requests, timers, resolvers, settled) == Close(before, id, StatusFor(decision), who, decision);
    }

    /** A pending request is denied for want of an answer; otherwise nothing changes. */
    method HandleTimeout(id: string)
      requires Valid()
      modifies this
      ensures Valid() && steps == old(steps) + [Timeout(id)]
      ensures if id in old(requests) && old(requests)[id].status.Pending? then
                && requests == old(requests)[id := old(requests)[id].(status := TimedOut,
                                                                       resolvedBy := Some("timeout"))]
                && settled == old(settled)[id := [Deny]]
                && timers == old(timers) - {id} && resolvers == old(resolvers) - {id}
              else requests == old(requests) && settled == old(settled) && timers == old(timers)
                   && resolvers == old(resolvers)
    {
      RunSnoc(steps, Timeout(id));
      QueueIsItsRequests(steps, id);
      hide Run, LifeOf;
      ghost var before := State(requests, timers, resolvers, settled);
      steps := steps + [Timeout(id)];
      if id !in requests || !requests[id].status.Pending? {
        return;
      }
      requests := requests[id := requests[id].(status := TimedOut, resolvedBy := Some("timeout"))];
      timers := timers - {id};
      // Always a denial, whatever the configured action.
      ResolveOpen(settled, resolvers, id, Deny);
      ResolveOne(id, Deny);
      assert State(requests, timers, resolvers, settled) == Close(before, id, TimedOut, "timeout", Deny);
    }

    /** Every promise still open is denied. */
    method Destroy()
      requires Valid()
      modifies this
      ensures Valid() && steps == old(steps) + [Step.Destroy]
      ensures requests == map[] && timers == map[] && resolvers == {}
      ensures settled.Keys == old(settled).Keys
      ensures forall id :: id in settled ==>
                settled[id] == if id in old(resolvers) then old(settled)[id] + [Deny] else old(settled)[id]
    {
      RunSnoc(steps, Step.Destroy);
      ResolveNone(settled, Deny);
      ResolveEach(settled, resolvers, Deny);
      hide Run, Resolve;
      timers := map[];
      var todo := resolvers;
      while todo != {}
        invariant todo <= resolvers && resolvers == old(resolvers) && timers == map[] && steps == old(steps)
        invariant settled == Resolve(old(settled), old(resolvers) - todo, Deny)
      {
        var id :| id in todo;
        ResolveOneMore(old(settled), resolvers - todo, id, Deny);
        settled := Resolve(settled, {id}, Deny);
        assert resolvers - (todo - {id}) == (resolvers - todo) + {id};
        todo := todo - {id};
      }
      resolvers := {};
      requests := map[];
      steps := steps + [Step.Destroy];
      assert old(resolvers) - todo == old(resolvers);
    }
  }

  lemma ResolveOpen(settled: map<string, seq<Decision>>, resolvers: set<string>, id: string, d: Decision)
    requires id in resolvers && id in settled && settled[id] == []
    ensures Resolve(settled, resolvers * {id}, d) == settled[id := [d]]
  {
    assert settled[id] + [d] == [d];
    assert Resolve(settled, resolvers * {id}, d).Keys == settled.Keys == settled[id := [d]].Keys;
  }

  lemma ResolveEach(settled: map<string, seq<Decision>>, ids: set<string>, d: Decision)
    ensures Resolve(settled, ids, d).Keys == settled.Keys
    ensures forall id :: id in settled ==>
              Resolve(settled, ids, d)[id] == if id in ids then settled[id] + [d] else settled[id]
  {
  }

  lemma ResolveNone(settled: map<string, seq<Decision>>, d: Decision)
    ensures forall ids: set<string> :: ids == {} ==> Resolve(settled, ids, d) == settled
  {
  }

  lemma ResolveOneMore(settled: map<string, seq<Decision>>, ids: set<string>, id: string, d: Decision)
    requires id !in ids
    ensures Resolve(Resolve(settled, ids, d), {id}, d) == Resolve(settled, ids + {id}, d)
  {
  }

  lemma RunSnoc(steps: seq<Step>, step: Step)
    ensures Run(steps + [step]) == Apply(Run(steps), step)
  {
    assert (steps + [step])[..|steps|] == steps;
  }

  /** A request that is no longer pending names who resolved it. */
  lemma {:induction false} ResolvedByIsKnown(id: string, steps: seq<Step>)
    ensures var l := LifeOf(id, steps);
              l.request.Some? && !l.request.value.status.Pending? ==> l.request.value.resolvedBy.Some?
  {
    if steps != [] { ResolvedByIsKnown(id, steps[..|steps| - 1]); }
  }
}
