/** The offline queue: one flush, with enqueues arriving while it awaits, and its manifest on disk. */
module SyncQueues {
  import opened Options
  import opened Seqs

  datatype Item = Item(id: string, payload: string, addedAt: string, retries: int,
                       lastAttempt: Option<string>, lastError: Option<string>)

  const MAX_RETRIES := 10
  const BASE_DELAY_MS := 1000
  const MAX_DELAY_MS := 60000

  /** What the sender does with a payload. */
  datatype SendResult = Delivered | Rejected(at: string, error: string)

  /** The surroundings of one turn of the flush loop: what is enqueued while it awaits the sender,
      what the sender does, and what is enqueued during the backoff. */
  datatype Turn = Turn(duringSend: seq<Item>, result: SendResult, duringBackoff: seq<Item>)

  datatype Outcome = Sent(item: Item) | Failed(item: Item) | DeadLettered(item: Item)

  /** The manifest file. */
  datatype Manifest = Missing | Corrupt | Holds(items: seq<Item>)

  /** The queue in memory and in the manifest at one moment. */
  datatype Snapshot = Snapshot(queue: seq<Item>, manifest: Manifest)

  /** `log` has one outcome per handled item, `awaits` the moments at which the flush suspends or resumes. */
  datatype Flush = Flush(now: Snapshot, log: seq<Outcome>, arrived: seq<Item>, awaits: seq<Snapshot>)

  function Bumped(x: Item, r: SendResult): Item
    requires r.Rejected?
  {
    x.(retries := x.retries + 1, lastAttempt := Some(r.at), lastError := Some(r.error))
  }

  /** Every enqueue pushes and rewrites the manifest. */
  function Arrive(s: Snapshot, items: seq<Item>): Snapshot {
    if items == [] then s else Snapshot(s.queue + items, Holds(s.queue + items))
  }

  /** One turn of the loop. */
  function TakeTurn(f: Flush, t: Turn): Flush {
    if f.now.queue == [] then f
    else
      var item := f.now.queue[0];
      if item.retries >= MAX_RETRIES then
        var rest := f.now.queue[1..];
        f.(now := Snapshot(rest, Holds(rest)), log := f.log + [DeadLettered(item)])
      else
        var sending := Arrive(f.now, t.duringSend);
        match t.result
        case Delivered =>
          var rest := sending.queue[1..];
          Flush(Snapshot(rest, Holds(rest)), f.log + [Sent(item)], f.arrived + t.duringSend,
                f.awaits + [f.now, sending])
        case Rejected(_, _) =>
          var bumped := Bumped(item, t.result);
          var marked := sending.queue[0 := bumped];
          var waiting := Snapshot(marked, Holds(marked));
          var woken := Arrive(waiting, t.duringBackoff);
          Flush(woken.(queue := woken.queue[1..] + [bumped]), f.log + [Failed(item)],
                f.arrived + t.duringSend + t.duringBackoff, f.awaits + [f.now, sending, waiting, woken])
  }

  function TakeTurns(f: Flush, script: seq<Turn>): Flush
    decreases |script|
  {
    if script == [] then f else TakeTurns(TakeTurn(f, script[0]), script[1..])
  }

  function Begin(s: Snapshot): Flush {
    Flush(s, [], [], [])
  }

  function CountSent(log: seq<Outcome>): nat {
    if log == [] then 0 else CountSent(log[..|log| - 1]) + if log[|log| - 1].Sent? then 1 else 0
  }

  /** A missing or corrupted manifest starts afresh. */
  function Restored(manifest: Manifest): seq<Item> {
    if manifest.Holds? then manifest.items else []
  }

  /** An item as it is enqueued. */
  function NewItem(id: string, payload: string, now: string): Item {
    Item(id, payload, now, 0, None, None)
  }

  datatype Call =
    | Enqueued(item: Item)
    | Acked
    | Flushed(script: seq<Turn>)
    | Reloaded
    | Cleared

  /** What a call makes of the queue and the manifest. */
  function Do(s: Snapshot, c: Call): Snapshot {
    match c
    case Enqueued(item) => Arrive(s, [item])
    case Acked => if s.queue == [] then s else Snapshot(s.queue[1..], Holds(s.queue[1..]))
    case Flushed(script) => TakeTurns(Begin(s), script).now
    case Reloaded => s.(queue := Restored(s.manifest))
    case Cleared => Snapshot([], Missing)
  }

  /** A process that starts with the manifest of an earlier one, after some calls. */
  function After(earlier: Manifest, history: seq<Call>): Snapshot {
    if history == [] then Snapshot([], earlier)
    else Do(After(earlier, history[..|history| - 1]), history[|history| - 1])
  }

  lemma AfterSnoc(earlier: Manifest, history: seq<Call>, c: Call)
    ensures After(earlier, history + [c]) == Do(After(earlier, history), c)
  {
    assert (history + [c])[..|history|] == history;
  }

  class SyncQueue {
    var queue: seq<Item>
    var manifest: Manifest
    /** What an earlier process left, and the calls since. */
    ghost const earlier: Manifest
    ghost var history: seq<Call>

    ghost predicate Valid()
      reads this
    {
      Now() == After(earlier, history)
    }

    constructor (manifest: Manifest)
      ensures Valid() && queue == [] && this.manifest == earlier == manifest && history == []
    {
      queue, this.manifest, earlier, history := [], manifest, manifest, [];
    }

    function Now(): Snapshot
      reads this
    {
      Snapshot(queue, manifest)
    }

    method Persist()
      modifies `manifest
      ensures manifest == Holds(queue)
    {
      manifest := Holds(queue);
    }

    /** A new item has its payload and no retries. */
    method Enqueue(id: string, payload: string, now: string) returns (item: Item)
      requires Valid()
      modifies this
      ensures Valid() && history == old(history) + [Enqueued(item)]
      ensures item == NewItem(id, payload, now) && item == Item(id, payload, now, 0, None, None)
      ensures queue == old(queue) + [item] && manifest == Holds(queue)
      ensures Now() == Arrive(old(Now()), [item])
    {
      item := Item(id, payload, now, 0, None, None);
      Push(item);
      AfterSnoc(earlier, history, Enqueued(item));
      hide After, TakeTurns;
      history := history + [Enqueued(item)];
    }

    method Push(item: Item)
      modifies `queue, `manifest
      ensures Now() == Arrive(old(Now()), [item])
    {
      queue := queue + [item];
      Persist();
    }

    method EnqueueAll(items: seq<Item>)
      modifies `queue, `manifest
      ensures Now() == Arrive(old(Now()), items)
    {
      for n := 0 to |items|
        invariant Now() == Arrive(old(Now()), items[..n])
      {
        assert items[..n + 1] == items[..n] + [items[n]];
        assert n == 0 ==> items[..n] == [] && items[..n + 1] == [items[n]];
        assert (old(queue) + items[..n]) + [items[n]] == old(queue) + items[..n + 1];
        Push(items[n]);
      }
      assert items[..|items|] == items;
    }

    method Ack()
      requires Valid()
      modifies this
      ensures Valid() && history == old(history) + [Acked]
      ensures queue == if old(queue) == [] then [] else old(queue)[1..]
      ensures manifest == if old(queue) == [] then old(manifest) else Holds(queue)
    {
      if queue != [] {
        queue := queue[1..];
        Persist();
      }
      AfterSnoc(earlier, history, Acked);
      hide After, TakeTurns;
      history := history + [Acked];
    }

    /** Handles the head: a dead letter is dropped, and one that cannot be sent goes to the end. */
    method HandleHead(t: Turn, ghost f: Flush) returns (delivered: bool)
      requires queue != [] && f.now == Now()
      modifies `queue, `manifest
      ensures Now() == TakeTurn(f, t).now
      ensures delivered <==> old(queue)[0].retries < MAX_RETRIES && t.result.Delivered?
    {
      hide Arrive;
      var item := queue[0];
      if item.retries >= MAX_RETRIES {
        queue := queue[1..];
        Persist();
        return false;
      }
      ArrivalsAreQueued(Now(), t.duringSend);
      EnqueueAll(t.duringSend);
      match t.result
      case Delivered =>
        queue := queue[1..];
        Persist();
        delivered := true;
      case Rejected(_, _) =>
        item := Bumped(item, t.result);
        queue := queue[0 := item];
        Persist();
        ArrivalsAreQueued(Now(), t.duringBackoff);
        EnqueueAll(t.duringBackoff);
        queue := queue[1..];
        queue := queue + [item];
        delivered := false;
    }

    /** The flush loop, with what happens at its awaits given by `script`. */
    method FlushQueue(script: seq<Turn>) returns (sent: nat, failed: nat, ghost f: Flush)
      requires Valid() && |script| == |queue|
      modifies this
      ensures Valid() && history == old(history) + [Flushed(script)]
      ensures f == TakeTurns(Begin(old(Now())), script)
      ensures Now() == f.now
      ensures sent == CountSent(f.log) == |set k | 0 <= k < |f.log| && f.log[k].Sent?| && sent + failed == |f.log|
    {
      ghost var start := Begin(Now());
      AfterSnoc(earlier, history, Flushed(script));
      assert TakeTurns(start, []) == start;
      assert TakeTurns(start, script).now == After(earlier, history + [Flushed(script)]);
      hide After, Do, TakeTurns, TakeTurn, CountSent, Arrive;
      sent, failed, f := 0, 0, start;
      var toProcess := |queue|;
      for i := 0 to toProcess
        invariant f == TakeTurns(start, script[..i])
        invariant Now() == f.now && history == old(history)
        invariant sent == CountSent(f.log) && sent + failed == |f.log|
      {
        var t := script[i];
        ghost var before := f;
        TakeTurnsSnoc(start, script, i);
        if queue == [] {
          EmptyQueueEnds(start, script, i);
          break;
        }
        f := TakeTurn(f, t);
        TurnCounts(before, t);
        var delivered := HandleHead(t, before);
        if delivered { sent := sent + 1; } else { failed := failed + 1; }
      }
      assert script[..|script|] == script;
      CountSentCounts(f.log);
      history := history + [Flushed(script)];
    }

    method Restore()
      requires Valid()
      modifies this
      ensures Valid() && history == old(history) + [Reloaded]
      ensures queue == Restored(old(manifest)) && manifest == old(manifest)
    {
      AfterSnoc(earlier, history, Reloaded);
      hide After, TakeTurns;
      history := history + [Reloaded];
      queue := if manifest.Holds? then manifest.items else [];
    }

    method Clear()
      requires Valid()
      modifies this
      ensures Valid() && history == old(history) + [Cleared]
      ensures queue == [] && manifest == Missing
    {
      AfterSnoc(earlier, history, Cleared);
      hide After, TakeTurns;
      history := history + [Cleared];
      queue, manifest := [], Missing;
    }
  }

  lemma {:induction false} EmptyQueueStops(f: Flush, script: seq<Turn>)
    requires f.now.queue == []
    ensures TakeTurns(f, script) == f
  {
    if script != [] { EmptyQueueStops(f, script[1..]); }
  }

  lemma {:induction false} TakeTurnsConcat(f: Flush, a: seq<Turn>, b: seq<Turn>)
    ensures TakeTurns(f, a + b) == TakeTurns(TakeTurns(f, a), b)
    decreases |a|
  {
    if a == [] {
      assert a + b == b;
    } else {
      assert (a + b)[1..] == a[1..] + b;
      TakeTurnsConcat(TakeTurn(f, a[0]), a[1..], b);
    }
  }

  lemma ArrivalsAreQueued(s: Snapshot, items: seq<Item>)
    ensures Arrive(s, items).queue == s.queue + items
  {
    if items == [] { assert s.queue + items == s.queue; }
  }

  lemma TurnCounts(f: Flush, t: Turn)
    requires f.now.queue != []
    ensures var dropped, log := f.now.queue[0].retries >= MAX_RETRIES, TakeTurn(f, t).log;
              && |log| == |f.log| + 1
              && CountSent(log) == CountSent(f.log) + (if !dropped && t.result.Delivered? then 1 else 0)
  {
    var log := TakeTurn(f, t).log;
    assert log[..|log| - 1] == f.log;
    hide Arrive;
  }

  lemma {:induction false} CountSentCounts(log: seq<Outcome>)
    ensures CountSent(log) == |set k | 0 <= k < |log| && log[k].Sent?|
  {
    if log != [] {
      var front, n := log[..|log| - 1], |log| - 1;
      CountSentCounts(front);
      var before := set k | 0 <= k < |front| && front[k].Sent?;
      assert (set k | 0 <= k < |log| && log[k].Sent?) == before + if log[n].Sent? then {n} else {};
    }
  }

  lemma EmptyQueueEnds(f: Flush, script: seq<Turn>, n: nat)
    requires n <= |script| && TakeTurns(f, script[..n]).now.queue == []
    ensures TakeTurns(f, script) == TakeTurns(f, script[..n])
  {
    assert script == script[..n] + script[n..];
    TakeTurnsConcat(f, script[..n], script[n..]);
    EmptyQueueStops(TakeTurns(f, script[..n]), script[n..]);
  }

  lemma TakeTurnsSnoc(f: Flush, script: seq<Turn>, n: nat)
    requires n < |script|
    ensures TakeTurns(f, script[..n + 1]) == TakeTurn(TakeTurns(f, script[..n]), script[n])
  {
    assert script[..n + 1] == script[..n] + [script[n]];
    TakeTurnsConcat(f, script[..n], [script[n]]);
    var g := TakeTurn(TakeTurns(f, script[..n]), script[n]);
    assert [script[n]][1..] == [] && TakeTurns(g, []) == g;
  }

  // ---------------------------------------------------------------------------
  // A whole flush: every item present at its start is handled once, in order
  // ---------------------------------------------------------------------------

  /** What arrives during the turn that handles `x`; a dead letter is dropped without awaiting. */
  function ArrivalsOf(x: Item, t: Turn): seq<Item> {
    if x.retries >= MAX_RETRIES then []
    else if t.result.Delivered? then t.duringSend
    else t.duringSend + t.duringBackoff
  }

  function OutcomeOf(x: Item, t: Turn): Outcome {
    if x.retries >= MAX_RETRIES then DeadLettered(x)
    else if t.result.Delivered? then Sent(x)
    else Failed(x)
  }

  /** What the turn that handles `x` puts at the end of the queue. */
  function GainsOf(x: Item, t: Turn): seq<Item> {
    ArrivalsOf(x, t) + if OutcomeOf(x, t).Failed? then [Bumped(x, t.result)] else []
  }

  function Gains(q: seq<Item>, script: seq<Turn>): seq<Item>
    requires |q| == |script|
  {
    if q == [] then [] else GainsOf(q[0], script[0]) + Gains(q[1..], script[1..])
  }

  function Arrivals(q: seq<Item>, script: seq<Turn>): seq<Item>
    requires |q| == |script|
  {
    if q == [] then [] else ArrivalsOf(q[0], script[0]) + Arrivals(q[1..], script[1..])
  }

  function Outcomes(q: seq<Item>, script: seq<Turn>): seq<Outcome>
    requires |q| == |script|
  {
    if q == [] then [] else [OutcomeOf(q[0], script[0])] + Outcomes(q[1..], script[1..])
  }

  lemma TurnOnHead(f: Flush, x: Item, rest: seq<Item>, t: Turn)
    requires f.now.queue == [x] + rest
    ensures TakeTurn(f, t).now.queue == rest + GainsOf(x, t)
    ensures TakeTurn(f, t).log == f.log + [OutcomeOf(x, t)]
    ensures TakeTurn(f, t).arrived == f.arrived + ArrivalsOf(x, t)
  {
    assert f.now.queue[0] == x && f.now.queue[1..] == rest;
    if x.retries < MAX_RETRIES {
      assert Arrive(f.now, t.duringSend).queue == [x] + (rest + t.duringSend);
      if t.result.Rejected? {
        var bumped := Bumped(x, t.result);
        assert Arrive(f.now, t.duringSend).queue[0 := bumped] == [bumped] + (rest + t.duringSend);
        var waiting := [bumped] + (rest + t.duringSend);
        assert Arrive(Snapshot(waiting, Holds(waiting)), t.duringBackoff).queue
            == [bumped] + (rest + t.duringSend + t.duringBackoff);
        assert rest + t.duringSend + t.duringBackoff + [bumped] == rest + GainsOf(x, t);
      }
    }
  }

  lemma {:induction false} FlushRest(f: Flush, q: seq<Item>, tail: seq<Item>, script: seq<Turn>)
    requires |q| == |script| && f.now.queue == q + tail
    ensures TakeTurns(f, script).now.queue == tail + Gains(q, script)
    ensures TakeTurns(f, script).log == f.log + Outcomes(q, script)
    ensures TakeTurns(f, script).arrived == f.arrived + Arrivals(q, script)
    decreases |q|
  {
    if q != [] {
      var x, rest, t, more := q[0], q[1..], script[0], script[1..];
      assert q == [x] + rest;
      hide TakeTurn, GainsOf, ArrivalsOf, OutcomeOf;
      Regroup([x], rest, tail);
      TurnOnHead(f, x, rest + tail, t);
      Regroup(rest, tail, GainsOf(x, t));
      FlushRest(TakeTurn(f, t), rest, tail + GainsOf(x, t), more);
      Regroup(tail, GainsOf(x, t), Gains(rest, more));
      Regroup(f.log, [OutcomeOf(x, t)], Outcomes(rest, more));
      Regroup(f.arrived, ArrivalsOf(x, t), Arrivals(rest, more));
    }
  }

  lemma {:induction false} OutcomesAt(q: seq<Item>, script: seq<Turn>)
    requires |q| == |script|
    ensures |Outcomes(q, script)| == |q|
    ensures forall k :: 0 <= k < |q| ==> Outcomes(q, script)[k] == OutcomeOf(q[k], script[k])
  {
    if q != [] { OutcomesAt(q[1..], script[1..]); }
  }

  /** One flush handles the items present at its start exactly once and in order; afterwards the queue
      holds what arrived and the failed items with their retries raised, in the order of the turns. */
  lemma FlushHandlesEachOnce(s: Snapshot, script: seq<Turn>)
    requires |script| == |s.queue|
    ensures var f := TakeTurns(Begin(s), script);
            && |f.log| == |s.queue|
            && (forall k :: 0 <= k < |s.queue| ==>
                  f.log[k] == OutcomeOf(s.queue[k], script[k]) && f.log[k].item == s.queue[k])
            && f.log == Outcomes(s.queue, script)
            && f.now.queue == Gains(s.queue, script) && f.arrived == Arrivals(s.queue, script)
  {
    assert s.queue + [] == s.queue;
    FlushRest(Begin(s), s.queue, [], script);
    OutcomesAt(s.queue, script);
    assert [] + Outcomes(s.queue, script) == Outcomes(s.queue, script);
  }

  /** The failed item again, as the sender gave it back: only its retries, the time and the error are new. */
  predicate IsRetryOf(y: Item, x: Item, t: Turn) {
    && y.id == x.id && y.payload == x.payload && y.addedAt == x.addedAt && y.retries == x.retries + 1
    && t.result.Rejected? && y.lastAttempt == Some(t.result.at) && y.lastError == Some(t.result.error)
  }

  /** What turn `k` of a flush puts at the end of the queue. */
  ghost predicate PutBack(y: Item, q: seq<Item>, script: seq<Turn>, k: int) {
    && 0 <= k < |q| && 0 <= k < |script| && q[k].retries < MAX_RETRIES
    && (y in script[k].duringSend
        || (script[k].result.Rejected? && (y in script[k].duringBackoff || IsRetryOf(y, q[k], script[k]))))
  }

  lemma {:induction false} GainsArePutBack(q: seq<Item>, script: seq<Turn>, y: Item)
    requires |q| == |script|
    ensures y in Gains(q, script) <==> exists k :: PutBack(y, q, script, k)
  {
    if q != [] {
      var rest, more := q[1..], script[1..];
      GainsArePutBack(rest, more, y);
      GainsOfOne(q[0], script[0], y);
      hide GainsOf;
      assert PutBack(y, q, script, 0) <==> y in GainsOf(q[0], script[0]);
      forall k ensures k > 0 ==> (PutBack(y, q, script, k) <==> PutBack(y, rest, more, k - 1)) {
        if 0 < k < |q| { assert rest[k - 1] == q[k] && more[k - 1] == script[k]; }
      }
      if exists k :: PutBack(y, rest, more, k) {
        var k :| PutBack(y, rest, more, k);
        assert PutBack(y, q, script, k + 1);
      }
      if exists k :: PutBack(y, q, script, k) {
        var k :| PutBack(y, q, script, k);
        assert k == 0 || PutBack(y, rest, more, k - 1);
      }
    }
  }

  lemma GainsOfOne(x: Item, t: Turn, y: Item)
    ensures y in GainsOf(x, t)
            <==> x.retries < MAX_RETRIES
                 && (y in t.duringSend || (t.result.Rejected? && (y in t.duringBackoff || IsRetryOf(y, x, t))))
  {
    if x.retries < MAX_RETRIES && t.result.Rejected? {
      assert IsRetryOf(y, x, t) <==> y == Bumped(x, t.result);
    }
  }

  /** How each item fares, and what a flush leaves: everything enqueued meanwhile and the failed items, which keep their
      payloads, and nothing else. */
  lemma FlushOutcomes(s: Snapshot, script: seq<Turn>)
    requires |script| == |s.queue|
    ensures var f, q := TakeTurns(Begin(s), script), s.queue;
            && |f.log| == |q|
            && (forall k :: 0 <= k < |q| ==>
                  && f.log[k].item == q[k]
                  && (f.log[k].DeadLettered? <==> q[k].retries >= 10)
                  && (f.log[k].Sent? <==> q[k].retries < 10 && script[k].result.Delivered?)
                  && (f.log[k].Failed? <==> q[k].retries < 10 && script[k].result.Rejected?))
            && forall y :: y in f.now.queue <==> exists k :: PutBack(y, q, script, k)
  {
    FlushHandlesEachOnce(s, script);
    forall y ensures y in Gains(s.queue, script) <==> exists k :: PutBack(y, s.queue, script, k) {
      GainsArePutBack(s.queue, script, y);
    }
    hide TakeTurns, Gains, PutBack;
  }

  // ---------------------------------------------------------------------------
  // Payloads over any calls
  // ---------------------------------------------------------------------------

  ghost predicate AllFrom(items: seq<Item>, given: seq<Item>) {
    forall x :: x in items ==> IsFrom(x, given)
  }

  ghost predicate IsFrom(x: Item, given: seq<Item>) {
    exists y :: y in given && y.id == x.id && y.payload == x.payload
  }

  function GivenByTurns(script: seq<Turn>): seq<Item> {
    if script == [] then []
    else GivenByTurns(script[..|script| - 1]) + script[|script| - 1].duringSend + script[|script| - 1].duringBackoff
  }

  /** Everything a process was given: what it found in the manifest and what was enqueued. */
  function Given(earlier: Manifest, history: seq<Call>): seq<Item> {
    if history == [] then if earlier.Holds? then earlier.items else []
    else
      var c := history[|history| - 1];
      Given(earlier, history[..|history| - 1])
      + match c
        case Enqueued(item) => [item]
        case Flushed(script) => GivenByTurns(script)
        case _ => []
  }

  ghost predicate StateFrom(s: Snapshot, given: seq<Item>) {
    AllFrom(s.queue, given) && AllFrom(Restored(s.manifest), given)
  }

  lemma AllFromMore(items: seq<Item>, given: seq<Item>, more: seq<Item>)
    requires AllFrom(items, given)
    ensures AllFrom(items, given + more)
  {
    forall x | x in items ensures IsFrom(x, given + more) {
      assert IsFrom(x, given);
      var y :| y in given && y.id == x.id && y.payload == x.payload;
      assert y in given + more;
    }
  }

  lemma AllFromThemselves(items: seq<Item>, given: seq<Item>)
    requires forall x :: x in items ==> x in given
    ensures AllFrom(items, given)
  {
  }

  lemma ArriveIsFrom(s: Snapshot, items: seq<Item>, given: seq<Item>)
    requires StateFrom(s, given) && AllFrom(items, given)
    ensures StateFrom(Arrive(s, items), given) && AllFrom(s.queue + items, given)
  {
    hide IsFrom;
  }

  /** Each outcome is about a given item. */
  ghost predicate LogFrom(log: seq<Outcome>, given: seq<Item>) {
    forall k :: 0 <= k < |log| ==> IsFrom(log[k].item, given)
  }

  lemma TurnIsFrom(f: Flush, t: Turn, given: seq<Item>)
    requires StateFrom(f.now, given) && LogFrom(f.log, given)
    requires AllFrom(t.duringSend, given) && AllFrom(t.duringBackoff, given)
    ensures StateFrom(TakeTurn(f, t).now, given) && LogFrom(TakeTurn(f, t).log, given)
  {
    if f.now.queue != [] {
      var item := f.now.queue[0];
      assert IsFrom(item, given);
      if item.retries < MAX_RETRIES {
        var sending := Arrive(f.now, t.duringSend);
        ArriveIsFrom(f.now, t.duringSend, given);
        ArrivalsAreQueued(f.now, t.duringSend);
        if t.result.Rejected? {
          var bumped := Bumped(item, t.result);
          assert IsFrom(bumped, given);
          hide Arrive, IsFrom;
          var marked := sending.queue[0 := bumped];
          assert AllFrom(marked, given);
          ArriveIsFrom(Snapshot(marked, Holds(marked)), t.duringBackoff, given);
        }
      }
    }
  }

  lemma {:induction false} TurnsAreFrom(f: Flush, script: seq<Turn>, given: seq<Item>)
    requires StateFrom(f.now, given) && LogFrom(f.log, given)
    requires forall k :: 0 <= k < |script| ==>
               AllFrom(script[k].duringSend, given) && AllFrom(script[k].duringBackoff, given)
    ensures StateFrom(TakeTurns(f, script).now, given) && LogFrom(TakeTurns(f, script).log, given)
    decreases |script|
  {
    if script != [] {
      hide StateFrom, LogFrom, AllFrom, TakeTurn;
      TurnIsFrom(f, script[0], given);
      TurnsAreFrom(TakeTurn(f, script[0]), script[1..], given);
    }
  }

  lemma {:induction false} TurnsAreGiven(script: seq<Turn>, k: nat)
    requires k < |script|
    ensures forall x :: x in script[k].duringSend || x in script[k].duringBackoff ==> x in GivenByTurns(script)
  {
    if k < |script| - 1 { TurnsAreGiven(script[..|script| - 1], k); }
  }

  lemma FlushIsFrom(s: Snapshot, script: seq<Turn>, given: seq<Item>)
    requires StateFrom(s, given)
    ensures var f, more := TakeTurns(Begin(s), script), given + GivenByTurns(script);
            StateFrom(f.now, more) && LogFrom(f.log, more)
  {
    var more := given + GivenByTurns(script);
    AllFromMore(s.queue, given, GivenByTurns(script));
    AllFromMore(Restored(s.manifest), given, GivenByTurns(script));
    forall k | 0 <= k < |script|
      ensures AllFrom(script[k].duringSend, more) && AllFrom(script[k].duringBackoff, more)
    {
      TurnsAreGiven(script, k);
      AllFromThemselves(script[k].duringSend, more);
      AllFromThemselves(script[k].duringBackoff, more);
    }
    TurnsAreFrom(Begin(s), script, more);
  }

  /** In every reachable state, what is queued and what is in the manifest has a payload it was given with. */
  lemma {:induction false} QueueIsGiven(earlier: Manifest, history: seq<Call>)
    ensures StateFrom(After(earlier, history), Given(earlier, history))
  {
    if history == [] {
      AllFromThemselves(Restored(earlier), Given(earlier, history));
    } else {
      var front, c := history[..|history| - 1], history[|history| - 1];
      assert history == front + [c];
      QueueIsGiven(earlier, front);
      AfterSnoc(earlier, front, c);
      CallIsFrom(After(earlier, front), c, Given(earlier, front));
      hide After, StateFrom, Do;
    }
  }

  lemma CallIsFrom(s: Snapshot, c: Call, given: seq<Item>)
    requires StateFrom(s, given)
    ensures StateFrom(Do(s, c), given + match c
                                        case Enqueued(item) => [item]
                                        case Flushed(script) => GivenByTurns(script)
                                        case _ => [])
  {
    match c
    case Enqueued(item) =>
      AllFromMore(s.queue, given, [item]);
      AllFromMore(Restored(s.manifest), given, [item]);
      AllFromThemselves([item], given + [item]);
      hide IsFrom, Arrive;
      ArriveIsFrom(s, [item], given + [item]);
    case Flushed(script) => FlushIsFrom(s, script, given);
    case _ =>
      assert given + [] == given;
  }

  /** Over any calls of any process: what the sender is given for an id is a payload with which that id was enqueued or
      found in the manifest. */
  lemma SentAsGiven(earlier: Manifest, history: seq<Call>, script: seq<Turn>, k: nat)
    requires |script| == |After(earlier, history).queue| && k < |script|
    ensures var log := TakeTurns(Begin(After(earlier, history)), script).log;
            && |log| == |script|
            && exists y :: y in Given(earlier, history + [Flushed(script)])
                 && y.id == log[k].item.id && y.payload == log[k].item.payload
  {
    var s := After(earlier, history);
    FlushHandlesEachOnce(s, script);
    QueueIsGiven(earlier, history);
    FlushIsFrom(s, script, Given(earlier, history));
    assert (history + [Flushed(script)])[..|history|] == history;
    hide After, TakeTurns;
    assert IsFrom(TakeTurns(Begin(s), script).log[k].item, Given(earlier, history + [Flushed(script)]));
  }

  function Ids(items: seq<Item>): multiset<string> {
    if items == [] then multiset{} else multiset{items[0].id} + Ids(items[1..])
  }

  /** The ids that left the queue for good. */
  function Gone(log: seq<Outcome>): multiset<string> {
    if log == [] then multiset{}
    else (if log[0].Failed? then multiset{} else multiset{log[0].item.id}) + Gone(log[1..])
  }

  lemma {:induction false} IdsConcat(a: seq<Item>, b: seq<Item>)
    ensures Ids(a + b) == Ids(a) + Ids(b)
  {
    if a == [] {
      assert a + b == b;
    } else {
      assert (a + b)[1..] == a[1..] + b;
      IdsConcat(a[1..], b);
    }
  }

  lemma IdsOne(x: Item)
    ensures Ids([x]) == multiset{x.id}
  {
  }

  lemma GoneCons(x: Item, t: Turn, rest: seq<Outcome>)
    ensures Gone([OutcomeOf(x, t)] + rest)
         == (if OutcomeOf(x, t).Failed? then multiset{} else multiset{x.id}) + Gone(rest)
  {
    assert ([OutcomeOf(x, t)] + rest)[1..] == rest;
  }

  lemma TurnConserves(x: Item, t: Turn)
    ensures Ids(GainsOf(x, t)) + (if OutcomeOf(x, t).Failed? then multiset{} else multiset{x.id})
         == Ids(ArrivalsOf(x, t)) + multiset{x.id}
  {
    if OutcomeOf(x, t).Failed? {
      IdsConcat(ArrivalsOf(x, t), [Bumped(x, t.result)]);
    } else {
      assert GainsOf(x, t) == ArrivalsOf(x, t);
    }
  }

  lemma Exchange(a: multiset<string>, b: multiset<string>, c: multiset<string>, d: multiset<string>)
    ensures (a + b) + (c + d) == (a + c) + (b + d)
  {
  }

  lemma {:induction false} GainsConserve(q: seq<Item>, script: seq<Turn>)
    requires |q| == |script|
    ensures Ids(Gains(q, script)) + Gone(Outcomes(q, script)) == Ids(q) + Ids(Arrivals(q, script))
  {
    if q != [] {
      var x, rest, t, more := q[0], q[1..], script[0], script[1..];
      hide GainsOf, ArrivalsOf, OutcomeOf, Ids, Gone;
      assert q == [x] + rest;
      IdsConcat([x], rest);
      IdsOne(x);
      GainsConserve(rest, more);
      TurnConserves(x, t);
      IdsConcat(GainsOf(x, t), Gains(rest, more));
      IdsConcat(ArrivalsOf(x, t), Arrivals(rest, more));
      GoneCons(x, t, Outcomes(rest, more));
      var left := if OutcomeOf(x, t).Failed? then multiset{} else multiset{x.id};
      Exchange(Ids(GainsOf(x, t)), Ids(Gains(rest, more)), left, Gone(Outcomes(rest, more)));
      Exchange(Ids(ArrivalsOf(x, t)), Ids(Arrivals(rest, more)), multiset{x.id}, Ids(rest));
    }
  }

  /** Nothing is lost or made up: what was queued and what arrived is what remains, was sent, or was dead-lettered. */
  lemma FlushConserves(s: Snapshot, script: seq<Turn>)
    requires |script| == |s.queue|
    ensures var f := TakeTurns(Begin(s), script);
            Ids(s.queue) + Ids(f.arrived) == Ids(f.now.queue) + Gone(f.log)
  {
    FlushHandlesEachOnce(s, script);
    GainsConserve(s.queue, script);
  }

  // ---------------------------------------------------------------------------
  // Crash safety
  // ---------------------------------------------------------------------------

  /** Restoring from the manifest would bring back the same items. */
  ghost predicate Backed(s: Snapshot) {
    multiset(Restored(s.manifest)) == multiset(s.queue)
  }

  ghost predicate AllBacked(f: Flush) {
    Backed(f.now) && forall k :: 0 <= k < |f.awaits| ==> Backed(f.awaits[k])
  }

  /** Moving the head to the end keeps the items. */
  lemma RotationKeepsItems(x: Item, rest: seq<Item>)
    ensures multiset([x] + rest) == multiset(rest + [x])
  {
  }

  lemma ArriveKeepsBacked(s: Snapshot, items: seq<Item>)
    requires Backed(s)
    ensures Backed(Arrive(s, items)) && Arrive(s, items).queue == s.queue + items
  {
    if items == [] { assert s.queue + items == s.queue; }
  }

  lemma TurnKeepsBacked(f: Flush, t: Turn)
    requires AllBacked(f)
    ensures AllBacked(TakeTurn(f, t))
  {
    if f.now.queue != [] && f.now.queue[0].retries < MAX_RETRIES {
      hide Arrive;
      var sending := Arrive(f.now, t.duringSend);
      ArriveKeepsBacked(f.now, t.duringSend);
      if t.result.Delivered? {
        AwaitsBacked(f.awaits, [f.now, sending]);
      } else {
        var bumped := Bumped(f.now.queue[0], t.result);
        var marked := sending.queue[0 := bumped];
        var waiting := Snapshot(marked, Holds(marked));
        var woken := Arrive(waiting, t.duringBackoff);
        ArriveKeepsBacked(waiting, t.duringBackoff);
        assert woken.queue == [bumped] + woken.queue[1..];
        RotationKeepsItems(bumped, woken.queue[1..]);
        AwaitsBacked(f.awaits, [f.now, sending, waiting, woken]);
      }
    }
  }

  lemma AwaitsBacked(a: seq<Snapshot>, b: seq<Snapshot>)
    requires (forall k :: 0 <= k < |a| ==> Backed(a[k])) && (forall k :: 0 <= k < |b| ==> Backed(b[k]))
    ensures forall k :: 0 <= k < |a + b| ==> Backed((a + b)[k])
  {
  }

  /** At every await of a flush, and at its end, the manifest holds the items of the queue. */
  lemma {:induction false} FlushIsCrashSafe(f: Flush, script: seq<Turn>)
    requires AllBacked(f)
    ensures AllBacked(TakeTurns(f, script))
    decreases |script|
  {
    if script != [] {
      TurnKeepsBacked(f, script[0]);
      FlushIsCrashSafe(TakeTurn(f, script[0]), script[1..]);
    }
  }

  /** In every reachable state, the manifest holds the items of the queue, if there are any. */
  lemma {:induction false} QueueIsBacked(earlier: Manifest, history: seq<Call>)
    ensures var s := After(earlier, history);
            s.queue != [] ==> Backed(s)
  {
    if history != [] {
      var front, c := history[..|history| - 1], history[|history| - 1];
      assert history == front + [c];
      hide After, Do, Backed;
      QueueIsBacked(earlier, front);
      AfterSnoc(earlier, front, c);
      CallKeepsBacked(After(earlier, front), c);
    }
  }

  lemma CallKeepsBacked(s: Snapshot, c: Call)
    requires s.queue != [] ==> Backed(s)
    ensures Do(s, c).queue != [] ==> Backed(Do(s, c))
  {
    if c.Flushed? {
      hide Backed;
      BackedFlush(s, c.script);
    } else if c.Enqueued? && s.queue == [] {
      assert s.queue + [c.item] == [c.item];
    }
  }

  /** Started in such a state, a flush keeps to it at every await. */
  lemma BackedFlush(s: Snapshot, script: seq<Turn>)
    requires s.queue != [] ==> Backed(s)
    ensures var f := TakeTurns(Begin(s), script);
            && (f.now.queue != [] ==> Backed(f.now))
            && forall k :: 0 <= k < |f.awaits| ==> Backed(f.awaits[k])
  {
    hide Backed;
    if s.queue == [] {
      EmptyQueueStops(Begin(s), script);
    } else {
      FlushIsCrashSafe(Begin(s), script);
    }
  }

  /** At every await of every flush of every process, whatever was called before, a crash loses nothing. */
  lemma CrashLosesNothing(q: SyncQueue, script: seq<Turn>)
    requires q.Valid()
    ensures q.queue != [] ==> Backed(q.Now())
    ensures var f := TakeTurns(Begin(q.Now()), script);
            forall k :: 0 <= k < |f.awaits| ==> Backed(f.awaits[k])
  {
    QueueIsBacked(q.earlier, q.history);
    hide Backed;
    BackedFlush(q.Now(), script);
  }

  // ---------------------------------------------------------------------------
  // The items of an earlier process
  // ---------------------------------------------------------------------------

  ghost predicate Foreign(items: seq<Item>, ids: set<string>) {
    forall k :: 0 <= k < |items| ==> items[k].id !in ids
  }

  ghost predicate AllForeign(s: Snapshot, ids: set<string>) {
    Foreign(s.queue, ids) && Foreign(Restored(s.manifest), ids)
  }

  ghost predicate TurnBringsForeign(t: Turn, ids: set<string>) {
    Foreign(t.duringSend, ids) && Foreign(t.duringBackoff, ids)
  }

  /** Everything that the call enqueues has a new id. */
  ghost predicate BringsForeign(c: Call, ids: set<string>) {
    match c
    case Enqueued(item) => item.id !in ids
    case Flushed(script) => forall k :: 0 <= k < |script| ==> TurnBringsForeign(script[k], ids)
    case _ => true
  }

  lemma ArriveKeepsForeign(s: Snapshot, items: seq<Item>, ids: set<string>)
    requires Foreign(s.queue, ids) && Foreign(items, ids)
    ensures Foreign(s.queue + items, ids) && Foreign(Arrive(s, items).queue, ids)
    ensures AllForeign(s, ids) || items != [] ==> AllForeign(Arrive(s, items), ids)
  {
    if items == [] { assert s.queue + items == s.queue; }
  }

  lemma TurnKeepsForeign(f: Flush, t: Turn, ids: set<string>)
    requires AllForeign(f.now, ids) && TurnBringsForeign(t, ids)
    ensures AllForeign(TakeTurn(f, t).now, ids)
  {
    if f.now.queue != [] && f.now.queue[0].retries < MAX_RETRIES {
      hide Arrive;
      var sending := Arrive(f.now, t.duringSend);
      ArriveKeepsForeign(f.now, t.duringSend, ids);
      if t.result.Rejected? {
        var marked := sending.queue[0 := Bumped(f.now.queue[0], t.result)];
        ArriveKeepsForeign(Snapshot(marked, Holds(marked)), t.duringBackoff, ids);
      }
    }
  }

  lemma {:induction false} FlushKeepsForeign(f: Flush, script: seq<Turn>, ids: set<string>)
    requires AllForeign(f.now, ids) && BringsForeign(Flushed(script), ids)
    ensures AllForeign(TakeTurns(f, script).now, ids)
    decreases |script|
  {
    if script != [] {
      hide AllForeign, TurnBringsForeign, TakeTurn;
      TurnKeepsForeign(f, script[0], ids);
      FlushKeepsForeign(TakeTurn(f, script[0]), script[1..], ids);
    }
  }

  predicate Overwrites(c: Call) {
    c.Enqueued? || c.Cleared?
  }

  /** Until something is restored: the manifest is untouched before the first enqueue or clear, and foreign after. */
  lemma {:induction false} BeforeRestoring(earlier: Manifest, history: seq<Call>, ids: set<string>)
    requires forall c :: c in history ==> !c.Reloaded? && BringsForeign(c, ids)
    ensures if exists c :: c in history && Overwrites(c) then AllForeign(After(earlier, history), ids)
            else After(earlier, history) == Snapshot([], earlier)
  {
    if history != [] {
      var front, c := history[..|history| - 1], history[|history| - 1];
      assert history == front + [c];
      BeforeRestoring(earlier, front, ids);
      AfterSnoc(earlier, front, c);
      hide After;
      var s := After(earlier, front);
      CallKeepsForeign(s, c, ids);
    }
  }

  lemma CallKeepsForeign(s: Snapshot, c: Call, ids: set<string>)
    requires !c.Reloaded? && BringsForeign(c, ids)
    ensures AllForeign(s, ids) ==> AllForeign(Do(s, c), ids)
    ensures s.queue == [] ==> if Overwrites(c) then AllForeign(Do(s, c), ids) else Do(s, c) == s
  {
    match c
    case Flushed(script) =>
      if s.queue == [] { EmptyQueueStops(Begin(s), script); }
      if AllForeign(s, ids) { FlushKeepsForeign(Begin(s), script, ids); }
    case Enqueued(item) =>
      if Foreign(s.queue, ids) { ArriveKeepsForeign(s, [item], ids); }
    case _ =>
  }

  /** What an earlier process left is restored exactly when nothing was enqueued or cleared before restoring it. */
  lemma EarlierItemsSurviveExactly(earlier: Manifest, history: seq<Call>, ids: set<string>)
    requires Restored(earlier) != [] && forall k :: 0 <= k < |Restored(earlier)| ==> Restored(earlier)[k].id in ids
    requires forall c :: c in history ==> !c.Reloaded? && BringsForeign(c, ids)
    ensures After(earlier, history + [Reloaded]).queue == Restored(earlier)
            <==> forall c :: c in history ==> !Overwrites(c)
  {
    BeforeRestoring(earlier, history, ids);
    AfterSnoc(earlier, history, Reloaded);
    hide After, BringsForeign;
    assert Restored(earlier)[0].id in ids;
  }

  /** For instance when one item was left and another is enqueued first. */
  lemma EnqueueOverwrites(left: Item, next: Item)
    ensures After(Holds([left]), [Enqueued(next), Reloaded]).queue == [next]
  {
    AfterSnoc(Holds([left]), [], Enqueued(next));
    AfterSnoc(Holds([left]), [Enqueued(next)], Reloaded);
    assert [] + [Enqueued(next)] == [Enqueued(next)];
    assert [Enqueued(next)] + [Reloaded] == [Enqueued(next), Reloaded] && [] + [next] == [next];
  }

  // ---------------------------------------------------------------------------
  // Draining
  // ---------------------------------------------------------------------------

  ghost predicate NoArrivals(script: seq<Turn>) {
    forall k :: 0 <= k < |script| ==> script[k].duringSend == [] && script[k].duringBackoff == []
  }

  ghost predicate AtLeast(q: seq<Item>, r: int) {
    forall k :: 0 <= k < |q| ==> q[k].retries >= r
  }

  /** Without arrivals an item stays queued only by failing once more, and not at all past the limit. */
  lemma {:induction false} GainsAreRaised(q: seq<Item>, script: seq<Turn>, r: int)
    requires |q| == |script| && NoArrivals(script) && AtLeast(q, r)
    ensures AtLeast(Gains(q, script), r + 1)
    ensures r >= MAX_RETRIES ==> Gains(q, script) == []
  {
    if q != [] {
      GainsAreRaised(q[1..], script[1..], r);
      assert ArrivalsOf(q[0], script[0]) == [];
    }
  }

  /** `queues[k + 1]` is what a flush without arrivals makes of `queues[k]`. */
  ghost predicate FlushedInTurn(queues: seq<seq<Item>>, scripts: seq<seq<Turn>>) {
    && |queues| == |scripts| + 1
    && forall k :: 0 <= k < |scripts| ==>
         |scripts[k]| == |queues[k]| && NoArrivals(scripts[k]) && queues[k + 1] == Gains(queues[k], scripts[k])
  }

  lemma {:induction false} FlushesRaise(queues: seq<seq<Item>>, scripts: seq<seq<Turn>>, r: int, n: nat)
    requires FlushedInTurn(queues, scripts) && n <= |scripts| && AtLeast(queues[0], r)
    ensures AtLeast(queues[n], r + n)
    ensures n > 0 && r + n > MAX_RETRIES ==> queues[n] == []
  {
    if n > 0 {
      FlushesRaise(queues, scripts, r, n - 1);
      assert queues[n - 1 + 1] == Gains(queues[n - 1], scripts[n - 1]);
      GainsAreRaised(queues[n - 1], scripts[n - 1], r + n - 1);
    }
  }

  /** Whatever the sender does, flushes without arrivals empty the queue: from non-negative retries eleven do. */
  lemma QueueDrains(queues: seq<seq<Item>>, scripts: seq<seq<Turn>>)
    requires FlushedInTurn(queues, scripts) && AtLeast(queues[0], 0) && |scripts| >= 11
    ensures queues[11] == []
  {
    FlushesRaise(queues, scripts, 0, 11);
  }

  ghost predicate HasAtMost(q: seq<Item>, r: int) {
    exists k :: 0 <= k < |q| && q[k].retries <= r
  }

  lemma HasAtMostConcat(a: seq<Item>, b: seq<Item>, r: int)
    ensures HasAtMost(a + b, r) <==> HasAtMost(a, r) || HasAtMost(b, r)
  {
    if k :| 0 <= k < |a| && a[k].retries <= r { assert (a + b)[k].retries <= r; }
    if k :| 0 <= k < |b| && b[k].retries <= r { assert (a + b)[|a| + k].retries <= r; }
  }

  lemma {:induction false} RejectedStays(q: seq<Item>, script: seq<Turn>, r: int)
    requires |q| == |script| && r < MAX_RETRIES && HasAtMost(q, r)
    requires forall k :: 0 <= k < |script| ==> script[k].result.Rejected?
    ensures HasAtMost(Gains(q, script), r + 1)
  {
    assert q == [q[0]] + q[1..];
    HasAtMostConcat([q[0]], q[1..], r);
    HasAtMostConcat(GainsOf(q[0], script[0]), Gains(q[1..], script[1..]), r + 1);
    if HasAtMost(q[1..], r) {
      RejectedStays(q[1..], script[1..], r);
    } else {
      var bumped := Bumped(q[0], script[0].result);
      HasAtMostConcat(ArrivalsOf(q[0], script[0]), [bumped], r + 1);
      assert [q[0]][0].retries <= r && [bumped][0].retries <= r + 1;
    }
  }

  /** Eleven are needed: ten flushes that all fail leave a fresh item queued. */
  lemma {:induction false} FailingFlushesKeep(queues: seq<seq<Item>>, scripts: seq<seq<Turn>>, n: nat)
    requires FlushedInTurn(queues, scripts) && n <= |scripts| && n <= MAX_RETRIES
    requires HasAtMost(queues[0], 0)
    requires forall i, k :: 0 <= i < |scripts| && 0 <= k < |scripts[i]| ==> scripts[i][k].result.Rejected?
    ensures HasAtMost(queues[n], n)
  {
    if n > 0 {
      FailingFlushesKeep(queues, scripts, n - 1);
      assert queues[n - 1 + 1] == Gains(queues[n - 1], scripts[n - 1]);
      RejectedStays(queues[n - 1], scripts[n - 1], n - 1);
    }
  }

  // ---------------------------------------------------------------------------
  // Backoff
  // ---------------------------------------------------------------------------

  function Pow2(n: nat): nat {
    if n == 0 then 1 else 2 * Pow2(n - 1)
  }

  function RetryDelay(retryCount: nat): nat {
    if BASE_DELAY_MS * Pow2(retryCount) < MAX_DELAY_MS then BASE_DELAY_MS * Pow2(retryCount) else MAX_DELAY_MS
  }

  /** The delay starts at one second, doubles through 32 seconds, and stays at 60 from the seventh retry on. */
  lemma {:induction false} BackoffDoublesThenStays(n: nat)
    ensures RetryDelay(0) == 1000
    ensures n < 5 ==> RetryDelay(n + 1) == 2 * RetryDelay(n)
    ensures RetryDelay(n) == MAX_DELAY_MS <==> n >= 6
  {
    assert Pow2(1) == 2 && Pow2(2) == 4;
    assert Pow2(3) == 8 && Pow2(4) == 16;
    assert Pow2(5) == 32 && Pow2(6) == 64;
    if n > 6 { BackoffDoublesThenStays(n - 1); }
  }
}
