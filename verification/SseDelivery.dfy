/** Every run of the polling protocol delivers to every client, in order and once, exactly the log but for events that a
    read could not read while it moved the client past them. */
module SseDelivery {
  import opened EventStore
  import opened Options
  import opened Sorting
  import opened SsePolling

  /** A directory that has been read, how many files the log held at that moment, and which it could not read then. */
  datatype Snapshot = Snapshot(events: seq<Event>, asOf: nat, unreadable: set<int>)

  datatype Read = Read(group: seq<nat>, minSeq: int, snapshot: Option<Snapshot>)

  /** A poll in progress: the groups still to do and the one it is awaiting or delivering. */
  datatype Poll = Poll(todo: map<string, seq<nat>>, reading: Option<Read>)

  /** `skipped` is an observation: the files each client was moved past by reads that could not read them. */
  datatype State = State(
    store: map<(string, string), seq<File>>,
    clients: seq<nat>,
    table: map<nat, Client>,
    nextClientId: nat,
    polls: map<nat, Poll>,
    skipped: map<nat, set<int>>)

  datatype Step =
    | Append(projectId: string, sessionId: string, file: File)
    | Join(projectId: string, sessionId: string, fromSeq: int)
    | Leave(id: nat)
    | HeartbeatFails(id: nat)
    | StartPoll(poll: nat, grouped: map<string, seq<nat>>)
    | BeginRead(poll: nat, key: string)
    | List(poll: nat, listing: seq<File>, unreadable: set<int>)
    | ReadFails(poll: nat)
    | Deliver(poll: nat, broken: set<(nat, int)>)
    | EndPoll(poll: nat)

  const INIT := State(map[], [], map[], 1, map[], map[])

  function Log(s: State, projectId: string, sessionId: string): seq<File> {
    if (projectId, sessionId) in s.store then s.store[(projectId, sessionId)] else []
  }

  function LogOf(s: State, c: Client): seq<File> {
    Log(s, c.projectId, c.sessionId)
  }

  function SkippedBy(s: State, id: nat): set<int> {
    if id in s.skipped then s.skipped[id] else {}
  }

  /** The unreadable files that lie on the way from `a` to `b`. */
  function Passed(unreadable: set<int>, a: int, b: int): set<int> {
    set n | n in unreadable && a < n <= b
  }

  /** The skipped files once the clients of a group have moved from one table to another. */
  function SkippedAfter(s: State, r: Read, after: map<nat, Client>): (skipped: map<nat, set<int>>)
    requires r.snapshot.Some? && after.Keys == s.table.Keys
    ensures skipped.Keys == s.table.Keys
  {
    map id | id in s.table ::
      if id in r.group
      then SkippedBy(s, id) + Passed(r.snapshot.value.unreadable, s.table[id].lastSeq, after[id].lastSeq)
      else SkippedBy(s, id)
  }

  ghost predicate Reading(s: State, k: nat, listed: bool) {
    && k in s.polls && s.polls[k].reading.Some?
    && (s.polls[k].reading.value.snapshot.Some? <==> listed)
    && var g := s.polls[k].reading.value.group;
       g != [] && forall id :: id in g ==> id in s.table
  }

  ghost predicate Enabled(s: State, step: Step) {
    match step
    case Append(p, q, f) => IsLog(Log(s, p, q) + [f])
    case Join(_, _, _) => true
    case Leave(id) => id in s.table
    case HeartbeatFails(id) => id in s.table
    case StartPoll(k, grouped) =>
      && k !in s.polls && (forall id :: id in s.clients ==> id in s.table)
      && IsGrouping(grouped, s.clients, s.table)
    case BeginRead(k, key) =>
      && k in s.polls && s.polls[k].reading.None? && key in s.polls[k].todo
      && var g := s.polls[k].todo[key];
         g != [] && forall id :: id in g ==> id in s.table
    case List(k, listing, unreadable) =>
      && Reading(s, k, false)
      && var c := s.table[s.polls[k].reading.value.group[0]];
         && IsValidPathId(c.projectId) && IsValidPathId(c.sessionId)
         && multiset(listing) == multiset(AsSeen(LogOf(s, c), unreadable))
    case ReadFails(k) => k in s.polls
    case Deliver(k, _) => Reading(s, k, true)
    case EndPoll(k) =>
      && k in s.polls && s.polls[k] == Poll(map[], None)
      && forall id :: id in s.clients ==> id in s.table
  }

  ghost function Apply(s: State, step: Step): State
    requires Enabled(s, step)
  {
    match step
    case Append(p, q, f) => s.(store := s.store[(p, q) := Log(s, p, q) + [f]])
    case Join(p, q, from) =>
      s.(clients := s.clients + [s.nextClientId], nextClientId := s.nextClientId + 1,
         table := s.table[s.nextClientId := Client(p, q, from, from, true, [])])
    case Leave(id) =>
      s.(clients := Without(s.clients, id), table := s.table[id := s.table[id].(alive := false)])
    case HeartbeatFails(id) => s.(table := s.table[id := s.table[id].(alive := false)])
    case StartPoll(k, grouped) => s.(polls := s.polls[k := Poll(grouped, None)])
    case BeginRead(k, key) =>
      var g := s.polls[k].todo[key];
      s.(polls := s.polls[k := Poll(s.polls[k].todo - {key}, Some(Read(g, MinLast(g, s.table), None)))])
    case List(k, listing, unreadable) =>
      var r := s.polls[k].reading.value;
      var files := LogOf(s, s.table[r.group[0]]);
      var events := Parsed(Sort(ByNumber, Select(listing, r.minSeq)));
      var snapshot := Snapshot(events, |files|, unreadable);
      s.(polls := s.polls[k := s.polls[k].(reading := Some(r.(snapshot := Some(snapshot))))])
    case ReadFails(k) => s.(polls := s.polls[k := s.polls[k].(reading := None)])
    case Deliver(k, broken) =>
      var r := s.polls[k].reading.value;
      var after := DeliverTo(s.table, r.group, r.snapshot.value.events, broken);
      s.(table := after, skipped := SkippedAfter(s, r, after),
         polls := s.polls[k := s.polls[k].(reading := None)])
    case EndPoll(k) => s.(clients := AliveOnly(s.clients, s.table), polls := s.polls - {k})
  }

  // ---------------------------------------------------------------------------
  // The invariant
  // ---------------------------------------------------------------------------

  ghost predicate Later(c: Client, d: Client) {
    d.projectId == c.projectId && d.sessionId == c.sessionId && d.start == c.start && c.lastSeq <= d.lastSeq
  }

  /** A client has, in order, exactly the log between its start and its lastSeq, but for what it skipped. */
  ghost predicate CaughtUp(c: Client, log: seq<Event>, skipped: set<int>) {
    && c.start <= c.lastSeq
    && Increasing(c.received)
    && c.lastSeq == (if c.received == [] then c.start else c.received[|c.received| - 1].sequence)
    && (forall n :: n in skipped ==> n <= c.lastSeq)
    && forall e :: e in c.received <==> Due(c, log, skipped, e)
  }

  ghost predicate Due(c: Client, log: seq<Event>, skipped: set<int>, e: Event) {
    e in log && c.start < e.sequence <= c.lastSeq && e.sequence !in skipped
  }

  ghost predicate GroupOk(g: seq<nat>, key: string, table: map<nat, Client>) {
    && g != [] && NoDup(g)
    && forall id :: id in g ==> id in table && KeyOf(table[id]) == key
  }

  /** The events after `minSeq` of the log as it was, in order, but for the unreadable. */
  ghost predicate IsSnapshot(snapshot: Snapshot, files: seq<File>, minSeq: int) {
    && snapshot.asOf <= |files|
    && Increasing(snapshot.events)
    && forall e :: e in snapshot.events <==> Shown(snapshot, files, minSeq, e)
  }

  ghost predicate Shown(snapshot: Snapshot, files: seq<File>, minSeq: int, e: Event)
    requires snapshot.asOf <= |files|
  {
    e in Readable(files[..snapshot.asOf]) && e.sequence > minSeq && e.sequence !in snapshot.unreadable
  }

  ghost predicate ReadOk(r: Read, s: State) {
    && r.group != [] && r.group[0] in s.table
    && GroupOk(r.group, KeyOf(s.table[r.group[0]]), s.table)
    && (forall id :: id in r.group ==> r.minSeq <= s.table[id].lastSeq)
    && (r.snapshot.Some? ==>
          var c := s.table[r.group[0]];
          && IsValidPathId(c.projectId) && IsValidPathId(c.sessionId)
          && IsSnapshot(r.snapshot.value, LogOf(s, c), r.minSeq))
  }

  ghost predicate PollOk(p: Poll, s: State) {
    && (forall key :: key in p.todo ==> GroupOk(p.todo[key], key, s.table))
    && (p.reading.Some? ==> ReadOk(p.reading.value, s))
  }

  ghost predicate StoreOk(s: State) {
    forall key :: key in s.store ==> IsLog(s.store[key])
  }

  ghost predicate ListOk(s: State) {
    && NoDup(s.clients)
    && (forall id :: id in s.clients ==> id in s.table)
    && (forall id :: id in s.table ==> id < s.nextClientId)
    && s.skipped.Keys <= s.table.Keys
  }

  ghost predicate ClientOk(s: State, id: nat)
    requires id in s.table
  {
    CaughtUp(s.table[id], Readable(LogOf(s, s.table[id])), SkippedBy(s, id))
  }

  ghost predicate ClientsOk(s: State) {
    forall id :: id in s.table ==> ClientOk(s, id)
  }

  ghost predicate PollsOk(s: State) {
    forall k :: k in s.polls ==> PollOk(s.polls[k], s)
  }

  ghost predicate Inv(s: State) {
    StoreOk(s) && ListOk(s) && ClientsOk(s) && PollsOk(s)
  }

  // ---------------------------------------------------------------------------
  // One client, one snapshot
  // ---------------------------------------------------------------------------

  /** Offering `events` to a client at `at` leaves nothing of the log out but what is unreadable. */
  ghost predicate Fits(events: seq<Event>, log: seq<Event>, at: int, unreadable: set<int>) {
    && (forall e :: e in events ==> e in log && e.sequence !in unreadable)
    && (forall e, f :: e in events && f in log && at < f.sequence <= e.sequence && f.sequence !in unreadable
          ==> f in events)
  }

  /** What a client holds once some events have been offered to it. */
  ghost predicate Offered(c: Client, d: Client, log: seq<Event>, skipped: set<int>, unreadable: set<int>,
                          events: seq<Event>) {
    && Later(c, d) && CaughtUp(d, log, skipped + Passed(unreadable, c.lastSeq, d.lastSeq))
    && (d.alive ==> forall e :: e in events ==> e.sequence <= d.lastSeq)
  }

  lemma FitsFront(front: seq<Event>, e: Event, log: seq<Event>, at: int, unreadable: set<int>)
    requires Increasing(front + [e]) && Fits(front + [e], log, at, unreadable)
    ensures Increasing(front) && Fits(front, log, at, unreadable)
    ensures forall f :: f in front ==> f.sequence < e.sequence
  {
    var all := front + [e];
    IncreasingFront(front, e);
    assert forall i :: 0 <= i < |front| ==> all[i] == front[i];
    assert all[|front|] == e;
    forall d, f | d in front && f in log && at < f.sequence <= d.sequence && f.sequence !in unreadable
      ensures f in front
    {
      assert d in all && f in all;
      assert d.sequence < e.sequence;
    }
  }

  /** Offering to a client what a read shows of the log after where it stands keeps it exact, whatever writes fail; what
      it skips is unreadable; and a client that stays alive is then past all that was offered. */
  lemma {:induction false} OfferAllKeepsCaughtUp(c: Client, id: nat, log: seq<Event>, skipped: set<int>,
                                                 events: seq<Event>, unreadable: set<int>, broken: set<(nat, int)>)
    requires CaughtUp(c, log, skipped) && Increasing(events) && Fits(events, log, c.lastSeq, unreadable)
    ensures Offered(c, OfferAll(c, id, events, broken), log, skipped, unreadable, events)
    decreases |events|
  {
    hide CaughtUp, Increasing, Fits;
    if events == [] {
      assert skipped + Passed(unreadable, c.lastSeq, c.lastSeq) == skipped;
    } else {
      var front, e := events[..|events| - 1], events[|events| - 1];
      assert events == front + [e];
      FitsFront(front, e, log, c.lastSeq, unreadable);
      OfferAllKeepsCaughtUp(c, id, log, skipped, front, unreadable, broken);
      hide Offered;
      OfferKeepsCaughtUp(c, OfferAll(c, id, front, broken), log, skipped, unreadable, front, e,
                         (id, e.sequence) in broken);
    }
  }

  lemma OfferKeepsCaughtUp(c: Client, d: Client, log: seq<Event>, skipped: set<int>, unreadable: set<int>,
                           front: seq<Event>, e: Event, fails: bool)
    requires CaughtUp(c, log, skipped) && Offered(c, d, log, skipped, unreadable, front)
    requires Increasing(front + [e]) && Fits(front + [e], log, c.lastSeq, unreadable)
    ensures Offered(c, Offer(d, e, fails), log, skipped, unreadable, front + [e])
  {
    if d.alive && e.sequence > d.lastSeq && !fails {
      TakeNext(c, d, log, skipped, unreadable, front, e);
      FitsFront(front, e, log, c.lastSeq, unreadable);
    } else {
      hide Increasing, Fits;
      assert CaughtUp(d, log, skipped + Passed(unreadable, c.lastSeq, d.lastSeq));
    }
  }

  /** Taking the next event offered: what lies between is unreadable. */
  lemma TakeNext(c: Client, d: Client, log: seq<Event>, skipped: set<int>, unreadable: set<int>, front: seq<Event>,
                 e: Event)
    requires CaughtUp(c, log, skipped) && Offered(c, d, log, skipped, unreadable, front)
    requires Fits(front + [e], log, c.lastSeq, unreadable) && d.alive && e.sequence > d.lastSeq
    ensures CaughtUp(d.(lastSeq := e.sequence, received := d.received + [e]), log,
                     skipped + Passed(unreadable, c.lastSeq, e.sequence))
  {
    var d', was, now := d.(lastSeq := e.sequence, received := d.received + [e]),
                        skipped + Passed(unreadable, c.lastSeq, d.lastSeq),
                        skipped + Passed(unreadable, c.lastSeq, e.sequence);
    IncreasingSnoc(d.received, e);
    assert e in front + [e];
    hide Increasing;
    forall x ensures x in d'.received <==> Due(d', log, now, x) {
      assert x in d.received <==> Due(d, log, was, x);
      if Due(d', log, now, x) && x.sequence > d.lastSeq {
        assert x in front + [e];
      }
    }
  }

  lemma {:induction false} ReadableGrows(files: seq<File>, n: nat)
    requires IsLog(files) && n <= |files|
    ensures Readable(files[..n]) <= Readable(files)
    decreases |files|
  {
    if n < |files| {
      var front, f := files[..|files| - 1], files[|files| - 1];
      ReadableGrows(front, n);
      assert front[..n] == files[..n] && files == front + [f];
      SelectSnoc(front, f, -1);
    } else {
      assert files[..n] == files;
    }
  }

  lemma PrefixHoldsEarlier(log: seq<Event>, n: nat, e: Event, f: Event)
    requires Increasing(log) && n <= |log| && e in log[..n] && f in log && f.sequence <= e.sequence
    ensures f in log[..n]
  {
    var i :| 0 <= i < n && log[..n][i] == e;
    var j :| 0 <= j < |log| && log[j] == f;
    assert log[..n][i] == log[i];
    assert j <= i;
    assert log[..n][j] == f;
  }

  /** A snapshot shows of the log, as far as it goes, all that anyone in the group needs and that it could read. */
  lemma SnapshotFits(files: seq<File>, snapshot: Snapshot, minSeq: int, lastSeq: int)
    requires IsLog(files) && minSeq <= lastSeq && IsSnapshot(snapshot, files, minSeq)
    ensures Fits(snapshot.events, Readable(files), lastSeq, snapshot.unreadable)
  {
    var then_, log := Readable(files[..snapshot.asOf]), Readable(files);
    ReadableGrows(files, snapshot.asOf);
    ReadableFacts(files);
    hide Readable, IsLog, Increasing;
    assert then_ == log[..|then_|];
    forall e | e in snapshot.events ensures e in log && e.sequence !in snapshot.unreadable {
      assert Shown(snapshot, files, minSeq, e);
    }
    forall e, f | e in snapshot.events && f in log && lastSeq < f.sequence <= e.sequence
                  && f.sequence !in snapshot.unreadable
      ensures f in snapshot.events
    {
      assert Shown(snapshot, files, minSeq, e);
      PrefixHoldsEarlier(log, |then_|, e, f);
      assert Shown(snapshot, files, minSeq, f);
    }
  }

  lemma DeliverToOne(files: seq<File>, c: Client, id: nat, minSeq: int, snapshot: Snapshot, skipped: set<int>,
                     broken: set<(nat, int)>)
    requires IsLog(files) && CaughtUp(c, Readable(files), skipped) && minSeq <= c.lastSeq
    requires IsSnapshot(snapshot, files, minSeq)
    ensures Offered(c, OfferAll(c, id, snapshot.events, broken), Readable(files), skipped, snapshot.unreadable,
                    snapshot.events)
  {
    SnapshotFits(files, snapshot, minSeq, c.lastSeq);
    OfferAllKeepsCaughtUp(c, id, Readable(files), skipped, snapshot.events, snapshot.unreadable, broken);
  }

  /** All clients of a group that is being read watch the session that is read. */
  lemma GroupWatchesOneSession(s: State, r: Read, id: nat)
    requires ReadOk(r, s) && r.snapshot.Some? && id in r.group
    ensures id in s.table && LogOf(s, s.table[id]) == LogOf(s, s.table[r.group[0]])
  {
    var c, head := s.table[id], s.table[r.group[0]];
    GroupKeyNamesOneSession(head.projectId, head.sessionId, c.projectId, c.sessionId);
  }

  lemma LogsAreLogs(s: State, p: string, q: string)
    requires StoreOk(s)
    ensures IsLog(Log(s, p, q))
  {
  }

  lemma DeliverToGroup(s: State, r: Read, id: nat, broken: set<(nat, int)>)
    requires StoreOk(s) && ReadOk(r, s) && r.snapshot.Some? && id in r.group
    requires id in s.table && ClientOk(s, id)
    ensures Offered(s.table[id], OfferAll(s.table[id], id, r.snapshot.value.events, broken),
                    Readable(LogOf(s, s.table[id])), SkippedBy(s, id), r.snapshot.value.unreadable,
                    r.snapshot.value.events)
    ensures IsSnapshot(r.snapshot.value, LogOf(s, s.table[id]), r.minSeq) && r.minSeq <= s.table[id].lastSeq
  {
    var c := s.table[id];
    GroupWatchesOneSession(s, r, id);
    LogsAreLogs(s, c.projectId, c.sessionId);
    hide CaughtUp, IsSnapshot, Offered;
    DeliverToOne(LogOf(s, c), c, id, r.minSeq, r.snapshot.value, SkippedBy(s, id), broken);
  }

  // ---------------------------------------------------------------------------
  // Every step keeps the invariant
  // ---------------------------------------------------------------------------

  /** Clients only move forward and logs only grow. */
  ghost predicate Advances(s: State, t: State) {
    && (forall id :: id in s.table ==> id in t.table && Later(s.table[id], t.table[id]))
    && (forall p, q :: Log(s, p, q) <= Log(t, p, q))
  }

  lemma AdvanceKeepsRead(s: State, t: State, r: Read)
    requires ReadOk(r, s) && Advances(s, t)
    ensures ReadOk(r, t)
  {
    var c := s.table[r.group[0]];
    assert Later(c, t.table[r.group[0]]);
    var before, after := Log(s, c.projectId, c.sessionId), Log(t, c.projectId, c.sessionId);
    assert before <= after;
    if r.snapshot.Some? {
      assert after[..r.snapshot.value.asOf] == before[..r.snapshot.value.asOf];
    }
  }

  lemma AdvanceKeepsPoll(s: State, t: State, p: Poll)
    requires PollOk(p, s) && Advances(s, t)
    ensures PollOk(p, t)
  {
    if p.reading.Some? { AdvanceKeepsRead(s, t, p.reading.value); }
  }

  /** Polls that a step does not touch stay in order. */
  lemma PollsKept(s: State, t: State)
    requires PollsOk(s) && Advances(s, t)
    ensures forall k :: k in s.polls ==> PollOk(s.polls[k], t)
  {
    forall k | k in s.polls ensures PollOk(s.polls[k], t) { AdvanceKeepsPoll(s, t, s.polls[k]); }
  }

  /** Nothing new is appended at or before what a client has received. */
  lemma AppendedIsLater(c: Client, log: seq<Event>, e: Event, skipped: set<int>)
    requires Increasing(log + [e]) && CaughtUp(c, log, skipped) && c.received != []
    ensures c.lastSeq < e.sequence
  {
    var last := c.received[|c.received| - 1];
    assert Due(c, log, skipped, last);
    var i :| 0 <= i < |log| && log[i] == last;
    assert (log + [e])[i] == last && (log + [e])[|log|] == e;
  }

  lemma CaughtUpSnoc(c: Client, log: seq<Event>, e: Event, skipped: set<int>)
    requires Increasing(log + [e]) && CaughtUp(c, log, skipped)
    ensures CaughtUp(c, log + [e], skipped)
  {
    if c.received != [] { AppendedIsLater(c, log, e, skipped); }
    hide Increasing;
    forall x ensures x in c.received <==> Due(c, log + [e], skipped, x) {
      assert x in c.received <==> Due(c, log, skipped, x);
    }
  }

  lemma AppendKeepsClient(c: Client, files: seq<File>, f: File, skipped: set<int>)
    requires IsLog(files + [f]) && CaughtUp(c, Readable(files), skipped)
    ensures CaughtUp(c, Readable(files + [f]), skipped)
  {
    SelectSnoc(files, f, -1);
    ReadableFacts(files + [f]);
    hide CaughtUp;
    if Adds(f, -1) == [] {
      assert Readable(files + [f]) == Readable(files);
    } else {
      CaughtUpSnoc(c, Readable(files), f.content.value, skipped);
    }
  }

  lemma AppendKeepsInv(s: State, p: string, q: string, f: File)
    requires Inv(s) && Enabled(s, Append(p, q, f))
    ensures Inv(Apply(s, Append(p, q, f)))
  {
    hide CaughtUp, PollOk;
    var t := Apply(s, Append(p, q, f));
    forall id | id in t.table ensures ClientOk(t, id) {
      assert ClientOk(s, id);
      AppendKeepsClientOk(s, p, q, f, id);
    }
    AppendAdvances(s, p, q, f);
    PollsKept(s, t);
  }

  lemma AppendAdvances(s: State, p: string, q: string, f: File)
    requires StoreOk(s) && Enabled(s, Append(p, q, f))
    ensures var t := Apply(s, Append(p, q, f));
            StoreOk(t) && Advances(s, t)
  {
  }

  lemma AppendKeepsClientOk(s: State, p: string, q: string, f: File, id: nat)
    requires id in s.table && ClientOk(s, id) && Enabled(s, Append(p, q, f))
    ensures ClientOk(Apply(s, Append(p, q, f)), id)
  {
    var c := s.table[id];
    if (c.projectId, c.sessionId) == (p, q) {
      AppendKeepsClient(c, Log(s, p, q), f, SkippedBy(s, id));
    }
  }

  /** Delivering moves the clients of a group forward along their logs. */
  lemma DeliverKeepsClient(s: State, r: Read, id: nat, broken: set<(nat, int)>)
    requires StoreOk(s) && ReadOk(r, s) && r.snapshot.Some?
    requires id in s.table && ClientOk(s, id)
    ensures var after := DeliverTo(s.table, r.group, r.snapshot.value.events, broken);
            && Later(s.table[id], after[id])
            && CaughtUp(after[id], Readable(LogOf(s, s.table[id])), SkippedAfter(s, r, after)[id])
  {
    hide CaughtUp, Passed;
    if id in r.group { DeliverToGroup(s, r, id, broken); }
  }

  lemma DeliverKeepsClients(s: State, r: Read, broken: set<(nat, int)>)
    requires StoreOk(s) && ClientsOk(s) && ReadOk(r, s) && r.snapshot.Some?
    ensures var after := DeliverTo(s.table, r.group, r.snapshot.value.events, broken);
            var t := s.(table := after, skipped := SkippedAfter(s, r, after));
            ClientsOk(t) && forall id :: id in s.table ==> Later(s.table[id], t.table[id])
  {
    var after := DeliverTo(s.table, r.group, r.snapshot.value.events, broken);
    var t := s.(table := after, skipped := SkippedAfter(s, r, after));
    hide CaughtUp, ReadOk, SkippedAfter;
    forall id | id in s.table ensures Later(s.table[id], t.table[id]) && ClientOk(t, id) {
      assert ClientOk(s, id);
      DeliverKeepsClient(s, r, id, broken);
    }
  }

  lemma DeliverKeepsInv(s: State, k: nat, broken: set<(nat, int)>)
    requires Inv(s) && Enabled(s, Deliver(k, broken))
    ensures Inv(Apply(s, Deliver(k, broken)))
  {
    hide CaughtUp, IsSnapshot, SkippedAfter;
    var r := s.polls[k].reading.value;
    assert ReadOk(r, s) by { assert PollOk(s.polls[k], s); }
    DeliverKeepsClients(s, r, broken);
    var after := DeliverTo(s.table, r.group, r.snapshot.value.events, broken);
    var t := s.(table := after, skipped := SkippedAfter(s, r, after));
    TableStepKeepsInv(s, t);
    assert Enabled(t, ReadFails(k)) && Apply(t, ReadFails(k)) == Apply(s, Deliver(k, broken));
    ReadFailsKeepsInv(t, k);
  }

  /** A step that moves clients forward along their logs. */
  lemma TableStepKeepsInv(s: State, t: State)
    requires Inv(s) && t == s.(table := t.table, skipped := t.skipped) && t.table.Keys == s.table.Keys
    requires forall id :: id in s.table ==> Later(s.table[id], t.table[id])
    requires ClientsOk(t) && t.skipped.Keys <= t.table.Keys
    ensures Inv(t)
  {
    hide PollOk, CaughtUp;
    assert Advances(s, t);
    PollsKept(s, t);
  }

  /** A step that only changes polls, one of them. */
  lemma PollStepKeepsInv(s: State, t: State, k: nat)
    requires Inv(s) && t == s.(polls := t.polls)
    requires k in t.polls && PollOk(t.polls[k], t)
    requires forall j :: j in t.polls && j != k ==> j in s.polls && t.polls[j] == s.polls[j]
    ensures Inv(t)
  {
    hide PollOk, CaughtUp;
    assert Advances(s, t);
    PollsKept(s, t);
    forall id | id in t.table ensures ClientOk(t, id) { assert ClientOk(s, id); }
  }

  lemma StartPollKeepsInv(s: State, k: nat, grouped: map<string, seq<nat>>)
    requires Inv(s) && Enabled(s, StartPoll(k, grouped))
    ensures Inv(Apply(s, StartPoll(k, grouped)))
  {
    hide CaughtUp;
    forall key | key in grouped ensures GroupOk(grouped[key], key, s.table) {
      MembersFacts(s.clients, s.table, key);
    }
    PollStepKeepsInv(s, Apply(s, StartPoll(k, grouped)), k);
  }

  lemma BeginReadKeepsInv(s: State, k: nat, key: string)
    requires Inv(s) && Enabled(s, BeginRead(k, key))
    ensures Inv(Apply(s, BeginRead(k, key)))
  {
    hide CaughtUp, IsSnapshot;
    assert PollOk(s.polls[k], s);
    PollStepKeepsInv(s, Apply(s, BeginRead(k, key)), k);
  }

  /** A read is a snapshot of the log at that moment. */
  lemma ListingIsSnapshot(listing: seq<File>, files: seq<File>, unreadable: set<int>, minSeq: int)
    requires IsLog(files) && multiset(listing) == multiset(AsSeen(files, unreadable))
    ensures IsSnapshot(Snapshot(Parsed(Sort(ByNumber, Select(listing, minSeq))), |files|, unreadable), files, minSeq)
  {
    var events := Parsed(Sort(ByNumber, Select(listing, minSeq)));
    var snapshot := Snapshot(events, |files|, unreadable);
    assert files[..|files|] == files;
    hide Readable, Parsed, Sort, Select, IsLog, Increasing;
    forall e ensures Increasing(events) && (e in events <==> Shown(snapshot, files, minSeq, e)) {
      ReadFindsExactly(listing, files, unreadable, minSeq, e);
    }
    assert Increasing(events) by { ReadFindsExactly(listing, files, unreadable, minSeq, Event(0, "", "", "")); }
  }

  lemma ListKeepsInv(s: State, k: nat, listing: seq<File>, unreadable: set<int>)
    requires Inv(s) && Enabled(s, List(k, listing, unreadable))
    ensures Inv(Apply(s, List(k, listing, unreadable)))
  {
    hide CaughtUp, IsSnapshot, IsLog, Parsed, Sort, Select;
    assert PollOk(s.polls[k], s);
    var r := s.polls[k].reading.value;
    var c := s.table[r.group[0]];
    LogsAreLogs(s, c.projectId, c.sessionId);
    ListingIsSnapshot(listing, LogOf(s, c), unreadable, r.minSeq);
    PollStepKeepsInv(s, Apply(s, List(k, listing, unreadable)), k);
  }

  lemma ReadFailsKeepsInv(s: State, k: nat)
    requires Inv(s) && Enabled(s, ReadFails(k))
    ensures Inv(Apply(s, ReadFails(k)))
  {
    hide CaughtUp, IsSnapshot;
    assert PollOk(s.polls[k], s);
    PollStepKeepsInv(s, Apply(s, ReadFails(k)), k);
  }

  /** A client that differs at most in being alive, or that has just joined. */
  ghost predicate SameOrNew(s: State, t: State, id: nat)
    requires id in t.table
  {
    if id in s.table then s.table[id].(alive := t.table[id].alive) == t.table[id]
    else t.table[id].received == [] && t.table[id].lastSeq == t.table[id].start && SkippedBy(t, id) == {}
  }

  lemma SameOrNewIsOk(s: State, t: State, id: nat)
    requires t.store == s.store && t.skipped == s.skipped
    requires id in t.table && SameOrNew(s, t, id) && (id in s.table ==> ClientOk(s, id))
    ensures ClientOk(t, id)
  {
  }

  /** A step that leaves the logs, the polls and every client's progress alone. */
  lemma ListStepKeepsInv(s: State, t: State)
    requires Inv(s) && ListOk(t) && t.store == s.store && t.skipped == s.skipped && s.table.Keys <= t.table.Keys
    requires forall k :: k in t.polls ==> k in s.polls && t.polls[k] == s.polls[k]
    requires forall id :: id in t.table ==> SameOrNew(s, t, id)
    ensures Inv(t)
  {
    hide PollOk, CaughtUp;
    forall id | id in t.table ensures ClientOk(t, id) {
      assert id in s.table ==> ClientOk(s, id);
      SameOrNewIsOk(s, t, id);
    }
    assert Advances(s, t) by {
      assert forall id :: id in s.table ==> SameOrNew(s, t, id);
    }
    PollsKept(s, t);
  }

  lemma JoinKeepsInv(s: State, p: string, q: string, from: int)
    requires Inv(s)
    ensures Inv(Apply(s, Join(p, q, from)))
  {
    hide CaughtUp, PollOk;
    NoDupSnoc(s.clients, s.nextClientId);
    ListStepKeepsInv(s, Apply(s, Join(p, q, from)));
  }

  lemma LeaveKeepsInv(s: State, step: Step)
    requires Inv(s) && Enabled(s, step) && (step.Leave? || step.HeartbeatFails?)
    ensures Inv(Apply(s, step))
  {
    hide CaughtUp, PollOk;
    if step.Leave? { WithoutFacts(s.clients, step.id); }
    ListStepKeepsInv(s, Apply(s, step));
  }

  lemma EndPollKeepsInv(s: State, k: nat)
    requires Inv(s) && Enabled(s, EndPoll(k))
    ensures Inv(Apply(s, EndPoll(k)))
  {
    hide CaughtUp, PollOk;
    AliveOnlyFacts(s.clients, s.table);
    ListStepKeepsInv(s, Apply(s, EndPoll(k)));
  }

  lemma StepKeepsInv(s: State, step: Step)
    requires Inv(s) && Enabled(s, step)
    ensures Inv(Apply(s, step))
  {
    match step
    case Append(p, q, f) => AppendKeepsInv(s, p, q, f);
    case Join(p, q, from) => JoinKeepsInv(s, p, q, from);
    case Leave(_) => LeaveKeepsInv(s, step);
    case HeartbeatFails(_) => LeaveKeepsInv(s, step);
    case StartPoll(k, grouped) => StartPollKeepsInv(s, k, grouped);
    case BeginRead(k, key) => BeginReadKeepsInv(s, k, key);
    case List(k, listing, unreadable) => ListKeepsInv(s, k, listing, unreadable);
    case ReadFails(k) => ReadFailsKeepsInv(s, k);
    case Deliver(k, broken) => DeliverKeepsInv(s, k, broken);
    case EndPoll(k) => EndPollKeepsInv(s, k);
  }

  ghost predicate IsRun(s: State, steps: seq<Step>, last: State)
    decreases |steps|
  {
    if steps == [] then last == s
    else Enabled(s, steps[0]) && IsRun(Apply(s, steps[0]), steps[1..], last)
  }

  lemma {:induction false} RunKeepsInv(s: State, steps: seq<Step>, last: State)
    requires Inv(s) && IsRun(s, steps, last)
    ensures Inv(last)
    decreases |steps|
  {
    if steps != [] {
      StepKeepsInv(s, steps[0]);
      RunKeepsInv(Apply(s, steps[0]), steps[1..], last);
    }
  }

  // ---------------------------------------------------------------------------
  // Whole runs
  // ---------------------------------------------------------------------------

  /** The step moves the client past a file that the read behind it could not read. */
  ghost predicate PassesUnread(s: State, step: Step, id: nat, n: int)
    requires Enabled(s, step)
  {
    && step.Deliver? && id in s.table
    && var r := s.polls[step.poll].reading.value;
       && id in r.group && n in r.snapshot.value.unreadable
       && s.table[id].lastSeq < n <= Apply(s, step).table[id].lastSeq
  }

  ghost predicate EverPasses(s: State, steps: seq<Step>, id: nat, n: int)
    decreases |steps|
  {
    && steps != [] && Enabled(s, steps[0])
    && (PassesUnread(s, steps[0], id, n) || EverPasses(Apply(s, steps[0]), steps[1..], id, n))
  }

  lemma StepSkips(s: State, step: Step, id: nat, n: int)
    requires Inv(s) && Enabled(s, step)
    ensures n in SkippedBy(Apply(s, step), id) <==> n in SkippedBy(s, id) || PassesUnread(s, step, id, n)
  {
    hide ClientsOk, PollsOk, StoreOk;
  }

  lemma {:induction false} RunSkips(s: State, steps: seq<Step>, last: State, id: nat, n: int)
    requires Inv(s) && IsRun(s, steps, last)
    ensures n in SkippedBy(last, id) <==> n in SkippedBy(s, id) || EverPasses(s, steps, id, n)
    decreases |steps|
  {
    if steps != [] {
      hide Inv, Apply, Enabled, PassesUnread, SkippedBy;
      StepSkips(s, steps[0], id, n);
      StepKeepsInv(s, steps[0]);
      RunSkips(Apply(s, steps[0]), steps[1..], last, id, n);
    }
  }

  /** In every reachable state, what a client received is in order, once each, exactly the log after its start and up
      to its lastSeq, but for events whose files a read could not read while its delivery moved the client past them. */
  lemma ExactlyOnceInOrder(steps: seq<Step>, s: State, id: nat)
    requires IsRun(INIT, steps, s) && id in s.table
    ensures var c, log := s.table[id], Readable(LogOf(s, s.table[id]));
            && Increasing(c.received)
            && forall e :: e in c.received <==>
                 && e in log && c.start < e.sequence <= c.lastSeq
                 && !EverPasses(INIT, steps, id, e.sequence)
  {
    RunKeepsInv(INIT, steps, s);
    var c, log, skipped := s.table[id], Readable(LogOf(s, s.table[id])), SkippedBy(s, id);
    assert CaughtUp(c, log, skipped) by { assert ClientOk(s, id); }
    forall e ensures e in c.received <==> Due(c, log, skipped, e) {}
    forall n ensures n in skipped <==> EverPasses(INIT, steps, id, n) { RunSkips(INIT, steps, s, id, n); }
    hide EverPasses, IsRun, Readable;
  }

  ghost predicate AllReadable(steps: seq<Step>) {
    forall i :: 0 <= i < |steps| && steps[i].List? ==> steps[i].unreadable == {}
  }

  ghost predicate ReadsAll(s: State) {
    forall k :: k in s.polls && s.polls[k].reading.Some? && s.polls[k].reading.value.snapshot.Some?
      ==> s.polls[k].reading.value.snapshot.value.unreadable == {}
  }

  lemma {:induction false} ReadablePassesNothing(s: State, steps: seq<Step>, id: nat, n: int)
    requires ReadsAll(s) && AllReadable(steps)
    ensures !EverPasses(s, steps, id, n)
    decreases |steps|
  {
    if steps != [] && Enabled(s, steps[0]) {
      assert AllReadable(steps[1..]) by { assert forall i :: 0 <= i < |steps[1..]| ==> steps[1..][i] == steps[i + 1]; }
      assert steps[0].List? ==> steps[0].unreadable == {};
      assert ReadsAll(Apply(s, steps[0]));
      ReadablePassesNothing(Apply(s, steps[0]), steps[1..], id, n);
    }
  }

  /** Where every read could read all files, there is no gap. */
  lemma NoGapWhenReadable(steps: seq<Step>, s: State, id: nat)
    requires IsRun(INIT, steps, s) && id in s.table && AllReadable(steps)
    ensures var c, log := s.table[id], Readable(LogOf(s, s.table[id]));
            && Increasing(c.received)
            && forall e :: e in c.received <==> e in log && c.start < e.sequence <= c.lastSeq
  {
    ExactlyOnceInOrder(steps, s, id);
    forall n ensures !EverPasses(INIT, steps, id, n) { ReadablePassesNothing(INIT, steps, id, n); }
    hide EverPasses, IsRun, Readable;
  }

  /** After a delivery, a client that is still alive has every event that the log had when it was read, after the
      client's start, but for what it could not be shown then and what it had skipped before. */
  lemma DeliveryCatchesUp(steps: seq<Step>, s: State, k: nat, broken: set<(nat, int)>, id: nat, e: Event)
    requires IsRun(INIT, steps, s) && Enabled(s, Deliver(k, broken))
    requires id in s.polls[k].reading.value.group
    requires var c, snapshot := s.table[id], s.polls[k].reading.value.snapshot.value;
             && snapshot.asOf <= |LogOf(s, c)|
             && e in Readable(LogOf(s, c)[..snapshot.asOf]) && e.sequence > c.start
             && e.sequence !in snapshot.unreadable && e.sequence !in SkippedBy(s, id)
    ensures var t := Apply(s, Deliver(k, broken));
            t.table[id].alive ==> e in t.table[id].received
  {
    RunKeepsInv(INIT, steps, s);
    var c, r := s.table[id], s.polls[k].reading.value;
    assert ReadOk(r, s) by { assert PollOk(s.polls[k], s); }
    assert ClientOk(s, id);
    DeliverToGroup(s, r, id, broken);
    LogsAreLogs(s, c.projectId, c.sessionId);
    SnapshotReceived(LogOf(s, c), c, OfferAll(c, id, r.snapshot.value.events, broken), r.snapshot.value, r.minSeq,
                     SkippedBy(s, id), e);
  }

  lemma SnapshotReceived(files: seq<File>, c: Client, d: Client, snapshot: Snapshot, minSeq: int, skipped: set<int>,
                         e: Event)
    requires IsLog(files) && IsSnapshot(snapshot, files, minSeq) && minSeq <= c.lastSeq
    requires Offered(c, d, Readable(files), skipped, snapshot.unreadable, snapshot.events)
    requires e in Readable(files[..snapshot.asOf]) && e.sequence > c.start
    requires e.sequence !in snapshot.unreadable && e.sequence !in skipped
    ensures d.alive ==> e in d.received
  {
    ReadableGrows(files, snapshot.asOf);
    hide Readable, Increasing;
    if d.alive {
      if e.sequence > minSeq { assert Shown(snapshot, files, minSeq, e); }
      assert Due(d, Readable(files), skipped + Passed(snapshot.unreadable, c.lastSeq, d.lastSeq), e);
    }
  }

  lemma {:induction false} RunSnoc(s: State, steps: seq<Step>, last: State, step: Step)
    requires IsRun(s, steps, last) && Enabled(last, step)
    ensures IsRun(s, steps + [step], Apply(last, step))
    decreases |steps|
  {
    if steps == [] {
      assert (steps + [step])[1..] == [];
    } else {
      assert (steps + [step])[1..] == steps[1..] + [step];
      hide Enabled, Apply;
      RunSnoc(Apply(s, steps[0]), steps[1..], last, step);
    }
  }

  lemma {:induction false} UnbrokenStaysAlive(c: Client, id: nat, events: seq<Event>)
    requires c.alive
    ensures OfferAll(c, id, events, {}).alive
  {
    if events != [] { UnbrokenStaysAlive(c, id, events[..|events| - 1]); }
  }

  /** A delivery from a read that shows a later event moves a client past what the read could not read. */
  lemma DeliveryPasses(steps: seq<Step>, s: State, k: nat, id: nat, e: Event, n: int)
    requires IsRun(INIT, steps, s) && Enabled(s, Deliver(k, {}))
    requires id in s.polls[k].reading.value.group && s.table[id].alive
    requires var c, snapshot := s.table[id], s.polls[k].reading.value.snapshot.value;
             && snapshot.asOf <= |LogOf(s, c)| && e in Readable(LogOf(s, c)[..snapshot.asOf])
             && c.start <= c.lastSeq < n <= e.sequence && n in snapshot.unreadable && e.sequence !in snapshot.unreadable
             && e.sequence !in SkippedBy(s, id)
    ensures var t := Apply(s, Deliver(k, {}));
            && t.store == s.store && id in t.table && Later(s.table[id], t.table[id])
            && t.table[id].lastSeq >= e.sequence && forall f :: f in t.table[id].received ==> f.sequence != n
  {
    RunKeepsInv(INIT, steps, s);
    assert ReadOk(s.polls[k].reading.value, s) by { assert PollOk(s.polls[k], s); }
    assert ClientOk(s, id);
    DeliverKeepsClient(s, s.polls[k].reading.value, id, {});
    hide ReadOk, CaughtUp, IsRun, Offer;
    Passing(steps, s, k, id, e, n);
  }

  lemma Passing(steps: seq<Step>, s: State, k: nat, id: nat, e: Event, n: int)
    requires IsRun(INIT, steps, s) && Enabled(s, Deliver(k, {}))
    requires id in s.polls[k].reading.value.group && s.table[id].alive
    requires var c, snapshot := s.table[id], s.polls[k].reading.value.snapshot.value;
             && snapshot.asOf <= |LogOf(s, c)| && e in Readable(LogOf(s, c)[..snapshot.asOf])
             && c.start <= c.lastSeq < n <= e.sequence && n in snapshot.unreadable && e.sequence !in snapshot.unreadable
             && e.sequence !in SkippedBy(s, id)
    ensures var t := Apply(s, Deliver(k, {}));
            t.table[id].lastSeq >= e.sequence && forall f :: f in t.table[id].received ==> f.sequence != n
  {
    var t := Apply(s, Deliver(k, {}));
    DeliveryCatchesUp(steps, s, k, {}, id, e);
    UnbrokenStaysAlive(s.table[id], id, s.polls[k].reading.value.snapshot.value.events);
    RunKeepsInv(INIT, steps, s);
    StepKeepsInv(s, Deliver(k, {}));
    StepSkips(s, Deliver(k, {}), id, n);
    var c, log := t.table[id], Readable(LogOf(t, t.table[id]));
    assert CaughtUp(c, log, SkippedBy(t, id)) by { assert ClientOk(t, id); }
    assert Due(c, log, SkippedBy(t, id), e);
    assert PassesUnread(s, Deliver(k, {}), id, n);
    assert forall f :: f in c.received ==> Due(c, log, SkippedBy(t, id), f);
  }

  const FIRST := Event(1, "t", "", "")
  const SECOND := Event(2, "t", "", "")
  const ONE_FILE := [File(1, Some(FIRST))]
  const FILES := ONE_FILE + [File(2, Some(SECOND))]
  const WATCHER := Client("p", "s", 0, 0, true, [])

  lemma TwoLogs()
    ensures IsLog(ONE_FILE) && IsLog(FILES)
  {
  }

  lemma TwoFiles()
    ensures IsLog(ONE_FILE) && IsLog(FILES) && FIRST in Readable(FILES) && SECOND in Readable(FILES)
  {
    TwoLogs();
    hide Readable, IsLog;
    OneMoreReadable([], ONE_FILE[0], FIRST);
    assert [] + [ONE_FILE[0]] == ONE_FILE;
    OneMoreReadable(ONE_FILE, FILES[1], FIRST);
    OneMoreReadable(ONE_FILE, FILES[1], SECOND);
    assert FILES == ONE_FILE + [FILES[1]];
  }

  function Files(files: seq<File>): State {
    State(map[("p", "s") := files], [], map[], 1, map[], map[])
  }

  function Watched(polls: map<nat, Poll>): State {
    State(map[("p", "s") := FILES], [1], map[1 := WATCHER], 2, polls, map[])
  }

  lemma OneFileComes()
    ensures Enabled(INIT, Append("p", "s", ONE_FILE[0]))
    ensures Apply(INIT, Append("p", "s", ONE_FILE[0])) == Files(ONE_FILE)
  {
    TwoFiles();
    assert [] + [ONE_FILE[0]] == ONE_FILE;
    hide IsLog, Readable;
  }

  lemma AnotherFileComes()
    ensures Enabled(Files(ONE_FILE), Append("p", "s", FILES[1]))
    ensures Apply(Files(ONE_FILE), Append("p", "s", FILES[1])) == Files(FILES)
  {
    TwoFiles();
    hide IsLog, Readable;
    assert Log(Files(ONE_FILE), "p", "s") + [FILES[1]] == FILES;
  }

  lemma WatcherComes()
    ensures Apply(Files(FILES), Join("p", "s", 0)) == Watched(map[])
  {
  }

  lemma GroupOfOne(c: Client)
    requires c.alive
    ensures IsGrouping(map[KeyOf(c) := [1]], [1], map[1 := c])
  {
    var table := map[1 := c];
    forall key ensures Members([1], table, key) == if key == KeyOf(c) then [1] else [] {
      assert [1][..0] == [] && Members([], table, key) == [];
    }
  }

  lemma PollStarts(key: string)
    requires key == KeyOf(WATCHER)
    ensures Enabled(Watched(map[]), StartPoll(0, map[key := [1]]))
    ensures Apply(Watched(map[]), StartPoll(0, map[key := [1]])) == Watched(map[0 := Poll(map[key := [1]], None)])
  {
    GroupOfOne(WATCHER);
    hide IsGrouping, Members, KeyOf;
  }

  lemma ReadBegins(key: string)
    ensures var s := Watched(map[0 := Poll(map[key := [1]], None)]);
            && Enabled(s, BeginRead(0, key))
            && Apply(s, BeginRead(0, key)) == Watched(map[0 := Poll(map[], Some(Read([1], 0, None)))])
  {
    var s := Watched(map[0 := Poll(map[key := [1]], None)]);
    assert MinLast([1], s.table) == 0;
    assert s.polls[0].todo - {key} == map[];
    hide MinLast;
  }

  lemma ReadHalf() returns (s: State)
    ensures var begun := Watched(map[0 := Poll(map[], Some(Read([1], 0, None)))]);
            var step := List(0, AsSeen(FILES, {1}), {1});
            Enabled(begun, step) && s == Apply(begun, step)
    ensures exists events :: s == Watched(map[0 := Poll(map[], Some(Read([1], 0, Some(Snapshot(events, 2, {1})))))])
  {
    hide AsSeen, Parsed, Sort, Select;
    var begun, step := Watched(map[0 := Poll(map[], Some(Read([1], 0, None)))]), List(0, AsSeen(FILES, {1}), {1});
    assert LogOf(begun, WATCHER) == FILES && |FILES| == 2;
    s := Apply(begun, step);
    var events := Parsed(Sort(ByNumber, Select(AsSeen(FILES, {1}), 0)));
    assert s == Watched(map[0 := Poll(map[], Some(Read([1], 0, Some(Snapshot(events, 2, {1})))))]);
  }

  lemma Extend(steps: seq<Step>, s: State, step: Step) returns (more: seq<Step>, t: State)
    requires IsRun(INIT, steps, s) && Enabled(s, step)
    ensures more == steps + [step] && t == Apply(s, step) && IsRun(INIT, more, t)
  {
    more, t := steps + [step], Apply(s, step);
    RunSnoc(INIT, steps, s, step);
  }

  /** A poll has read the two files and could not read the first. */
  lemma HalfRead() returns (steps: seq<Step>, s: State)
    ensures IsRun(INIT, steps, s)
    ensures exists events :: s == Watched(map[0 := Poll(map[], Some(Read([1], 0, Some(Snapshot(events, 2, {1})))))])
  {
    var key := KeyOf(WATCHER);
    assert IsRun(INIT, [], INIT);
    OneFileComes();
    AnotherFileComes();
    WatcherComes();
    PollStarts(key);
    ReadBegins(key);
    var half := ReadHalf();
    hide IsRun, Apply, Enabled, AsSeen, KeyOf, Watched, Files;
    steps, s := Extend([], INIT, Append("p", "s", ONE_FILE[0]));
    steps, s := Extend(steps, s, Append("p", "s", FILES[1]));
    assert Enabled(s, Join("p", "s", 0)) by { JoinIsEnabled(s, "p", "s", 0); }
    steps, s := Extend(steps, s, Join("p", "s", 0));
    steps, s := Extend(steps, s, StartPoll(0, map[key := [1]]));
    steps, s := Extend(steps, s, BeginRead(0, key));
    steps, s := Extend(steps, s, List(0, AsSeen(FILES, {1}), {1}));
  }

  lemma JoinIsEnabled(s: State, p: string, q: string, from: int)
    ensures Enabled(s, Join(p, q, from))
  {
  }

  /** A gap can happen: the first of two files cannot be read just when a poll delivers the second. */
  lemma GapCanHappen() returns (steps: seq<Step>, s: State)
    ensures IsRun(INIT, steps, s) && 1 in s.table && FIRST in Readable(LogOf(s, s.table[1]))
    ensures s.table[1].start < FIRST.sequence <= s.table[1].lastSeq && FIRST !in s.table[1].received
  {
    TwoFiles();
    var before: seq<Step>, half: State := HalfRead();
    assert FILES[..2] == FILES;
    hide IsRun, Readable;
    DeliveryPasses(before, half, 0, 1, SECOND, 1);
    hide Apply;
    steps, s := Extend(before, half, Deliver(0, {}));
  }
}
