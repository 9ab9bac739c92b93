/** What the usage of a session is, told from the events alone. */
module UsageHistory {
  import opened Options
  import opened UsageProjections

  // ---------------------------------------------------------------------------
  // The events of a session
  // ---------------------------------------------------------------------------

  predicate Concerns(e: Event, k: string) {
    !e.kind.Untracked? && e.projectId + ":" + e.sessionId == k
  }

  /** The events that concern a session since it was last started, or all of them if it never was. */
  function Own(events: seq<Event>, k: string): seq<Event> {
    if events == [] then []
    else
      var e := events[|events| - 1];
      if !Concerns(e, k) then Own(events[..|events| - 1], k)
      else if e.kind.SessionStarted? then []
      else Own(events[..|events| - 1], k) + [e]
  }

  /** The event that opened it: its last start, or its first event of all if it never was started. */
  function Opening(events: seq<Event>, k: string): Option<Event> {
    if events == [] then None
    else
      var e, before := events[|events| - 1], Opening(events[..|events| - 1], k);
      if Concerns(e, k) && (e.kind.SessionStarted? || before.None?) then Some(e) else before
  }

  function LastSequence(events: seq<Event>, k: string): int {
    if events == [] then 0
    else
      var e := events[|events| - 1];
      if Concerns(e, k) then e.sequence else LastSequence(events[..|events| - 1], k)
  }

  /** The tokens that an event reports: those of a completed turn. */
  function Reported(e: Event): Tokens {
    if e.kind.TurnCompleted? && e.kind.usage.Some? then e.kind.usage.value else Tokens(0, 0, 0, 0)
  }

  function SumOf(own: seq<Event>, part: Tokens -> int): int {
    if own == [] then 0 else SumOf(own[..|own| - 1], part) + part(Reported(own[|own| - 1]))
  }

  function TurnEvents(own: seq<Event>): seq<Event> {
    if own == [] then []
    else
      var e := own[|own| - 1];
      TurnEvents(own[..|own| - 1]) + if e.kind.TurnCompleted? then [e] else []
  }

  predicate CallsTool(e: Event, tool: string) {
    e.kind.ToolCallCompleted? && (if e.kind.tool.Some? then e.kind.tool.value == tool else tool == "unknown")
  }

  predicate FailsTool(e: Event, tool: string) {
    e.kind.ToolCallFailed? && (if e.kind.tool.Some? then e.kind.tool.value == tool else tool == "unknown")
  }

  function Count(own: seq<Event>, holds: Event -> bool): nat {
    if own == [] then 0 else Count(own[..|own| - 1], holds) + if holds(own[|own| - 1]) then 1 else 0
  }

  /** The tool calls since the last prompt or the last completed turn. */
  function CallsOfTurn(own: seq<Event>): nat {
    if own == [] then 0
    else
      var e := own[|own| - 1];
      if e.kind.UserPromptReceived? || e.kind.TurnCompleted? then 0
      else CallsOfTurn(own[..|own| - 1]) + if e.kind.ToolCallCompleted? then 1 else 0
  }

  function LastPrompt(own: seq<Event>): string {
    if own == [] then ""
    else
      var e := own[|own| - 1];
      if e.kind.UserPromptReceived? then (if e.kind.prompt.Some? then e.kind.prompt.value else "")
      else LastPrompt(own[..|own| - 1])
  }

  /** Turn `i` is that of the turn event at `at`. */
  ghost predicate IsTurnAt(t: Turn, own: seq<Event>, at: int, i: int) {
    && 0 <= at < |own| && own[at].kind.TurnCompleted? && |TurnEvents(own[..at])| == i
    && t.number == i + 1 && t.sequence == own[at].sequence && t.timestamp == own[at].timestamp
    && t.tokens == Reported(own[at]) && t.toolCalls == CallsOfTurn(own[..at])
    && t.prompt == if |LastPrompt(own[..at])| > 80 then LastPrompt(own[..at])[..80] else LastPrompt(own[..at])
  }

  /** It is the turn of the event that completed turn number `i`. */
  ghost predicate HasTurn(t: Turn, own: seq<Event>, i: int) {
    exists at :: IsTurnAt(t, own, at, i)
  }

  // ---------------------------------------------------------------------------
  // What is tracked
  // ---------------------------------------------------------------------------

  ghost predicate TellsTotals(s: Session, own: seq<Event>) {
    && s.totals.input == SumOf(own, (t: Tokens) => t.input)
    && s.totals.output == SumOf(own, (t: Tokens) => t.output)
    && s.totals.cacheRead == SumOf(own, (t: Tokens) => t.cacheRead)
    && s.totals.cacheWrite == SumOf(own, (t: Tokens) => t.cacheWrite)
  }

  ghost predicate TellsTurns(s: Session, own: seq<Event>) {
    && |s.turns| == |TurnEvents(own)|
    && (forall i :: 0 <= i < |s.turns| ==> HasTurn(s.turns[i], own, i))
    && s.currentTurnToolCalls == CallsOfTurn(own) && s.lastPrompt == LastPrompt(own)
  }

  ghost predicate TellsTools(s: Session, own: seq<Event>) {
    && s.toolCalls == Count(own, (x: Event) => x.kind.ToolCallCompleted?)
    && s.toolErrors == Count(own, (x: Event) => x.kind.ToolCallFailed?)
    && forall tool :: TellsTool(s, own, tool)
  }

  ghost predicate TellsTool(s: Session, own: seq<Event>, tool: string) {
    var calls, errors := Count(own, (x: Event) => CallsTool(x, tool)), Count(own, (x: Event) => FailsTool(x, tool));
    && (tool in s.byTool <==> calls + errors > 0)
    && (tool in s.byTool ==> s.byTool[tool] == ToolUse(calls, errors))
  }

  ghost predicate TellsOpening(s: Session, first: Event) {
    && s.projectId == first.projectId && s.sessionId == first.sessionId && s.startedAt == first.timestamp
    && s.agent == (if first.agent.Some? then first.agent.value else "unknown")
    && s.model == if first.kind.SessionStarted? && first.kind.model.Some? then first.kind.model.value
                  else if first.metadataModel.Some? then first.metadataModel.value else "unknown"
  }

  lemma OwnSnoc(events: seq<Event>, e: Event, k: string)
    ensures Own(events + [e], k) == if !Concerns(e, k) then Own(events, k)
                                    else if e.kind.SessionStarted? then [] else Own(events, k) + [e]
    ensures Opening(events + [e], k)
            == if Concerns(e, k) && (e.kind.SessionStarted? || Opening(events, k).None?) then Some(e)
               else Opening(events, k)
    ensures LastSequence(events + [e], k) == if Concerns(e, k) then e.sequence else LastSequence(events, k)
    ensures ProcessAll(events + [e]) == Process(ProcessAll(events), e)
  {
    assert (events + [e])[..|events|] == events;
    hide Process;
  }

  lemma NoneYet(s: Session)
    requires s.turns == [] && s.byTool == map[] && s.totals == NO_TOKENS && s.toolCalls == s.toolErrors == 0
    requires s.currentTurnToolCalls == 0 && s.lastPrompt == ""
    ensures TellsTotals(s, []) && TellsTurns(s, []) && TellsTools(s, [])
  {
  }

  lemma SumSnoc(own: seq<Event>, e: Event, part: Tokens -> int)
    ensures SumOf(own + [e], part) == SumOf(own, part) + part(Reported(e))
  {
    assert (own + [e])[..|own|] == own;
  }

  lemma CountSnoc(own: seq<Event>, e: Event, holds: Event -> bool)
    ensures Count(own + [e], holds) == Count(own, holds) + if holds(e) then 1 else 0
  {
    assert (own + [e])[..|own|] == own;
  }

  lemma TrackTotals(s: Session, own: seq<Event>, e: Event)
    requires TellsTotals(s, own) && !e.kind.SessionStarted?
    ensures TellsTotals(Track(s, e), own + [e])
  {
    SumSnoc(own, e, (t: Tokens) => t.input);
    SumSnoc(own, e, (t: Tokens) => t.output);
    SumSnoc(own, e, (t: Tokens) => t.cacheRead);
    SumSnoc(own, e, (t: Tokens) => t.cacheWrite);
    hide SumOf, Preview, UseOf;
  }

  lemma SmallSnoc(own: seq<Event>, e: Event)
    ensures TurnEvents(own + [e]) == TurnEvents(own) + if e.kind.TurnCompleted? then [e] else []
    ensures CallsOfTurn(own + [e]) == if e.kind.UserPromptReceived? || e.kind.TurnCompleted? then 0
                                      else CallsOfTurn(own) + if e.kind.ToolCallCompleted? then 1 else 0
    ensures LastPrompt(own + [e])
            == if e.kind.UserPromptReceived? then (if e.kind.prompt.Some? then e.kind.prompt.value else "")
               else LastPrompt(own)
  {
    assert (own + [e])[..|own|] == own;
  }

  lemma TurnStays(t: Turn, own: seq<Event>, e: Event, at: int, i: int)
    requires IsTurnAt(t, own, at, i)
    ensures IsTurnAt(t, own + [e], at, i)
  {
    assert (own + [e])[..at] == own[..at];
  }

  lemma TrackTurns(s: Session, own: seq<Event>, e: Event)
    requires TellsTurns(s, own) && !e.kind.SessionStarted?
    ensures TellsTurns(Track(s, e), own + [e])
  {
    var t, more := Track(s, e), own + [e];
    SmallSnoc(own, e);
    assert more[..|own|] == own;
    hide TurnEvents, CallsOfTurn, LastPrompt;
    forall i | 0 <= i < |t.turns| ensures HasTurn(t.turns[i], more, i) {
      if i < |s.turns| {
        assert t.turns[i] == s.turns[i] && HasTurn(s.turns[i], own, i);
        var at :| IsTurnAt(s.turns[i], own, at, i);
        TurnStays(s.turns[i], own, e, at, i);
      } else {
        assert IsTurnAt(t.turns[i], more, |own|, i);
      }
    }
  }

  lemma TrackTools(s: Session, own: seq<Event>, e: Event)
    requires TellsTools(s, own) && !e.kind.SessionStarted?
    ensures TellsTools(Track(s, e), own + [e])
  {
    CountSnoc(own, e, (x: Event) => x.kind.ToolCallCompleted?);
    CountSnoc(own, e, (x: Event) => x.kind.ToolCallFailed?);
    hide Count, TellsTool, Preview;
    forall tool ensures TellsTool(Track(s, e), own + [e], tool) {
      assert TellsTool(s, own, tool);
      TrackTool(s, own, e, tool);
    }
  }

  lemma TrackTool(s: Session, own: seq<Event>, e: Event, tool: string)
    requires TellsTool(s, own, tool) && !e.kind.SessionStarted?
    ensures TellsTool(Track(s, e), own + [e], tool)
  {
    CountSnoc(own, e, (x: Event) => CallsTool(x, tool));
    CountSnoc(own, e, (x: Event) => FailsTool(x, tool));
    hide Count, Preview;
  }

  ghost predicate Tells(s: Session, events: seq<Event>, k: string) {
    && TellsTotals(s, Own(events, k)) && TellsTurns(s, Own(events, k)) && TellsTools(s, Own(events, k))
    && Opening(events, k).Some? && TellsOpening(s, Opening(events, k).value)
    && s.lastSequence == LastSequence(events, k)
  }

  lemma TrackTells(s: Session, own: seq<Event>, first: Event, e: Event)
    requires TellsTotals(s, own) && TellsTurns(s, own) && TellsTools(s, own) && TellsOpening(s, first)
    requires !e.kind.Untracked?
    ensures var t, started := Track(s, e), e.kind.SessionStarted?;
            var more := if started then [] else own + [e];
              && TellsTotals(t, more) && TellsTurns(t, more) && TellsTools(t, more)
              && TellsOpening(t, if started then e else first) && t.lastSequence == e.sequence
  {
    hide TellsTotals, TellsTurns, TellsTools;
    if e.kind.SessionStarted? {
      NoneYet(Track(s, e));
    } else {
      TrackTotals(s, own, e);
      TrackTurns(s, own, e);
      TrackTools(s, own, e);
    }
  }

  lemma FirstTells(e: Event)
    requires !e.kind.Untracked?
    ensures var s := NewSession(e, if e.metadataModel.Some? then e.metadataModel.value else "unknown");
              && TellsTotals(s, []) && TellsTurns(s, []) && TellsTools(s, [])
              && (!e.kind.SessionStarted? ==> TellsOpening(s, e))
  {
    NoneYet(NewSession(e, if e.metadataModel.Some? then e.metadataModel.value else "unknown"));
    hide TellsTotals, TellsTurns, TellsTools;
  }

  lemma NothingOwn(events: seq<Event>, k: string)
    requires Opening(events, k).None?
    ensures Own(events, k) == []
  {
    if events != [] { NothingOwn(events[..|events| - 1], k); }
  }

  lemma OneMoreEvent(ss: Sessions, events: seq<Event>, e: Event, k: string)
    requires ss == ProcessAll(events)
    requires k in ss.byKey <==> Opening(events, k).Some?
    requires k in ss.byKey ==> Tells(ss.byKey[k], events, k)
    ensures k in Process(ss, e).byKey <==> Opening(events + [e], k).Some?
    ensures k in Process(ss, e).byKey ==> Tells(Process(ss, e).byKey[k], events + [e], k)
  {
    OwnSnoc(events, e, k);
    hide Own, Opening, LastSequence, ProcessAll, Track, TellsTotals, TellsTurns, TellsTools, TellsOpening, NewSession;
    if Concerns(e, k) {
      assert KeyOf(e) == k;
      if k in ss.byKey {
        TrackTells(ss.byKey[k], Own(events, k), Opening(events, k).value, e);
      } else {
        NothingOwn(events, k);
        assert [] + [e] == [e];
        FirstTracked(e);
      }
    } else {
      assert e.kind.Untracked? || KeyOf(e) != k;
    }
  }

  /** The first event of a session is tracked in a new one. */
  lemma FirstTracked(e: Event)
    requires !e.kind.Untracked?
    ensures var s := Track(NewSession(e, OrElse(e.metadataModel, "unknown")), e);
            var own := if e.kind.SessionStarted? then [] else [e];
              && TellsTotals(s, own) && TellsTurns(s, own) && TellsTools(s, own)
              && TellsOpening(s, e) && s.lastSequence == e.sequence
  {
    var s := NewSession(e, OrElse(e.metadataModel, "unknown"));
    FirstTells(e);
    hide TellsTotals, TellsTurns, TellsTools;
    if e.kind.SessionStarted? {
      NoneYet(Track(s, e));
    } else {
      TrackTells(s, [], e, e);
      assert [] + [e] == [e];
    }
  }

  /** For every stream of events and every key: there is a session exactly when an event concerns it, and all it says is
      what its own events say. Its totals are the sums of what the completed turns report, it has a turn for each of
      them with that report, the tool calls and the prompt of that turn, and it counts the completed and failed tool
      calls, of each tool and of all. */
  lemma {:induction false} SessionTellsItsEvents(events: seq<Event>, k: string)
    ensures k in ProcessAll(events).byKey <==> exists i :: 0 <= i < |events| && Concerns(events[i], k)
    ensures k in ProcessAll(events).byKey ==> Tells(ProcessAll(events).byKey[k], events, k)
  {
    SessionTells(events, k);
    OpenedExactly(events, k);
    hide Opening, Tells, ProcessAll;
  }

  lemma {:induction false} SessionTells(events: seq<Event>, k: string)
    ensures k in ProcessAll(events).byKey <==> Opening(events, k).Some?
    ensures k in ProcessAll(events).byKey ==> Tells(ProcessAll(events).byKey[k], events, k)
  {
    if events != [] {
      var front, e := events[..|events| - 1], events[|events| - 1];
      assert events == front + [e];
      hide Opening, Tells, Process;
      SessionTells(front, k);
      OneMoreEvent(ProcessAll(front), front, e, k);
    }
  }

  lemma {:induction false} OpenedExactly(events: seq<Event>, k: string)
    ensures Opening(events, k).Some? <==> exists i :: 0 <= i < |events| && Concerns(events[i], k)
  {
    hide Concerns;
    if events != [] {
      var front := events[..|events| - 1];
      OpenedExactly(front, k);
      forall i | 0 <= i < |front| ensures events[i] == front[i] {}
      if exists i :: 0 <= i < |front| && Concerns(front[i], k) {
        var i :| 0 <= i < |front| && Concerns(front[i], k);
        assert Concerns(events[i], k);
      }
    }
  }
}
