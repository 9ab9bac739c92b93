/** Token usage per session, and its daily and per-model views. Costs are exact. */
module UsageProjections {
  import opened Options
  import opened Sums

  datatype Tokens = Tokens(input: int, output: int, cacheRead: int, cacheWrite: int)

  const NO_TOKENS := Tokens(0, 0, 0, 0)

  function Plus(a: Tokens, b: Tokens): Tokens {
    Tokens(a.input + b.input, a.output + b.output, a.cacheRead + b.cacheRead, a.cacheWrite + b.cacheWrite)
  }

  function TotalTokens(t: Tokens): int {
    t.input + t.output + t.cacheRead + t.cacheWrite
  }

  // ---------------------------------------------------------------------------
  // Pricing, in dollars per million tokens
  // ---------------------------------------------------------------------------

  datatype Pricing = Pricing(input: real, output: real, cacheRead: real, cacheWrite: real)

  const OPUS := Pricing(15.0, 75.0, 1.5, 18.75)
  const SONNET := Pricing(3.0, 15.0, 0.3, 3.75)

  /** Unknown models are priced like the default one. */
  function PricingOf(model: string): Pricing {
    if model == "claude-opus-4-6" then OPUS else SONNET
  }

  function Cost(t: Tokens, model: string): real {
    var p := PricingOf(model);
    t.input as real * p.input / 1000000.0 + t.output as real * p.output / 1000000.0
    + t.cacheRead as real * p.cacheRead / 1000000.0 + t.cacheWrite as real * p.cacheWrite / 1000000.0
  }

  lemma CostAdds(a: Tokens, b: Tokens, model: string)
    ensures Cost(Plus(a, b), model) == Cost(a, model) + Cost(b, model)
  {
    var p := PricingOf(model);
    Distribute(a.input, b.input, p.input);
    Distribute(a.output, b.output, p.output);
    Distribute(a.cacheRead, b.cacheRead, p.cacheRead);
    Distribute(a.cacheWrite, b.cacheWrite, p.cacheWrite);
  }

  lemma Distribute(x: int, y: int, r: real)
    ensures (x + y) as real * r / 1000000.0 == x as real * r / 1000000.0 + y as real * r / 1000000.0
  {
    assert (x + y) as real * r == x as real * r + y as real * r;
  }

  /** What a million tokens of each kind cost. */
  lemma PricesPerMillion(model: string)
    ensures var opus, m := model == "claude-opus-4-6", 1000000;
              && Cost(Tokens(m, 0, 0, 0), model) == (if opus then 15.0 else 3.0)
              && Cost(Tokens(0, m, 0, 0), model) == (if opus then 75.0 else 15.0)
              && Cost(Tokens(0, 0, m, 0), model) == (if opus then 1.5 else 0.3)
              && Cost(Tokens(0, 0, 0, m), model) == (if opus then 18.75 else 3.75)
  {
  }

  // ---------------------------------------------------------------------------
  // Sessions
  // ---------------------------------------------------------------------------

  datatype Turn = Turn(number: nat, sequence: int, timestamp: string, tokens: Tokens, toolCalls: nat, prompt: string)

  datatype ToolUse = ToolUse(calls: nat, errors: nat)

  const NO_USE := ToolUse(0, 0)

  datatype Session = Session(projectId: string, sessionId: string, model: string, agent: string, startedAt: string,
                             turns: seq<Turn>, currentTurnToolCalls: nat, lastPrompt: string, totals: Tokens,
                             toolCalls: nat, toolErrors: nat, byTool: map<string, ToolUse>, lastSequence: int)

  datatype Kind =
    | SessionStarted(model: Option<string>)
    | UserPromptReceived(prompt: Option<string>)
    | ToolCallCompleted(tool: Option<string>)
    | ToolCallFailed(tool: Option<string>)
    | TurnCompleted(usage: Option<Tokens>)
    | Untracked

  datatype Event = Event(projectId: string, sessionId: string, sequence: int, timestamp: string,
                         agent: Option<string>, metadataModel: Option<string>, kind: Kind)

  function KeyFor(projectId: string, sessionId: string): string {
    projectId + ":" + sessionId
  }

  function KeyOf(e: Event): string {
    KeyFor(e.projectId, e.sessionId)
  }

  function NewSession(e: Event, model: string): Session {
    Session(e.projectId, e.sessionId, model, OrElse(e.agent, "unknown"), e.timestamp, [], 0, "", NO_TOKENS, 0, 0, map[],
            e.sequence)
  }

  function UseOf(byTool: map<string, ToolUse>, tool: string): ToolUse {
    if tool in byTool then byTool[tool] else NO_USE
  }

  function Preview(prompt: string): string {
    if |prompt| > 80 then prompt[..80] else prompt
  }

  /** One event's effect on its session. */
  function Track(s: Session, e: Event): Session {
    match e.kind
    case SessionStarted(model) => NewSession(e, OrElse(model, OrElse(e.metadataModel, "unknown")))
    case UserPromptReceived(prompt) =>
      s.(lastPrompt := OrElse(prompt, ""), currentTurnToolCalls := 0, lastSequence := e.sequence)
    case ToolCallCompleted(tool) =>
      var name := OrElse(tool, "unknown");
      var use := UseOf(s.byTool, name);
      s.(toolCalls := s.toolCalls + 1, currentTurnToolCalls := s.currentTurnToolCalls + 1,
         byTool := s.byTool[name := use.(calls := use.calls + 1)], lastSequence := e.sequence)
    case ToolCallFailed(tool) =>
      var name := OrElse(tool, "unknown");
      var use := UseOf(s.byTool, name);
      s.(toolErrors := s.toolErrors + 1, byTool := s.byTool[name := use.(errors := use.errors + 1)],
         lastSequence := e.sequence)
    case TurnCompleted(usage) =>
      var tokens := OrElse(usage, NO_TOKENS);
      s.(totals := Plus(s.totals, tokens),
         turns := s.turns + [Turn(|s.turns| + 1, e.sequence, e.timestamp, tokens, s.currentTurnToolCalls,
                                  Preview(s.lastPrompt))],
         currentTurnToolCalls := 0, lastSequence := e.sequence)
    case Untracked => s
  }

  /** The sessions by key, and the keys in order of first use. */
  datatype Sessions = Sessions(order: seq<string>, byKey: map<string, Session>)

  function Process(ss: Sessions, e: Event): Sessions {
    if e.kind.Untracked? then ss
    else
      var k := KeyOf(e);
      if k in ss.byKey then ss.(byKey := ss.byKey[k := Track(ss.byKey[k], e)])
      else Sessions(ss.order + [k], ss.byKey[k := Track(NewSession(e, OrElse(e.metadataModel, "unknown")), e)])
  }

  function ProcessAll(events: seq<Event>): Sessions {
    if events == [] then Sessions([], map[]) else Process(ProcessAll(events[..|events| - 1]), events[|events| - 1])
  }

  function SumTurns(turns: seq<Turn>): Tokens {
    if turns == [] then NO_TOKENS else Plus(SumTurns(turns[..|turns| - 1]), turns[|turns| - 1].tokens)
  }

  function SumToolCalls(turns: seq<Turn>): nat {
    if turns == [] then 0 else SumToolCalls(turns[..|turns| - 1]) + turns[|turns| - 1].toolCalls
  }

  function SumCosts(turns: seq<Turn>, model: string): real {
    if turns == [] then 0.0 else SumCosts(turns[..|turns| - 1], model) + Cost(turns[|turns| - 1].tokens, model)
  }

  const USES: Addition<ToolUse> :=
    Addition(NO_USE, (a: ToolUse, b: ToolUse) => ToolUse(a.calls + b.calls, a.errors + b.errors))

  lemma UsesAreLawful()
    ensures Lawful(USES)
  {
  }

  lemma OneMoreUse(byTool: map<string, ToolUse>, tool: string)
    ensures var use, sum := UseOf(byTool, tool), Sum(USES, byTool);
              && Sum(USES, byTool[tool := use.(calls := use.calls + 1)]) == sum.(calls := sum.calls + 1)
              && Sum(USES, byTool[tool := use.(errors := use.errors + 1)]) == sum.(errors := sum.errors + 1)
  {
    UsesAreLawful();
    hide Lawful, Sum;
    var use := UseOf(byTool, tool);
    SumUpdated(USES, byTool, tool, ToolUse(1, 0));
    SumUpdated(USES, byTool, tool, ToolUse(0, 1));
    assert use.(calls := use.calls + 1) == USES.plus(Get(USES, byTool, tool), ToolUse(1, 0));
    assert use.(errors := use.errors + 1) == USES.plus(Get(USES, byTool, tool), ToolUse(0, 1));
  }

  /** A session's totals are the sums of its turns and of its tools, and its turns claim no more
      tool calls than there were. */
  ghost predicate SessionOk(s: Session) {
    && s.totals == SumTurns(s.turns)
    && Sum(USES, s.byTool) == ToolUse(s.toolCalls, s.toolErrors)
    && SumToolCalls(s.turns) + s.currentTurnToolCalls <= s.toolCalls
    && forall i :: 0 <= i < |s.turns| ==> s.turns[i].number == i + 1
  }

  lemma NoUse()
    ensures Sum<string, ToolUse>(USES, map[]) == NO_USE
  {
  }

  lemma OneMoreTurn(turns: seq<Turn>, t: Turn)
    ensures SumTurns(turns + [t]) == Plus(SumTurns(turns), t.tokens)
    ensures SumToolCalls(turns + [t]) == SumToolCalls(turns) + t.toolCalls
  {
    assert (turns + [t])[..|turns|] == turns;
  }

  lemma TurnKeepsSession(s: Session, e: Event)
    requires SessionOk(s) && e.kind.TurnCompleted?
    ensures SessionOk(Track(s, e))
  {
    hide Sum, Preview, SumTurns, SumToolCalls, Plus;
    var after := Track(s, e);
    OneMoreTurn(s.turns, after.turns[|s.turns|]);
  }

  lemma ToolCallKeepsSession(s: Session, e: Event)
    requires SessionOk(s) && (e.kind.ToolCallCompleted? || e.kind.ToolCallFailed?)
    ensures SessionOk(Track(s, e))
  {
    hide Sum, SumTurns, SumToolCalls, UseOf;
    OneMoreUse(s.byTool, OrElse(e.kind.tool, "unknown"));
  }

  lemma RestKeepsSession(s: Session, e: Event)
    requires SessionOk(s) && (e.kind.SessionStarted? || e.kind.UserPromptReceived? || e.kind.Untracked?)
    ensures SessionOk(Track(s, e))
  {
    hide Sum;
    NoUse();
  }

  lemma TrackKeepsSession(s: Session, e: Event)
    requires SessionOk(s)
    ensures SessionOk(Track(s, e))
  {
    hide Track, SessionOk;
    if e.kind.TurnCompleted? {
      TurnKeepsSession(s, e);
    } else if e.kind.ToolCallCompleted? || e.kind.ToolCallFailed? {
      ToolCallKeepsSession(s, e);
    } else {
      RestKeepsSession(s, e);
    }
  }

  ghost predicate EntryOk(k: string, s: Session) {
    SessionOk(s) && k == KeyFor(s.projectId, s.sessionId)
  }

  /** Each key once, and each session under its own key. */
  ghost predicate SessionsOk(ss: Sessions) {
    && (forall i, j :: 0 <= i < j < |ss.order| ==> ss.order[i] != ss.order[j])
    && (forall k :: k in ss.order <==> k in ss.byKey)
    && (forall k :: k in ss.byKey ==> EntryOk(k, ss.byKey[k]))
  }

  lemma {:induction false} ProcessAllOk(events: seq<Event>)
    ensures SessionsOk(ProcessAll(events))
  {
    if events != [] {
      ProcessAllOk(events[..|events| - 1]);
      ProcessKeepsOk(ProcessAll(events[..|events| - 1]), events[|events| - 1]);
    }
  }

  lemma NewEntryOk(e: Event, model: string)
    ensures EntryOk(KeyOf(e), NewSession(e, model))
  {
  }

  lemma TrackKeepsEntry(s: Session, e: Event)
    requires EntryOk(KeyOf(e), s)
    ensures EntryOk(KeyOf(e), Track(s, e))
  {
    TrackKeepsSession(s, e);
    hide SessionOk;
  }

  lemma KnownKeepsOk(ss: Sessions, k: string, s: Session)
    requires SessionsOk(ss) && k in ss.byKey && EntryOk(k, s)
    ensures SessionsOk(ss.(byKey := ss.byKey[k := s]))
  {
    hide EntryOk;
  }

  lemma NewKeepsOk(ss: Sessions, k: string, s: Session)
    requires SessionsOk(ss) && k !in ss.byKey && EntryOk(k, s)
    ensures SessionsOk(Sessions(ss.order + [k], ss.byKey[k := s]))
  {
    hide EntryOk;
  }

  lemma ProcessKeepsOk(ss: Sessions, e: Event)
    requires SessionsOk(ss)
    ensures SessionsOk(Process(ss, e))
  {
    if !e.kind.Untracked? {
      var k := KeyOf(e);
      if k in ss.byKey {
        assert EntryOk(k, ss.byKey[k]);
        hide EntryOk, Track, NewSession, KeyOf, SessionsOk;
        TrackKeepsEntry(ss.byKey[k], e);
        KnownKeepsOk(ss, k, Track(ss.byKey[k], e));
      } else {
        hide EntryOk, Track, NewSession, KeyOf, SessionsOk;
        var first := NewSession(e, OrElse(e.metadataModel, "unknown"));
        NewEntryOk(e, OrElse(e.metadataModel, "unknown"));
        TrackKeepsEntry(first, e);
        NewKeepsOk(ss, k, Track(first, e));
      }
    }
  }

  /** In every reachable state, for every session. */
  lemma SessionTotalsAreSums(events: seq<Event>, k: string)
    requires k in ProcessAll(events).byKey
    ensures SessionOk(ProcessAll(events).byKey[k])
    ensures Cost(ProcessAll(events).byKey[k].totals, ProcessAll(events).byKey[k].model)
         == SumCosts(ProcessAll(events).byKey[k].turns, ProcessAll(events).byKey[k].model)
  {
    ProcessAllOk(events);
    var s := ProcessAll(events).byKey[k];
    assert EntryOk(k, s);
    CostOfTurns(s.turns, s.model);
  }

  lemma {:induction false} CostOfTurns(turns: seq<Turn>, model: string)
    ensures Cost(SumTurns(turns), model) == SumCosts(turns, model)
  {
    if turns != [] {
      CostOfTurns(turns[..|turns| - 1], model);
      CostAdds(SumTurns(turns[..|turns| - 1]), turns[|turns| - 1].tokens, model);
    }
  }
}
