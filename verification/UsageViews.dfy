/** The daily and per-model views of the usage projection, and why they agree. */
module UsageViews {
  import opened Options
  import opened Sorting
  import opened Sums
  import opened Texts
  import opened UsageProjections

  /** What a view accumulates. A share that the source does not keep stays at zero. */
  datatype Amount = Amount(sessions: int, turns: int, tokens: Tokens, total: int, cost: real)

  const NOTHING := Amount(0, 0, NO_TOKENS, 0, 0.0)

  function Add(a: Amount, b: Amount): Amount {
    Amount(a.sessions + b.sessions, a.turns + b.turns, Plus(a.tokens, b.tokens), a.total + b.total, a.cost + b.cost)
  }

  /** The first ten characters of the start time. */
  function DayOf(s: Session): string {
    if |s.startedAt| > 10 then s.startedAt[..10] else s.startedAt
  }

  datatype View = Daily | DailyModel | DailyAgent | ByModel

  /** What a session is grouped by. */
  function GroupOf(v: View, s: Session): string {
    match v
    case Daily => DayOf(s)
    case DailyModel => s.model
    case DailyAgent => s.agent
    case ByModel => s.model
  }

  /** What a session contributes to its group. */
  function ShareOf(v: View, s: Session): Amount {
    var t, cost := s.totals, Cost(s.totals, s.model);
    match v
    case Daily => Amount(1, |s.turns|, t, TotalTokens(t), cost)
    case DailyModel => Amount(1, 0, Tokens(t.input, t.output, 0, 0), 0, cost)
    case DailyAgent => Amount(1, 0, NO_TOKENS, TotalTokens(t), 0.0)
    case ByModel => Amount(1, 0, t, TotalTokens(t), cost)
  }

  const ADDITION := Addition(NOTHING, Add)

  lemma AdditionIsLawful()
    ensures Lawful(ADDITION)
  {
  }

  function By(v: View): Grouping<Session, string, Amount> {
    Grouping(ADDITION, s => GroupOf(v, s), s => ShareOf(v, s))
  }

  // ---------------------------------------------------------------------------
  // The daily view, with its breakdowns
  // ---------------------------------------------------------------------------

  /** A day: its amount, the ids of its sessions, and its shares by model and by agent. */
  datatype Day = Day(amount: Amount, ids: set<string>, byModel: map<string, Amount>, byAgent: map<string, Amount>)

  const NEW_DAY := Day(NOTHING, {}, map[], map[])

  function AddToDay(d: Day, s: Session): Day {
    var ids := d.ids + {s.sessionId};
    Day(Add(d.amount, ShareOf(Daily, s)).(sessions := |ids|), ids, AddShare(By(DailyModel), d.byModel, s),
        AddShare(By(DailyAgent), d.byAgent, s))
  }

  function Days(ss: seq<Session>): map<string, Day> {
    if ss == [] then map[]
    else
      var days, s := Days(ss[..|ss| - 1]), ss[|ss| - 1];
      days[DayOf(s) := AddToDay(if DayOf(s) in days then days[DayOf(s)] else NEW_DAY, s)]
  }

  function IdsOf(ss: seq<Session>): set<string> {
    set s | s in ss :: s.sessionId
  }

  ghost predicate DistinctIds(ss: seq<Session>) {
    forall i, j :: 0 <= i < j < |ss| ==> ss[i].sessionId != ss[j].sessionId
  }

  /** The day its sessions call for. */
  function DayFor(ss: seq<Session>): Day {
    Day(Total(By(Daily), ss), IdsOf(ss), Grouped(By(DailyModel), ss), Grouped(By(DailyAgent), ss))
  }

  lemma {:induction false} ThoseFacts(v: View, ss: seq<Session>, k: string)
    ensures forall s :: s in Those(By(v), ss, k) ==> s in ss && GroupOf(v, s) == k
    ensures DistinctIds(ss) ==> DistinctIds(Those(By(v), ss, k))
  {
    if ss != [] {
      var front, s := ss[..|ss| - 1], ss[|ss| - 1];
      assert ss == front + [s];
      ThoseFacts(v, front, k);
      hide Those, GroupOf;
      ThoseSnoc(By(v), front, s, k);
      if DistinctIds(ss) && GroupOf(v, s) == k {
        forall x | x in Those(By(v), front, k) ensures x.sessionId != s.sessionId {
          var i :| 0 <= i < |front| && front[i] == x;
          assert ss[i].sessionId != ss[|front|].sessionId;
        }
      }
    }
  }

  lemma IdsSnoc(ss: seq<Session>, s: Session)
    ensures IdsOf(ss + [s]) == IdsOf(ss) + {s.sessionId}
  {
  }

  lemma AddToDayFor(ss: seq<Session>, s: Session)
    requires s.sessionId !in IdsOf(ss) && |IdsOf(ss)| == Total(By(Daily), ss).sessions
    ensures AddToDay(DayFor(ss), s) == DayFor(ss + [s])
  {
    hide Total, Grouped, AddShare, IdsOf;
    TotalSnoc(By(Daily), ss, s);
    GroupedSnoc(By(DailyModel), ss, s);
    GroupedSnoc(By(DailyAgent), ss, s);
    IdsSnoc(ss, s);
  }

  lemma {:induction false} DistinctIdsCount(ss: seq<Session>)
    requires DistinctIds(ss)
    ensures |IdsOf(ss)| == Total(By(Daily), ss).sessions == |ss|
  {
    if ss != [] {
      var front, s := ss[..|ss| - 1], ss[|ss| - 1];
      assert ss == front + [s];
      DistinctIdsCount(front);
      assert IdsOf(ss) == IdsOf(front) + {s.sessionId};
      assert s.sessionId !in IdsOf(front);
      hide IdsOf, DistinctIds;
    }
  }

  lemma DaysSnoc(ss: seq<Session>, s: Session)
    ensures Days(ss + [s])
            == Days(ss)[DayOf(s) := AddToDay(if DayOf(s) in Days(ss) then Days(ss)[DayOf(s)] else NEW_DAY, s)]
  {
    hide AddToDay;
    assert (ss + [s])[..|ss|] == ss;
  }

  lemma LastIsNew(front: seq<Session>, s: Session)
    requires DistinctIds(front + [s])
    ensures DistinctIds(front) && s.sessionId !in IdsOf(front)
  {
    var all := front + [s];
    assert all[|front|] == s && forall i :: 0 <= i < |front| ==> all[i] == front[i];
  }

  lemma DayOfOneMore(front: seq<Session>, s: Session, day: string)
    requires DistinctIds(front + [s])
    ensures AddToDay(DayFor(Those(By(Daily), front, day)), s) == DayFor(Those(By(Daily), front, day) + [s])
  {
    var those := Those(By(Daily), front, day);
    LastIsNew(front, s);
    ThoseFacts(Daily, front, day);
    assert s.sessionId !in IdsOf(those);
    hide Those, AddToDay, DayFor;
    DistinctIdsCount(those);
    AddToDayFor(those, s);
  }

  /** Each day of the view is the day its own sessions call for. */
  lemma {:induction false} DaysAreExact(ss: seq<Session>, day: string)
    requires DistinctIds(ss)
    ensures day in Days(ss) <==> Those(By(Daily), ss, day) != []
    ensures day in Days(ss) ==> Days(ss)[day] == DayFor(Those(By(Daily), ss, day))
  {
    if ss != [] {
      var front, s := ss[..|ss| - 1], ss[|ss| - 1];
      assert ss == front + [s];
      LastIsNew(front, s);
      EmptyDay();
      hide DayFor, AddToDay, Those, DistinctIds;
      DaysAreExact(front, day);
      DayOfOneMore(front, s, day);
      hide Days;
      DaysSnoc(front, s);
      ThoseSnoc(By(Daily), front, s, day);
    }
  }

  lemma EmptyDay()
    ensures DayFor([]) == NEW_DAY
  {
  }

  /** Within a day, the session count is the sum of the counts by model and of those by agent. */
  lemma DayCountsAgree(ss: seq<Session>, day: string)
    requires DistinctIds(ss) && day in Days(ss)
    ensures CountsAgree(Days(ss)[day])
  {
    DaysAreExact(ss, day);
    var those := Those(By(Daily), ss, day);
    ThoseFacts(Daily, ss, day);
    hide Days, DistinctIds;
    DayForAgrees(those);
  }

  ghost predicate CountsAgree(d: Day) {
    var models, agents := Sum(ADDITION, d.byModel), Sum(ADDITION, d.byAgent);
    && d.amount.sessions == |d.ids| == models.sessions == agents.sessions
    && d.amount.total == agents.total && d.amount.cost == models.cost
    && d.amount.tokens.input == models.tokens.input && d.amount.tokens.output == models.tokens.output
  }

  lemma DayForAgrees(ss: seq<Session>)
    requires DistinctIds(ss)
    ensures CountsAgree(DayFor(ss))
  {
    DistinctIdsCount(ss);
    AdditionIsLawful();
    SharesAgree(ss);
    hide Lawful, Total, Grouped, Sum, DistinctIds, IdsOf;
    GroupsSumToTotal(By(DailyModel), ss);
    GroupsSumToTotal(By(DailyAgent), ss);
  }

  /** The views weigh a session alike in whatever they both keep. */
  lemma {:induction false} SharesAgree(ss: seq<Session>)
    ensures var d, m := Total(By(Daily), ss), Total(By(DailyModel), ss);
            var a, all := Total(By(DailyAgent), ss), Total(By(ByModel), ss);
            && d.sessions == m.sessions == a.sessions == all.sessions
            && d.tokens.input == m.tokens.input && d.tokens.output == m.tokens.output && d.tokens == all.tokens
            && d.total == a.total == all.total == TotalTokens(d.tokens)
            && d.cost == m.cost == all.cost
  {
    if ss != [] { SharesAgree(ss[..|ss| - 1]); }
  }

  function Amounts(days: map<string, Day>): map<string, Amount> {
    map k | k in days :: days[k].amount
  }

  lemma DayAmountsAreGroups(ss: seq<Session>)
    requires DistinctIds(ss)
    ensures Amounts(Days(ss)) == Grouped(By(Daily), ss)
  {
    forall k ensures k in Days(ss) <==> k in Grouped(By(Daily), ss)
      ensures k in Days(ss) ==> Days(ss)[k].amount == Grouped(By(Daily), ss)[k]
    {
      DaysAreExact(ss, k);
      GroupIsTotalOfThose(By(Daily), ss, k);
    }
  }

  /** Over days, over models and over sessions, token and cost sums coincide. */
  lemma ViewsAgree(ss: seq<Session>)
    requires DistinctIds(ss)
    ensures var days, models := Sum(ADDITION, Amounts(Days(ss))), Sum(ADDITION, Grouped(By(ByModel), ss));
            var sessions := Total(By(Daily), ss);
            && days == sessions
            && models.tokens == sessions.tokens && models.total == sessions.total && models.cost == sessions.cost
            && models.sessions == sessions.sessions == |ss|
  {
    AdditionIsLawful();
    hide Total, Grouped, Sum, Days, Amounts, Lawful, DistinctIds, IdsOf;
    DayAmountsAreGroups(ss);
    GroupsSumToTotal(By(Daily), ss);
    GroupsSumToTotal(By(ByModel), ss);
    SharesAgree(ss);
    DistinctIdsCount(ss);
  }

  // ---------------------------------------------------------------------------
  // The projection
  // ---------------------------------------------------------------------------

  /** The sessions of one project, in the order they came up. */
  function OfProject(ss: Sessions, order: seq<string>, projectId: string): seq<Session>
    requires forall k :: k in order ==> k in ss.byKey
  {
    if order == [] then []
    else
      var s := ss.byKey[order[|order| - 1]];
      OfProject(ss, order[..|order| - 1], projectId) + if s.projectId == projectId then [s] else []
  }

  lemma OfProjectSnoc(ss: Sessions, order: seq<string>, n: nat, projectId: string)
    requires n < |order| && forall k :: k in order ==> k in ss.byKey
    ensures var s := ss.byKey[order[n]];
              OfProject(ss, order[..n + 1], projectId)
              == if s.projectId == projectId then OfProject(ss, order[..n], projectId) + [s]
                 else OfProject(ss, order[..n], projectId)
  {
    assert order[..n + 1][..n] == order[..n];
  }

  lemma {:induction false} OfProjectFacts(ss: Sessions, order: seq<string>, projectId: string)
    requires SessionsOk(ss) && forall k :: k in order ==> k in ss.byKey
    requires forall i, j :: 0 <= i < j < |order| ==> order[i] != order[j]
    ensures forall s :: s in OfProject(ss, order, projectId) ==>
              s.projectId == projectId && KeyFor(projectId, s.sessionId) in order
    ensures DistinctIds(OfProject(ss, order, projectId))
  {
    if order != [] {
      var front, k := order[..|order| - 1], order[|order| - 1];
      assert order == front + [k];
      OfProjectFacts(ss, front, projectId);
      OfProjectSnoc(ss, order, |front|, projectId);
      assert order[..|front| + 1] == order && order[..|front|] == front;
      assert EntryOk(k, ss.byKey[k]);
      hide SessionsOk, EntryOk, OfProject, KeyFor, DistinctIds;
      if ss.byKey[k].projectId == projectId {
        assert k !in front;
        LastIsDistinct(OfProject(ss, front, projectId), ss.byKey[k], projectId, front);
      }
    }
  }

  lemma LastIsDistinct(front: seq<Session>, s: Session, projectId: string, keys: seq<string>)
    requires DistinctIds(front) && KeyFor(projectId, s.sessionId) !in keys
    requires forall t :: t in front ==> KeyFor(projectId, t.sessionId) in keys
    ensures DistinctIds(front + [s])
  {
  }

  /** A model's entry: its amount and when it was first and last used. */
  datatype ModelEntry = ModelEntry(amount: Amount, firstUsed: string, lastUsed: string)

  function AddToModel(m: map<string, ModelEntry>, s: Session): map<string, ModelEntry> {
    var e := if s.model in m then m[s.model] else ModelEntry(NOTHING, s.startedAt, s.startedAt);
    m[s.model := ModelEntry(Add(e.amount, ShareOf(ByModel, s)),
                            if Less(s.startedAt, e.firstUsed) then s.startedAt else e.firstUsed,
                            if Less(e.lastUsed, s.startedAt) then s.startedAt else e.lastUsed)]
  }

  function Models(ss: seq<Session>): map<string, ModelEntry> {
    if ss == [] then map[] else AddToModel(Models(ss[..|ss| - 1]), ss[|ss| - 1])
  }

  ghost predicate UsedBetween(ss: seq<Session>, model: string, first: string, last: string) {
    && (forall s :: s in ss && s.model == model ==> Leq(first, s.startedAt) && Leq(s.startedAt, last))
    && (exists s :: s in ss && s.model == model && s.startedAt == first)
    && (exists s :: s in ss && s.model == model && s.startedAt == last)
  }

  lemma UsedBetweenSnoc(ss: seq<Session>, s: Session, first: string, last: string)
    requires UsedBetween(ss, s.model, first, last)
    ensures UsedBetween(ss + [s], s.model, if Less(s.startedAt, first) then s.startedAt else first,
                        if Less(last, s.startedAt) then s.startedAt else last)
  {
    LeqOrders();
    assert s in ss + [s] && forall t :: t in ss ==> t in ss + [s];
  }

  lemma UsedBetweenOther(ss: seq<Session>, s: Session, model: string, first: string, last: string)
    requires UsedBetween(ss, model, first, last) && s.model != model
    ensures UsedBetween(ss + [s], model, first, last)
  {
    assert forall t :: t in ss ==> t in ss + [s];
  }

  lemma UsedOnce(ss: seq<Session>, s: Session)
    requires forall t :: t in ss ==> t.model != s.model
    ensures UsedBetween(ss + [s], s.model, s.startedAt, s.startedAt)
  {
    LeqOrders();
    assert s in ss + [s];
  }

  /** Each model's entry is its group's total and the range of its start times. */
  lemma {:induction false} ModelsAreExact(ss: seq<Session>, model: string)
    ensures model in Models(ss) <==> model in Grouped(By(ByModel), ss)
    ensures model in Models(ss) <==> exists s :: s in ss && s.model == model
    ensures model in Models(ss) ==>
              && Models(ss)[model].amount == Grouped(By(ByModel), ss)[model]
              && UsedBetween(ss, model, Models(ss)[model].firstUsed, Models(ss)[model].lastUsed)
  {
    if ss != [] {
      var front, s := ss[..|ss| - 1], ss[|ss| - 1];
      assert ss == front + [s];
      ModelsAreExact(front, model);
      assert s in ss;
      hide UsedBetween, Add, ShareOf;
      if s.model != model {
        if model in Models(front) {
          UsedBetweenOther(front, s, model, Models(front)[model].firstUsed, Models(front)[model].lastUsed);
        }
      } else if model in Models(front) {
        UsedBetweenSnoc(front, s, Models(front)[model].firstUsed, Models(front)[model].lastUsed);
      } else {
        UsedOnce(front, s);
      }
    }
  }

  class UsageProjection {
    var order: seq<string>
    var byKey: map<string, Session>
    ghost var events: seq<Event>

    ghost predicate Valid()
      reads this
    {
      Sessions(order, byKey) == ProcessAll(events)
    }

    constructor ()
      ensures Valid() && events == []
    {
      order, byKey, events := [], map[], [];
    }

    method ProcessEvent(e: Event)
      requires Valid()
      modifies this
      ensures Valid() && events == old(events) + [e]
    {
      ghost var before := Sessions(order, byKey);
      var key := KeyOf(e);
      if !e.kind.Untracked? {
        if key !in byKey {
          order := order + [key];
          byKey := byKey[key := NewSession(e, OrElse(e.metadataModel, "unknown"))];
        }
        byKey := byKey[key := Track(byKey[key], e)];
      }
      assert Sessions(order, byKey) == Process(before, e);
      events := events + [e];
      assert events[..|events| - 1] == old(events);
    }

    /** The sessions that the views of a project run over. */
    ghost function SessionsOf(projectId: string): seq<Session>
      requires Valid()
      reads this
    {
      ProcessAllOk(events);
      OfProject(Sessions(order, byKey), order, projectId)
    }

    /** The days in order of date, and their totals. */
    method GetDailyUsage(projectId: string) returns (dates: seq<string>, days: map<string, Day>, totals: Amount)
      requires Valid()
      ensures days == Days(SessionsOf(projectId))
      ensures Ordered(Leq, dates) && (forall d :: d in dates <==> d in days)
      ensures forall i, j :: 0 <= i < j < |dates| ==> dates[i] != dates[j]
      ensures totals == Sum(ADDITION, Amounts(days))
    {
      ghost var ss := Sessions(order, byKey);
      ProcessAllOk(events);
      days := map[];
      for n := 0 to |order|
        invariant forall k :: k in order ==> k in byKey
        invariant days == Days(OfProject(ss, order[..n], projectId))
      {
        var s := byKey[order[n]];
        OfProjectSnoc(ss, order, n, projectId);
        if s.projectId != projectId {
          continue;
        }
        DaysSnoc(OfProject(ss, order[..n], projectId), s);
        var day := if DayOf(s) in days then days[DayOf(s)] else NEW_DAY;
        days := days[DayOf(s) := AddToDay(day, s)];
      }
      assert order[..|order|] == order;
      dates := InOrder(days.Keys);
      totals := SumDays(dates, days);
    }

    method GetUsageByModel(projectId: string) returns (models: map<string, ModelEntry>)
      requires Valid()
      ensures models == Models(SessionsOf(projectId))
    {
      ghost var ss := Sessions(order, byKey);
      ProcessAllOk(events);
      models := map[];
      assert forall k :: k in order ==> k in byKey;
      assert order[..0] == [] && OfProject(ss, [], projectId) == [] && Models([]) == map[];
      hide ProcessAll, AddToModel, SessionsOk, EntryOk, OfProject, Models;
      for n := 0 to |order|
        invariant forall k :: k in order ==> k in byKey
        invariant models == Models(OfProject(ss, order[..n], projectId))
      {
        var s := byKey[order[n]];
        OfProjectSnoc(ss, order, n, projectId);
        if s.projectId == projectId {
          ModelsSnoc(OfProject(ss, order[..n], projectId), s);
          models := AddToModel(models, s);
        }
      }
      assert order[..|order|] == order;
    }
  }

  lemma ModelsSnoc(ss: seq<Session>, s: Session)
    ensures Models(ss + [s]) == AddToModel(Models(ss), s)
  {
    assert (ss + [s])[..|ss|] == ss;
  }

  /** The totals loop over the sorted days. */
  method SumDays(dates: seq<string>, days: map<string, Day>) returns (totals: Amount)
    requires forall d :: d in dates <==> d in days
    requires forall i, j :: 0 <= i < j < |dates| ==> dates[i] != dates[j]
    ensures totals == Sum(ADDITION, Amounts(days))
  {
    totals := NOTHING;
    for n := 0 to |dates|
      invariant totals == SumList(ADDITION, dates[..n], Amounts(days))
    {
      assert dates[..n + 1][..n] == dates[..n];
      totals := Add(totals, days[dates[n]].amount);
    }
    assert dates[..|dates|] == dates;
    AdditionIsLawful();
    SumListIsSum(ADDITION, dates, Amounts(days));
  }

  /** In every reachable state of the projection, for every project: the views agree. */
  lemma ProjectViewsAgree(p: UsageProjection, projectId: string)
    requires p.Valid()
    ensures var ss := p.SessionsOf(projectId);
              && Sum(ADDITION, Amounts(Days(ss))) == Total(By(Daily), ss)
              && Sum(ADDITION, Grouped(By(ByModel), ss)).tokens == Total(By(Daily), ss).tokens
              && Sum(ADDITION, Grouped(By(ByModel), ss)).total == Total(By(Daily), ss).total
              && Sum(ADDITION, Grouped(By(ByModel), ss)).cost == Total(By(Daily), ss).cost
              && Sum(ADDITION, Grouped(By(ByModel), ss)).sessions == Total(By(Daily), ss).sessions == |ss|
              && forall day :: day in Days(ss) ==> CountsAgree(Days(ss)[day])
  {
    ProcessAllOk(p.events);
    OfProjectFacts(ProcessAll(p.events), p.order, projectId);
    var ss := p.SessionsOf(projectId);
    ViewsAgree(ss);
    forall day | day in Days(ss)
      ensures CountsAgree(Days(ss)[day])
    {
      DayCountsAgree(ss, day);
    }
  }
}
