/** What the daily and the per-model views are, told from the sessions alone. */
module UsageDays {
  import opened Sums
  import opened UsageProjections
  import opened UsageViews

  // ---------------------------------------------------------------------------
  // Sums over sessions
  // ---------------------------------------------------------------------------

  function One(s: Session): int { 1 }

  function Turns(s: Session): int { |s.turns| }

  function Input(s: Session): int { s.totals.input }

  function Output(s: Session): int { s.totals.output }

  function CacheRead(s: Session): int { s.totals.cacheRead }

  function CacheWrite(s: Session): int { s.totals.cacheWrite }

  function All(s: Session): int { Input(s) + Output(s) + CacheRead(s) + CacheWrite(s) }

  function CostWhere(ss: seq<Session>, of: Session -> bool): real {
    if ss == [] then 0.0
    else
      var s := ss[|ss| - 1];
      CostWhere(ss[..|ss| - 1], of) + if of(s) then Cost(s.totals, s.model) else 0.0
  }

  lemma CostWhereSnoc(ss: seq<Session>, s: Session, of: Session -> bool)
    ensures CostWhere(ss + [s], of) == CostWhere(ss, of) + if of(s) then Cost(s.totals, s.model) else 0.0
  {
    assert (ss + [s])[..|ss|] == ss;
  }

  function OnDay(day: string): Session -> bool {
    (s: Session) => if |s.startedAt| <= 10 then s.startedAt == day else s.startedAt[..10] == day
  }

  function OfModel(model: string): Session -> bool {
    (s: Session) => s.model == model
  }

  function OfAgent(agent: string): Session -> bool {
    (s: Session) => s.agent == agent
  }

  function Both(of: Session -> bool, and: Session -> bool): Session -> bool {
    (s: Session) => of(s) && and(s)
  }

  function Where(v: View, k: string): Session -> bool {
    match v
    case Daily => OnDay(k)
    case DailyModel => OfModel(k)
    case DailyAgent => OfAgent(k)
    case ByModel => OfModel(k)
  }

  ghost predicate TellsSessions(a: Amount, ss: seq<Session>, of: Session -> bool) {
    a.sessions == SumWhere(ss, of, One)
  }

  ghost predicate TellsUse(a: Amount, ss: seq<Session>, of: Session -> bool) {
    && a.tokens.input == SumWhere(ss, of, Input) && a.tokens.output == SumWhere(ss, of, Output)
    && a.cost == CostWhere(ss, of)
  }

  ghost predicate TellsCache(a: Amount, ss: seq<Session>, of: Session -> bool) {
    && a.tokens.cacheRead == SumWhere(ss, of, CacheRead)
    && a.tokens.cacheWrite == SumWhere(ss, of, CacheWrite)
  }

  ghost predicate TellsTotal(a: Amount, ss: seq<Session>, of: Session -> bool) {
    a.total == SumWhere(ss, of, All)
  }

  ghost predicate TellsTurns(a: Amount, ss: seq<Session>, of: Session -> bool) {
    a.turns == SumWhere(ss, of, Turns)
  }

  /** What each view keeps of its sessions. */
  ghost predicate Tells(v: View, a: Amount, ss: seq<Session>, of: Session -> bool) {
    && TellsSessions(a, ss, of)
    && (!v.DailyAgent? ==> TellsUse(a, ss, of))
    && (v.Daily? || v.ByModel? ==> TellsCache(a, ss, of))
    && (!v.DailyModel? ==> TellsTotal(a, ss, of))
    && (v.Daily? ==> TellsTurns(a, ss, of))
  }

  lemma TellsNothing(v: View, of: Session -> bool)
    ensures Tells(v, NOTHING, [], of)
  {
  }

  lemma TellsSnoc(v: View, a: Amount, ss: seq<Session>, s: Session, of: Session -> bool)
    requires Tells(v, a, ss, of)
    ensures Tells(v, if of(s) then Add(a, ShareOf(v, s)) else a, ss + [s], of)
  {
    SumWhereSnoc(ss, s, of, One);
    SumWhereSnoc(ss, s, of, Turns);
    SumWhereSnoc(ss, s, of, Input);
    SumWhereSnoc(ss, s, of, Output);
    SumWhereSnoc(ss, s, of, CacheRead);
    SumWhereSnoc(ss, s, of, CacheWrite);
    SumWhereSnoc(ss, s, of, All);
    CostWhereSnoc(ss, s, of);
    hide SumWhere, CostWhere, Cost;
  }

  lemma WhereIsGroup(v: View, k: string, s: Session)
    ensures Where(v, k)(s) <==> GroupOf(v, s) == k
  {
  }

  /** A view's groups are those of its sessions, each with the sums over its own. */
  lemma {:induction false} GroupTells(v: View, ss: seq<Session>, k: string)
    ensures k in Grouped(By(v), ss) <==> exists s :: s in ss && Where(v, k)(s)
    ensures Tells(v, Get(ADDITION, Grouped(By(v), ss), k), ss, Where(v, k))
  {
    if ss == [] {
      TellsNothing(v, Where(v, k));
    } else {
      var front, s := ss[..|ss| - 1], ss[|ss| - 1];
      assert ss == front + [s];
      GroupTells(v, front, k);
      WhereIsGroup(v, k, s);
      GroupedSnoc(By(v), front, s);
      TellsSnoc(v, Get(ADDITION, Grouped(By(v), front), k), front, s, Where(v, k));
      hide Grouped, Tells, GroupOf, ShareOf, Add, Where;
    }
  }

  // ---------------------------------------------------------------------------
  // Days and models
  // ---------------------------------------------------------------------------

  lemma {:induction false} SumWhereOfThose(ss: seq<Session>, day: string, of: Session -> bool, part: Session -> int)
    ensures SumWhere(Those(By(Daily), ss, day), of, part) == SumWhere(ss, Both(OnDay(day), of), part)
  {
    hide *;
    if ss == [] {
      NoneOfThose(day, of, part);
    } else {
      var front, s := ss[..|ss| - 1], ss[|ss| - 1];
      assert ss == front + [s];
      SumWhereOfThose(front, day, of, part);
      SumWhereSnoc(front, s, Both(OnDay(day), of), part);
      SumWhereSnoc(Those(By(Daily), front, day), s, of, part);
      ThoseSnoc(By(Daily), front, s, day);
      DayAndMore(day, of, s);
    }
  }

  lemma NoneOfThose(day: string, of: Session -> bool, part: Session -> int)
    ensures SumWhere(Those(By(Daily), [], day), of, part) == 0 == SumWhere([], Both(OnDay(day), of), part)
  {
  }

  lemma {:induction false} CostWhereOfThose(ss: seq<Session>, day: string, of: Session -> bool)
    ensures CostWhere(Those(By(Daily), ss, day), of) == CostWhere(ss, Both(OnDay(day), of))
  {
    hide *;
    if ss == [] {
      NoCostOfThose(day, of);
    } else {
      var front, s := ss[..|ss| - 1], ss[|ss| - 1];
      assert ss == front + [s];
      CostWhereOfThose(front, day, of);
      CostWhereSnoc(front, s, Both(OnDay(day), of));
      CostWhereSnoc(Those(By(Daily), front, day), s, of);
      ThoseSnoc(By(Daily), front, s, day);
      DayAndMore(day, of, s);
    }
  }

  lemma NoCostOfThose(day: string, of: Session -> bool)
    ensures CostWhere(Those(By(Daily), [], day), of) == 0.0 == CostWhere([], Both(OnDay(day), of))
  {
  }

  lemma DayAndMore(day: string, of: Session -> bool, s: Session)
    ensures Both(OnDay(day), of)(s) <==> By(Daily).key(s) == day && of(s)
  {
  }

  lemma TellsOfThose(v: View, a: Amount, ss: seq<Session>, day: string, of: Session -> bool)
    requires Tells(v, a, Those(By(Daily), ss, day), of)
    ensures Tells(v, a, ss, Both(OnDay(day), of))
  {
    hide Those, SumWhere, CostWhere, OnDay;
    SumWhereOfThose(ss, day, of, One);
    SumWhereOfThose(ss, day, of, Turns);
    SumWhereOfThose(ss, day, of, Input);
    SumWhereOfThose(ss, day, of, Output);
    SumWhereOfThose(ss, day, of, CacheRead);
    SumWhereOfThose(ss, day, of, CacheWrite);
    SumWhereOfThose(ss, day, of, All);
    CostWhereOfThose(ss, day, of);
  }

  /** The days are those on which a session starts, each with the ids of its sessions and the sums over them. */
  lemma DayTellsSessions(ss: seq<Session>, day: string)
    requires DistinctIds(ss)
    ensures day in Days(ss) <==> exists s :: s in ss && OnDay(day)(s)
    ensures day in Days(ss) ==>
              && Tells(Daily, Days(ss)[day].amount, ss, OnDay(day))
              && Days(ss)[day].ids == set s | s in ss && OnDay(day)(s) :: s.sessionId
  {
    GroupTells(Daily, ss, day);
    DayAmountsAreGroups(ss);
    DaysAreExact(ss, day);
    hide Days, Grouped, Those, Tells, DistinctIds;
    assert day in Days(ss) <==> day in Amounts(Days(ss));
    forall s ensures s in Those(By(Daily), ss, day) <==> s in ss && OnDay(day)(s) {
      ThoseMembers(By(Daily), ss, day, s);
      WhereIsGroup(Daily, day, s);
    }
  }

  /** So are a day's shares by model and by agent. */
  lemma DayPartsTellSessions(ss: seq<Session>, day: string, v: View, k: string)
    requires DistinctIds(ss) && day in Days(ss) && (v.DailyModel? || v.DailyAgent?)
    ensures var parts := if v.DailyModel? then Days(ss)[day].byModel else Days(ss)[day].byAgent;
              && (k in parts <==> exists s :: s in ss && OnDay(day)(s) && Where(v, k)(s))
              && Tells(v, Get(ADDITION, parts, k), ss, Both(OnDay(day), Where(v, k)))
  {
    DaysAreExact(ss, day);
    var those := Those(By(Daily), ss, day);
    GroupTells(v, those, k);
    hide Days, Grouped, Those, Tells, DistinctIds, Where, OnDay;
    TellsOfThose(v, Get(ADDITION, Grouped(By(v), those), k), ss, day, Where(v, k));
    forall s ensures s in those <==> s in ss && OnDay(day)(s) {
      ThoseMembers(By(Daily), ss, day, s);
      WhereIsGroup(Daily, day, s);
    }
  }

  /** And the entries by model. */
  lemma ModelsTellSessions(ss: seq<Session>, model: string)
    ensures model in Models(ss) <==> exists s :: s in ss && s.model == model
    ensures model in Models(ss) ==> Tells(ByModel, Models(ss)[model].amount, ss, OfModel(model))
  {
    GroupTells(ByModel, ss, model);
    ModelsAreExact(ss, model);
    hide Models, Grouped, Tells, UsedBetween;
    assert forall s :: s in ss ==> (Where(ByModel, model)(s) <==> s.model == model);
  }

  /** A project's sessions are those tracked with its id. */
  lemma {:induction false} OfProjectMembers(ss: Sessions, order: seq<string>, projectId: string, s: Session)
    requires forall k :: k in order ==> k in ss.byKey
    ensures s in OfProject(ss, order, projectId)
            <==> s.projectId == projectId && exists k :: k in order && ss.byKey[k] == s
  {
    if order != [] {
      var front, k := order[..|order| - 1], order[|order| - 1];
      assert order == front + [k];
      OfProjectMembers(ss, front, projectId, s);
    }
  }
}
