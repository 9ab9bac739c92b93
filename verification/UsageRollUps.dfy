/** The totals of a project's usage: over sessions, by model, by day and by month. */
module UsageRollUps {
  import opened ProjectUsage
  import opened Sorting
  import opened Sums
  import opened Texts
  import opened UsageFiles

  const BY_MODEL: Grouping<Usage, string, Counts> :=
    Grouping(COUNTS, (u: Usage) => OrUnknown(u.model), (u: Usage) => u.counts)

  const BY_MONTH: Grouping<(string, Counts), string, Counts> :=
    Grouping(COUNTS, (d: (string, Counts)) => if |d.0| > 7 then d.0[..7] else d.0, (d: (string, Counts)) => d.1)

  ghost predicate Lists<T>(keys: seq<string>, m: map<string, T>) {
    && (forall k :: k in keys <==> k in m)
    && (forall i, j :: 0 <= i < j < |keys| ==> keys[i] != keys[j])
  }

  function Listed(keys: seq<string>, m: map<string, Usage>): seq<Usage>
    requires forall k :: k in keys ==> k in m
  {
    if keys == [] then [] else Listed(keys[..|keys| - 1], m) + [m[keys[|keys| - 1]]]
  }

  function Dates(keys: seq<string>, m: map<string, Counts>): seq<(string, Counts)>
    requires forall k :: k in keys ==> k in m
  {
    if keys == [] then [] else Dates(keys[..|keys| - 1], m) + [(keys[|keys| - 1], m[keys[|keys| - 1]])]
  }

  function RecentOf(us: seq<Usage>, recent: string -> bool): seq<Usage> {
    if us == [] then []
    else
      var u := us[|us| - 1];
      RecentOf(us[..|us| - 1], recent) + if u.lastCallAt != "" && recent(u.lastCallAt) then [u] else []
  }

  lemma OneMoreListed(keys: seq<string>, n: nat, m: map<string, Usage>, recent: string -> bool)
    requires n < |keys| && forall k :: k in keys ==> k in m
    ensures Listed(keys[..n + 1], m) == Listed(keys[..n], m) + [m[keys[n]]]
    ensures RecentOf(Listed(keys[..n + 1], m), recent)
            == if m[keys[n]].lastCallAt != "" && recent(m[keys[n]].lastCallAt)
               then RecentOf(Listed(keys[..n], m), recent) + [m[keys[n]]]
               else RecentOf(Listed(keys[..n], m), recent)
  {
    assert keys[..n + 1][..n] == keys[..n];
    var us := Listed(keys[..n], m);
    assert (us + [m[keys[n]]])[..|us|] == us;
  }

  lemma OneMoreDate(keys: seq<string>, n: nat, m: map<string, Counts>)
    requires n < |keys| && forall k :: k in keys ==> k in m
    ensures Dates(keys[..n + 1], m) == Dates(keys[..n], m) + [(keys[n], m[keys[n]])]
  {
    assert keys[..n + 1][..n] == keys[..n];
  }

  lemma {:induction false} ListedTotal(keys: seq<string>, m: map<string, Usage>)
    requires forall k :: k in keys ==> k in m
    ensures Total(BY_MODEL, Listed(keys, m)) == SumList(COUNTS, keys, CountsIn(m))
  {
    if keys != [] {
      ListedTotal(keys[..|keys| - 1], m);
      TotalSnoc(BY_MODEL, Listed(keys[..|keys| - 1], m), m[keys[|keys| - 1]]);
    }
  }

  lemma {:induction false} DatesTotal(keys: seq<string>, m: map<string, Counts>)
    requires forall k :: k in keys ==> k in m
    ensures Total(BY_MONTH, Dates(keys, m)) == SumList(COUNTS, keys, m)
  {
    if keys != [] {
      DatesTotal(keys[..|keys| - 1], m);
      TotalSnoc(BY_MONTH, Dates(keys[..|keys| - 1], m), (keys[|keys| - 1], m[keys[|keys| - 1]]));
    }
  }

  lemma SessionSums(order: seq<string>, m: map<string, Usage>)
    requires Lists(order, m)
    ensures Total(BY_MODEL, Listed(order, m)) == Sum(COUNTS, CountsIn(m))
    ensures Sum(COUNTS, Grouped(BY_MODEL, Listed(order, m))) == Sum(COUNTS, CountsIn(m))
  {
    CountsAreLawful();
    ListedTotal(order, m);
    hide Total, Listed, Grouped, Sum, Lawful;
    SumListIsSum(COUNTS, order, CountsIn(m));
    GroupsSumToTotal(BY_MODEL, Listed(order, m));
  }

  lemma MonthSums(dates: seq<string>, m: map<string, Counts>)
    requires Lists(dates, m)
    ensures Sum(COUNTS, Grouped(BY_MONTH, Dates(dates, m))) == Sum(COUNTS, m)
  {
    CountsAreLawful();
    DatesTotal(dates, m);
    hide Total, Dates, Grouped, Sum, Lawful;
    SumListIsSum(COUNTS, dates, m);
    GroupsSumToTotal(BY_MONTH, Dates(dates, m));
  }

  lemma NothingListed(m: map<string, Usage>, recent: string -> bool, d: map<string, Counts>)
    ensures Listed([], m) == [] && RecentOf([], recent) == [] && Dates([], d) == []
    ensures Total(BY_MODEL, []) == NONE && Grouped(BY_MODEL, []) == map[] && Grouped(BY_MONTH, []) == map[]
  {
  }

  /** The totals over the sessions, and over those whose last call is recent. */
  method SumSessions(sessions: map<string, Cell<Usage>>, order: seq<string>, recent: string -> bool)
    returns (totals: Counts, weekly: Counts)
    requires Lists(order, sessions)
    ensures totals == Total(BY_MODEL, Listed(order, Values(sessions)))
    ensures weekly == Total(BY_MODEL, RecentOf(Listed(order, Values(sessions)), recent))
  {
    ghost var m := Values(sessions);
    hide Total, Listed, RecentOf;
    NothingListed(m, recent, map[]);
    assert order[..0] == [];
    totals, weekly := NONE, NONE;
    for n := 0 to |order|
      invariant totals == Total(BY_MODEL, Listed(order[..n], m))
      invariant weekly == Total(BY_MODEL, RecentOf(Listed(order[..n], m), recent))
    {
      OneMoreListed(order, n, m, recent);
      var s := sessions[order[n]].value;
      TotalSnoc(BY_MODEL, Listed(order[..n], m), s);
      totals := Plus(totals, s.counts);
      if s.lastCallAt != "" && recent(s.lastCallAt) {
        TotalSnoc(BY_MODEL, RecentOf(Listed(order[..n], m), recent), s);
        weekly := Plus(weekly, s.counts);
      }
    }
    assert order[..|order|] == order;
  }

  method GroupByModel(sessions: map<string, Cell<Usage>>, order: seq<string>) returns (byModel: map<string, Counts>)
    requires Lists(order, sessions)
    ensures byModel == Grouped(BY_MODEL, Listed(order, Values(sessions)))
  {
    ghost var m := Values(sessions);
    hide Grouped, Listed, RecentOf;
    NothingListed(m, _ => false, map[]);
    assert order[..0] == [];
    byModel := map[];
    for n := 0 to |order|
      invariant byModel == Grouped(BY_MODEL, Listed(order[..n], m))
    {
      OneMoreListed(order, n, m, _ => false);
      var s := sessions[order[n]].value;
      GroupedSnoc(BY_MODEL, Listed(order[..n], m), s);
      byModel := AddShare(BY_MODEL, byModel, s);
    }
    assert order[..|order|] == order;
  }

  /** The totals over all sessions and over recent ones, and by model; the models add up to the totals. */
  method RollUpSessions(sessions: map<string, Cell<Usage>>, order: seq<string>, recent: string -> bool)
    returns (totals: Counts, weekly: Counts, byModel: map<string, Counts>)
    requires Lists(order, sessions)
    ensures totals == Sum(COUNTS, CountsIn(Values(sessions))) == Sum(COUNTS, byModel)
    ensures weekly == Total(BY_MODEL, RecentOf(Listed(order, Values(sessions)), recent))
    ensures byModel == Grouped(BY_MODEL, Listed(order, Values(sessions)))
  {
    hide Grouped, Listed, RecentOf, Total, Sum;
    SessionSums(order, Values(sessions));
    totals, weekly := SumSessions(sessions, order, recent);
    byModel := GroupByModel(sessions, order);
  }

  method GroupByMonth(daily: map<string, Cell<Counts>>, dates: seq<string>) returns (monthly: map<string, Counts>)
    requires Lists(dates, daily)
    ensures monthly == Grouped(BY_MONTH, Dates(dates, Values(daily)))
  {
    ghost var m := Values(daily);
    hide Grouped, Dates;
    NothingListed(map[], _ => false, m);
    assert dates[..0] == [];
    monthly := map[];
    for n := 0 to |dates|
      invariant monthly == Grouped(BY_MONTH, Dates(dates[..n], m))
    {
      OneMoreDate(dates, n, m);
      var d := (dates[n], daily[dates[n]].value);
      GroupedSnoc(BY_MONTH, Dates(dates[..n], m), d);
      monthly := AddShare(BY_MONTH, monthly, d);
    }
    assert dates[..|dates|] == dates;
  }

  /** The months in order, each with its counts from the days in order of their dates; they add up to the days. */
  method RollUpMonths(daily: map<string, Cell<Counts>>)
    returns (dates: seq<string>, months: seq<string>, monthly: seq<(string, Counts)>)
    ensures Lists(dates, daily) && Ordered(Leq, dates)
    ensures var byMonth := Grouped(BY_MONTH, Dates(dates, Values(daily)));
              && Lists(months, byMonth) && Ordered(Leq, months) && monthly == Dates(months, byMonth)
              && Sum(COUNTS, byMonth) == Sum(COUNTS, Values(daily))
  {
    hide Grouped, Dates, Ordered, Leq, Sum;
    dates := InOrder(daily.Keys);
    var byMonth := GroupByMonth(daily, dates);
    MonthSums(dates, Values(daily));
    months := InOrder(byMonth.Keys);
    monthly := Dates(months, byMonth);
  }

  // ---------------------------------------------------------------------------
  // What the roll-ups are, told from the sessions and the days alone
  // ---------------------------------------------------------------------------

  lemma {:induction false} ListedAt(keys: seq<string>, m: map<string, Usage>)
    requires forall k :: k in keys ==> k in m
    ensures |Listed(keys, m)| == |keys| && forall i :: 0 <= i < |keys| ==> Listed(keys, m)[i] == m[keys[i]]
  {
    if keys != [] { ListedAt(keys[..|keys| - 1], m); }
  }

  lemma {:induction false} DatesAt(keys: seq<string>, m: map<string, Counts>)
    requires forall k :: k in keys ==> k in m
    ensures |Dates(keys, m)| == |keys| && forall i :: 0 <= i < |keys| ==> Dates(keys, m)[i] == (keys[i], m[keys[i]])
  {
    if keys != [] { DatesAt(keys[..|keys| - 1], m); }
  }

  /** The counts are the sums over the items for which `of` holds. */
  ghost predicate TellsItems<T>(c: Counts, ts: seq<T>, of: T -> bool, counts: T -> Counts) {
    && c.calls == SumWhere(ts, of, (t: T) => counts(t).calls)
    && c.input == SumWhere(ts, of, (t: T) => counts(t).input)
    && c.output == SumWhere(ts, of, (t: T) => counts(t).output)
    && c.cacheRead == SumWhere(ts, of, (t: T) => counts(t).cacheRead)
    && c.cacheCreate == SumWhere(ts, of, (t: T) => counts(t).cacheCreate)
  }

  lemma TellsSnoc<T>(c: Counts, ts: seq<T>, t: T, of: T -> bool, counts: T -> Counts)
    requires TellsItems(c, ts, of, counts)
    ensures TellsItems(if of(t) then Plus(c, counts(t)) else c, ts + [t], of, counts)
  {
    SumWhereSnoc(ts, t, of, (t: T) => counts(t).calls);
    SumWhereSnoc(ts, t, of, (t: T) => counts(t).input);
    SumWhereSnoc(ts, t, of, (t: T) => counts(t).output);
    SumWhereSnoc(ts, t, of, (t: T) => counts(t).cacheRead);
    SumWhereSnoc(ts, t, of, (t: T) => counts(t).cacheCreate);
    hide SumWhere;
  }

  lemma TellsNone<T>(of: T -> bool, counts: T -> Counts)
    ensures TellsItems(NONE, [], of, counts)
  {
  }

  function CountsOf(u: Usage): Counts { u.counts }

  function OfModel(model: string): Usage -> bool {
    (u: Usage) => if u.model == "" then model == "unknown" else u.model == model
  }

  lemma OfModelIsKey(u: Usage, model: string)
    ensures OfModel(model)(u) <==> BY_MODEL.key(u) == model
    ensures BY_MODEL.share(u) == CountsOf(u) && BY_MODEL.add == COUNTS
  {
  }

  /** The models are those of the sessions, each with the sums over its own; a session without one counts as unknown. */
  lemma {:induction false} ModelsTellSessions(us: seq<Usage>, model: string)
    ensures model in Grouped(BY_MODEL, us) <==> exists u :: u in us && OfModel(model)(u)
    ensures TellsItems(Get(COUNTS, Grouped(BY_MODEL, us), model), us, OfModel(model), CountsOf)
  {
    if us == [] {
      TellsNone(OfModel(model), CountsOf);
    } else {
      var front, u := us[..|us| - 1], us[|us| - 1];
      assert us == front + [u];
      ModelsTellSessions(front, model);
      GroupedSnoc(BY_MODEL, front, u);
      OfModelIsKey(u, model);
      TellsSnoc(Get(COUNTS, Grouped(BY_MODEL, front), model), front, u, OfModel(model), CountsOf);
      hide Grouped, TellsItems, OfModel, Plus;
    }
  }

  function LastIn(recent: string -> bool): Usage -> bool {
    (u: Usage) => u.lastCallAt != "" && recent(u.lastCallAt)
  }

  /** The weekly totals are the sums over the sessions that have a last call, and a recent one. */
  lemma {:induction false} WeeklyTellsSessions(us: seq<Usage>, recent: string -> bool)
    ensures TellsItems(Total(BY_MODEL, RecentOf(us, recent)), us, LastIn(recent), CountsOf)
  {
    if us == [] {
      TellsNone(LastIn(recent), CountsOf);
    } else {
      var front, u := us[..|us| - 1], us[|us| - 1];
      assert us == front + [u];
      WeeklyTellsSessions(front, recent);
      TotalSnoc(BY_MODEL, RecentOf(front, recent), u);
      assert RecentOf(front, recent) + [] == RecentOf(front, recent);
      TellsSnoc(Total(BY_MODEL, RecentOf(front, recent)), front, u, LastIn(recent), CountsOf);
      hide Total, TellsItems, Plus;
    }
  }

  function SecondOf(d: (string, Counts)): Counts { d.1 }

  function InMonth(month: string): ((string, Counts)) -> bool {
    (d: (string, Counts)) => if |d.0| <= 7 then d.0 == month else d.0[..7] == month
  }

  lemma InMonthIsKey(d: (string, Counts), month: string)
    ensures InMonth(month)(d) <==> BY_MONTH.key(d) == month
    ensures BY_MONTH.share(d) == SecondOf(d) && BY_MONTH.add == COUNTS
  {
  }

  /** The months are those of the days, each with the sums over its own. */
  lemma {:induction false} MonthsTellDays(days: seq<(string, Counts)>, month: string)
    ensures month in Grouped(BY_MONTH, days) <==> exists d :: d in days && InMonth(month)(d)
    ensures TellsItems(Get(COUNTS, Grouped(BY_MONTH, days), month), days, InMonth(month), SecondOf)
  {
    if days == [] {
      TellsNone(InMonth(month), SecondOf);
    } else {
      var front, d := days[..|days| - 1], days[|days| - 1];
      assert days == front + [d];
      MonthsTellDays(front, month);
      GroupedSnoc(BY_MONTH, front, d);
      InMonthIsKey(d, month);
      TellsSnoc(Get(COUNTS, Grouped(BY_MONTH, front), month), front, d, InMonth(month), SecondOf);
      hide Grouped, TellsItems, InMonth, Plus;
    }
  }
}
