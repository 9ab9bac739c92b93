/** Usage of several machines merged, and days bucketed into weeks. */
module UsageAggregator {
  import opened Seqs
  import opened Numbers
  import opened Sorting
  import opened Sums

  datatype Amounts = Amounts(input: int, output: int, cacheRead: int, cost: real, sessions: int)

  const NONE := Amounts(0, 0, 0, 0.0, 0)

  function Plus(a: Amounts, b: Amounts): Amounts {
    Amounts(a.input + b.input, a.output + b.output, a.cacheRead + b.cacheRead, a.cost + b.cost, a.sessions + b.sessions)
  }

  const AMOUNTS := Addition(NONE, Plus)

  lemma AmountsAreLawful()
    ensures Lawful(AMOUNTS)
  {
  }

  // ---------------------------------------------------------------------------
  // Weeks
  // ---------------------------------------------------------------------------

  /** A day's usage, or a week's. Dates count days from Thursday, the first of January 1970. */
  datatype DailyUsage = DailyUsage(date: int, amounts: Amounts)

  /** Sunday is 0. */
  function DayOfWeek(date: int): int {
    (date + 4) % 7
  }

  function Monday(date: int): int {
    date - (if DayOfWeek(date) == 0 then 6 else DayOfWeek(date) - 1)
  }

  /** The Monday of a date starts the week that the date is in; it is the same for the whole week. */
  lemma MondayOfWeek(date: int, other: int)
    ensures DayOfWeek(Monday(date)) == 1 && Monday(date) <= date < Monday(date) + 7
    ensures Monday(other) == Monday(date) <==> Monday(date) <= other < Monday(date) + 7
    ensures date <= other ==> Monday(date) <= Monday(other)
  {
  }

  const BY_WEEK: Grouping<DailyUsage, int, Amounts> :=
    Grouping(AMOUNTS, (d: DailyUsage) => Monday(d.date), (d: DailyUsage) => d.amounts)

  function Earlier(a: DailyUsage, b: DailyUsage): bool {
    a.date <= b.date
  }

  ghost predicate Increasing(weeks: seq<DailyUsage>) {
    forall i, j :: 0 <= i < j < |weeks| ==> weeks[i].date < weeks[j].date
  }

  /** The list has one entry for each key of the map, with its value. */
  ghost predicate Tabulates(weeks: seq<DailyUsage>, m: map<int, Amounts>) {
    && (forall w :: w in weeks ==> w.date in m && m[w.date] == w.amounts)
    && (forall k :: k in m ==> DailyUsage(k, m[k]) in weeks)
  }

  /** The weeks so far, the current one last, once a day is added. */
  function AddDay(weeks: seq<DailyUsage>, d: DailyUsage): seq<DailyUsage> {
    if weeks != [] && weeks[|weeks| - 1].date == Monday(d.date)
    then weeks[..|weeks| - 1] + [DailyUsage(Monday(d.date), Plus(weeks[|weeks| - 1].amounts, d.amounts))]
    else weeks + [DailyUsage(Monday(d.date), Plus(NONE, d.amounts))]
  }

  lemma BeforeLast(front: seq<DailyUsage>, last: DailyUsage, w: DailyUsage)
    requires Increasing(front + [last]) && w in front
    ensures w.date < last.date
  {
    var all := front + [last];
    var i :| 0 <= i < |front| && front[i] == w;
    assert all[i] == w && all[|front|] == last;
  }

  lemma SameDates(v: seq<DailyUsage>, w: seq<DailyUsage>)
    requires Increasing(v) && |v| == |w| && forall i :: 0 <= i < |v| ==> v[i].date == w[i].date
    ensures Increasing(w)
  {
  }

  lemma UpdateLast(front: seq<DailyUsage>, last: DailyUsage, m: map<int, Amounts>, a: Amounts)
    requires Increasing(front + [last]) && Tabulates(front + [last], m)
    ensures Increasing(front + [DailyUsage(last.date, a)])
    ensures Tabulates(front + [DailyUsage(last.date, a)], m[last.date := a])
  {
    var was, next := front + [last], DailyUsage(last.date, a);
    SameDates(was, front + [next]);
    forall w | w in front ensures w in was && w.date != last.date { BeforeLast(front, last, w); }
    hide Increasing;
    forall k | k in m && k != last.date ensures DailyUsage(k, m[k]) in front {
      assert DailyUsage(k, m[k]) in was;
    }
    assert next in front + [next] && forall w :: w in front ==> w in front + [next];
  }

  lemma AddLater(weeks: seq<DailyUsage>, m: map<int, Amounts>, w: DailyUsage)
    requires Increasing(weeks) && Tabulates(weeks, m)
    requires weeks == [] || weeks[|weeks| - 1].date < w.date
    ensures w.date !in m
    ensures Increasing(weeks + [w]) && Tabulates(weeks + [w], m[w.date := w.amounts])
  {
    assert forall x :: x in weeks ==> x.date < w.date;
    assert w in weeks + [w] && forall x :: x in weeks ==> x in weeks + [w];
  }

  /** Adding a day that is not before the current week keeps the weeks in order, and the table that of the days. */
  lemma AddDayTabulates(weeks: seq<DailyUsage>, m: map<int, Amounts>, d: DailyUsage)
    requires Increasing(weeks) && Tabulates(weeks, m)
    requires weeks == [] || weeks[|weeks| - 1].date <= Monday(d.date)
    ensures Increasing(AddDay(weeks, d)) && Tabulates(AddDay(weeks, d), AddShare(BY_WEEK, m, d))
  {
    hide Monday, Plus, Tabulates, Increasing;
    if weeks != [] && weeks[|weeks| - 1].date == Monday(d.date) {
      var front, last := weeks[..|weeks| - 1], weeks[|weeks| - 1];
      assert weeks == front + [last];
      LastIsInTable(front, last, m);
      UpdateLast(front, last, m, Plus(last.amounts, d.amounts));
    } else {
      AddLater(weeks, m, DailyUsage(Monday(d.date), Plus(NONE, d.amounts)));
    }
  }

  lemma LastIsInTable(front: seq<DailyUsage>, last: DailyUsage, m: map<int, Amounts>)
    requires Tabulates(front + [last], m)
    ensures last.date in m && m[last.date] == last.amounts
  {
    assert last in front + [last];
  }

  lemma EarlierOrders()
    ensures TotalPreorder(Earlier)
  {
  }

  /** The weeks, in order, are those of the days, and the last is that of the last day. */
  ghost predicate WeeksOf(weeks: seq<DailyUsage>, days: seq<DailyUsage>) {
    && (days == [] <==> weeks == [])
    && (days != [] ==> weeks[|weeks| - 1].date == Monday(days[|days| - 1].date))
    && Increasing(weeks) && Tabulates(weeks, Grouped(BY_WEEK, days))
  }

  lemma NoWeeks()
    ensures WeeksOf([], [])
  {
  }

  lemma WeeksOfSnoc(weeks: seq<DailyUsage>, days: seq<DailyUsage>, d: DailyUsage)
    requires WeeksOf(weeks, days) && (days == [] || days[|days| - 1].date <= d.date)
    ensures WeeksOf(AddDay(weeks, d), days + [d])
  {
    hide Grouped, Increasing, Tabulates, Plus;
    if days != [] { MondayOfWeek(days[|days| - 1].date, d.date); }
    AddDayTabulates(weeks, Grouped(BY_WEEK, days), d);
    GroupedSnoc(BY_WEEK, days, d);
  }

  /** One bucket for each week that occurs, in order, each with the sum of its days. */
  method BucketByWeek(daily: seq<DailyUsage>) returns (weeks: seq<DailyUsage>)
    ensures Increasing(weeks)
    ensures Tabulates(weeks, Grouped(BY_WEEK, daily))
  {
    if daily == [] {
      return [];
    }
    var sorted := Sort(Earlier, daily);
    EarlierOrders();
    SortOrdered(Earlier, daily);
    AmountsAreLawful();
    SortedGroups(BY_WEEK, Earlier, daily);
    weeks := BucketSorted(sorted);
  }

  /** What the loop does with one more day, on the finished weeks and the current one, if any. */
  lemma AddDayToCurrent(weeks: seq<DailyUsage>, current: seq<DailyUsage>, d: DailyUsage)
    requires |current| <= 1 && (current == [] ==> weeks == [])
    ensures AddDay(weeks + current, d)
            == if current != [] && current[0].date == Monday(d.date)
               then weeks + [DailyUsage(current[0].date, Plus(current[0].amounts, d.amounts))]
               else weeks + current + [DailyUsage(Monday(d.date), Plus(NONE, d.amounts))]
  {
    if current != [] {
      assert weeks + current == weeks + [current[0]];
      assert (weeks + [current[0]])[..|weeks|] == weeks;
    }
  }

  method BucketSorted(sorted: seq<DailyUsage>) returns (weeks: seq<DailyUsage>)
    requires Ordered(Earlier, sorted)
    ensures WeeksOf(weeks, sorted)
  {
    NoWeeks();
    weeks := [];
    var current: seq<DailyUsage> := [];
    assert sorted[..0] == [] && weeks + current == [];
    hide WeeksOf, Monday, Plus, AddDay;
    for n := 0 to |sorted|
      invariant |current| <= 1 && (current == [] ==> weeks == [])
      invariant WeeksOf(weeks + current, sorted[..n])
    {
      var d := sorted[n];
      var weekStart := Monday(d.date);
      assert sorted[..n + 1] == sorted[..n] + [d];
      WeeksOfSnoc(weeks + current, sorted[..n], d);
      AddDayToCurrent(weeks, current, d);
      if current == [] || weekStart != current[0].date {
        weeks := weeks + current;
        current := [DailyUsage(weekStart, NONE)];
      }
      current := [DailyUsage(current[0].date, Plus(current[0].amounts, d.amounts))];
    }
    assert sorted[..|sorted|] == sorted;
    weeks := weeks + current;
  }

  /** A bucket's days are exactly those of its week, and it has their total. */
  lemma BucketIsItsWeek(daily: seq<DailyUsage>, monday: int, d: DailyUsage)
    ensures d in Those(BY_WEEK, daily, monday)
            <==> d in daily && DayOfWeek(monday) == 1 && monday <= d.date < monday + 7
    ensures monday in Grouped(BY_WEEK, daily) <==> Those(BY_WEEK, daily, monday) != []
    ensures monday in Grouped(BY_WEEK, daily) ==>
              Grouped(BY_WEEK, daily)[monday] == Total(BY_WEEK, Those(BY_WEEK, daily, monday))
  {
    GroupIsTotalOfThose(BY_WEEK, daily, monday);
    MembersOfWeek(daily, monday, d);
    hide Those, Grouped, Total;
  }

  lemma MembersOfWeek(daily: seq<DailyUsage>, monday: int, d: DailyUsage)
    ensures d in Those(BY_WEEK, daily, monday)
            <==> d in daily && DayOfWeek(monday) == 1 && monday <= d.date < monday + 7
  {
    hide *;
    ThoseMembers(BY_WEEK, daily, monday, d);
    KeyIsWeek(d, monday);
  }

  lemma KeyIsWeek(d: DailyUsage, monday: int)
    ensures BY_WEEK.key(d) == monday <==> DayOfWeek(monday) == 1 && monday <= d.date < monday + 7
  {
    MondayOfWeek(d.date, monday);
  }

  // ---------------------------------------------------------------------------
  // Projects
  // ---------------------------------------------------------------------------

  /** A project's usage on one machine, or on all of them. Projects keep no cache reads, so that share is zero. */
  datatype ProjectUsage = ProjectUsage(id: string, name: string, amounts: Amounts)

  const BY_PROJECT: Grouping<ProjectUsage, string, Amounts> :=
    Grouping(AMOUNTS, (p: ProjectUsage) => p.id, (p: ProjectUsage) => p.amounts)

  /** The projects' ids, in the order in which they first occur. */
  function Ids(ps: seq<ProjectUsage>): (ids: seq<string>) {
    if ps == [] then []
    else
      var front, id := Ids(ps[..|ps| - 1]), ps[|ps| - 1].id;
      if id in front then front else front + [id]
  }

  /** A project goes by the name it had first. */
  function Names(ps: seq<ProjectUsage>): map<string, string> {
    if ps == [] then map[]
    else
      var front, p := Names(ps[..|ps| - 1]), ps[|ps| - 1];
      if p.id in front then front else front[p.id := p.name]
  }

  lemma {:induction false} IdsList(ps: seq<ProjectUsage>)
    ensures forall id :: id in Ids(ps) <==> id in Grouped(BY_PROJECT, ps)
    ensures forall id :: id in Ids(ps) <==> id in Names(ps)
    ensures forall i, j :: 0 <= i < j < |Ids(ps)| ==> Ids(ps)[i] != Ids(ps)[j]
  {
    if ps != [] { IdsList(ps[..|ps| - 1]); }
  }

  /** One entry for each of the ids. */
  function Entries(ids: seq<string>, names: map<string, string>, m: map<string, Amounts>): seq<ProjectUsage>
    requires forall id :: id in ids ==> id in names && id in m
  {
    if ids == [] then []
    else
      var id := ids[|ids| - 1];
      Entries(ids[..|ids| - 1], names, m) + [ProjectUsage(id, names[id], m[id])]
  }

  /** The projects of all machines, merged, in the order in which they first occur. */
  function MergedProjects(ps: seq<ProjectUsage>): seq<ProjectUsage> {
    IdsList(ps);
    Entries(Ids(ps), Names(ps), Grouped(BY_PROJECT, ps))
  }

  lemma {:induction false} EntriesTotal(ids: seq<string>, names: map<string, string>, m: map<string, Amounts>)
    requires forall id :: id in ids ==> id in names && id in m
    ensures Total(BY_PROJECT, Entries(ids, names, m)) == SumList(AMOUNTS, ids, m)
    ensures |Entries(ids, names, m)| == |ids|
  {
    if ids != [] {
      EntriesTotal(ids[..|ids| - 1], names, m);
      var id := ids[|ids| - 1];
      TotalSnoc(BY_PROJECT, Entries(ids[..|ids| - 1], names, m), ProjectUsage(id, names[id], m[id]));
    }
  }

  /** Merging the projects keeps their total. */
  lemma MergedTotal(ps: seq<ProjectUsage>)
    ensures Total(BY_PROJECT, MergedProjects(ps)) == Total(BY_PROJECT, ps)
  {
    AmountsAreLawful();
    IdsList(ps);
    EntriesTotal(Ids(ps), Names(ps), Grouped(BY_PROJECT, ps));
    hide Total, Grouped, Ids, Names, Lawful;
    SumListIsSum(AMOUNTS, Ids(ps), Grouped(BY_PROJECT, ps));
    GroupsSumToTotal(BY_PROJECT, ps);
  }

  function CostlyFirst(p: ProjectUsage, q: ProjectUsage): bool {
    p.amounts.cost >= q.amounts.cost
  }

  datatype Limit = Unlimited | AtMost(max: nat)

  const OTHER := "__other__"

  /** The entry that stands for several projects. */
  function OtherEntry(rest: seq<ProjectUsage>): ProjectUsage {
    ProjectUsage(OTHER, "Other (" + Decimal(|rest|) + " projects)", Total(BY_PROJECT, rest))
  }

  /** The projects past the limit as one. */
  function GroupTail(ps: seq<ProjectUsage>, limit: Limit): seq<ProjectUsage> {
    if limit.AtMost? && |ps| > limit.max
    then ps[..limit.max] + [OtherEntry(ps[limit.max..])]
    else ps
  }

  /** Grouping the tail keeps the total. */
  lemma TailKeepsTotal(ps: seq<ProjectUsage>, limit: Limit)
    ensures Total(BY_PROJECT, GroupTail(ps, limit)) == Total(BY_PROJECT, ps)
  {
    if limit.AtMost? && |ps| > limit.max {
      var top, rest := ps[..limit.max], ps[limit.max..];
      assert ps == top + rest;
      AmountsAreLawful();
      TotalConcat(BY_PROJECT, top, rest);
      hide Total;
      TotalSnoc(BY_PROJECT, top, OtherEntry(rest));
    }
  }

  /** The projects as the view shows them: the costliest first, those past the limit as one. */
  function Shown(ps: seq<ProjectUsage>, limit: Limit): seq<ProjectUsage> {
    GroupTail(Sort(CostlyFirst, MergedProjects(ps)), limit)
  }

  lemma CostlyFirstOrders()
    ensures TotalPreorder(CostlyFirst)
  {
  }

  lemma Rank(ps: seq<ProjectUsage>, k: nat, i: nat, q: ProjectUsage)
    requires Ordered(CostlyFirst, ps) && i < k <= |ps| && q in ps && q !in ps[..k]
    ensures CostlyFirst(ps[i], q)
  {
    assert ps == ps[..k] + ps[k..];
    var j :| 0 <= j < |ps[k..]| && ps[k..][j] == q;
    assert ps[k + j] == q;
  }

  /** Nothing is lost: however many projects are shown, they add up to what all machines reported. */
  lemma ShownAddUp(ps: seq<ProjectUsage>, limit: Limit)
    ensures Total(BY_PROJECT, Shown(ps, limit)) == Total(BY_PROJECT, ps)
    ensures limit.AtMost? ==> |Shown(ps, limit)| <= limit.max + 1
    ensures multiset(Sort(CostlyFirst, MergedProjects(ps))) == multiset(MergedProjects(ps))
  {
    AmountsAreLawful();
    CostlyFirstOrders();
    hide Total, MergedProjects, Sort, Lawful, TotalPreorder, Ordered;
    var merged := MergedProjects(ps);
    MergedTotal(ps);
    SortedTotal(BY_PROJECT, CostlyFirst, merged);
    SortOrdered(CostlyFirst, merged);
    SortPermutes(CostlyFirst, merged);
    TailKeepsTotal(Sort(CostlyFirst, merged), limit);
  }

  /** How many projects are shown on their own. */
  function OwnEntries(ps: seq<ProjectUsage>, limit: Limit): nat {
    if limit.AtMost? && |MergedProjects(ps)| > limit.max then limit.max else |MergedProjects(ps)|
  }

  /** The projects shown on their own are merged projects, costliest first, and each costs at least as much as every
      merged project that is not shown. */
  lemma ShownAreCostliest(ps: seq<ProjectUsage>, limit: Limit)
    ensures OwnEntries(ps, limit) <= |Shown(ps, limit)|
    ensures var own := Shown(ps, limit)[..OwnEntries(ps, limit)];
              && (forall i, j :: 0 <= i < j < |own| ==> own[i].amounts.cost >= own[j].amounts.cost)
              && multiset(own) <= multiset(MergedProjects(ps))
              && forall p, q :: p in own && q in MergedProjects(ps) && q !in own ==> p.amounts.cost >= q.amounts.cost
  {
    CostlyFirstOrders();
    hide *;
    var merged, k := MergedProjects(ps), OwnEntries(ps, limit);
    var sorted := Sort(CostlyFirst, merged);
    SortPermutes(CostlyFirst, merged);
    SortOrdered(CostlyFirst, merged);
    SameLength(sorted, merged);
    OwnAreFirst(ps, limit);
    FirstAreCostliest(sorted, merged, k);
  }

  lemma OwnAreFirst(ps: seq<ProjectUsage>, limit: Limit)
    requires |Sort(CostlyFirst, MergedProjects(ps))| == |MergedProjects(ps)|
    ensures var k := OwnEntries(ps, limit);
              && k <= |MergedProjects(ps)| && k <= |Shown(ps, limit)|
              && Shown(ps, limit)[..k] == Sort(CostlyFirst, MergedProjects(ps))[..k]
  {
    hide Sort, MergedProjects, Total;
  }

  lemma FirstAreCostliest(sorted: seq<ProjectUsage>, merged: seq<ProjectUsage>, k: nat)
    requires Ordered(CostlyFirst, sorted) && multiset(sorted) == multiset(merged) && k <= |sorted|
    ensures forall i, j :: 0 <= i < j < k ==> sorted[i].amounts.cost >= sorted[j].amounts.cost
    ensures multiset(sorted[..k]) <= multiset(merged)
    ensures forall p, q :: p in sorted[..k] && q in merged && q !in sorted[..k] ==> p.amounts.cost >= q.amounts.cost
  {
    assert sorted == sorted[..k] + sorted[k..];
    forall i, j | 0 <= i < j < k ensures sorted[i].amounts.cost >= sorted[j].amounts.cost {
      assert CostlyFirst(sorted[i], sorted[j]);
    }
    forall p, q | p in sorted[..k] && q in merged && q !in sorted[..k] ensures p.amounts.cost >= q.amounts.cost {
      MembersAgree(sorted, merged, q);
      var i :| 0 <= i < k && sorted[..k][i] == p;
      hide Ordered;
      Rank(sorted, k, i, q);
    }
  }

  /** The others, if any, stand last as one entry that says how many they are. */
  lemma OthersAreOne(ps: seq<ProjectUsage>, limit: Limit)
    ensures var shown, n := Shown(ps, limit), |MergedProjects(ps)|;
              if limit.AtMost? && n > limit.max then
                && |shown| == limit.max + 1 && OwnEntries(ps, limit) == limit.max
                && shown[limit.max].id == "__other__"
                && shown[limit.max].name == "Other (" + Decimal(n - limit.max) + " projects)"
              else |shown| == OwnEntries(ps, limit) == n
  {
    CostlyFirstOrders();
    hide MergedProjects, Sort, TotalPreorder, Total, Decimal;
    SortPermutes(CostlyFirst, MergedProjects(ps));
    SameLength(MergedProjects(ps), Sort(CostlyFirst, MergedProjects(ps)));
  }

  lemma SameLength(ps: seq<ProjectUsage>, qs: seq<ProjectUsage>)
    requires multiset(ps) == multiset(qs)
    ensures |ps| == |qs|
  {
    assert |ps| == |multiset(ps)| && |qs| == |multiset(qs)|;
  }

  /** What the machines report of a project, added up. */
  function Reported(ps: seq<ProjectUsage>, id: string, part: Amounts -> real): real {
    if ps == [] then 0.0
    else
      var p := ps[|ps| - 1];
      Reported(ps[..|ps| - 1], id, part) + if p.id == id then part(p.amounts) else 0.0
  }

  ghost predicate AddsUp(a: Amounts, ps: seq<ProjectUsage>, id: string) {
    && a.input as real == Reported(ps, id, (b: Amounts) => b.input as real)
    && a.output as real == Reported(ps, id, (b: Amounts) => b.output as real)
    && a.cost == Reported(ps, id, (b: Amounts) => b.cost)
    && a.sessions as real == Reported(ps, id, (b: Amounts) => b.sessions as real)
  }

  lemma {:induction false} GroupedSums(ps: seq<ProjectUsage>, id: string)
    ensures id in Grouped(BY_PROJECT, ps) <==> exists p :: p in ps && p.id == id
    ensures AddsUp(Get(AMOUNTS, Grouped(BY_PROJECT, ps), id), ps, id)
  {
    if ps != [] {
      var front, p := ps[..|ps| - 1], ps[|ps| - 1];
      assert ps == front + [p];
      GroupedSums(front, id);
      GroupedSnoc(BY_PROJECT, front, p);
      hide Grouped;
    }
  }

  /** The name of the first report of a project. */
  function FirstName(ps: seq<ProjectUsage>, id: string): string {
    if ps == [] then "" else if ps[0].id == id then ps[0].name else FirstName(ps[1..], id)
  }

  lemma {:induction false} FirstNameSnoc(ps: seq<ProjectUsage>, p: ProjectUsage, id: string)
    ensures FirstName(ps + [p], id)
            == if exists q :: q in ps && q.id == id then FirstName(ps, id) else if p.id == id then p.name else ""
  {
    if ps == [] {
      assert ps + [p] == [p];
    } else {
      assert (ps + [p])[1..] == ps[1..] + [p] && ps == [ps[0]] + ps[1..];
      FirstNameSnoc(ps[1..], p, id);
    }
  }

  lemma {:induction false} NamesAreFirst(ps: seq<ProjectUsage>, id: string)
    ensures id in Names(ps) <==> exists p :: p in ps && p.id == id
    ensures id in Names(ps) ==> Names(ps)[id] == FirstName(ps, id)
  {
    if ps != [] {
      var front, p := ps[..|ps| - 1], ps[|ps| - 1];
      assert ps == front + [p];
      NamesAreFirst(front, id);
      NamesAreFirst(front, p.id);
      FirstNameSnoc(front, p, id);
      hide FirstName;
    }
  }

  lemma {:induction false} EntriesAre(ids: seq<string>, names: map<string, string>, m: map<string, Amounts>)
    requires forall id :: id in ids ==> id in names && id in m
    ensures |Entries(ids, names, m)| == |ids|
    ensures forall i :: 0 <= i < |ids| ==> Entries(ids, names, m)[i] == ProjectUsage(ids[i], names[ids[i]], m[ids[i]])
  {
    if ids != [] { EntriesAre(ids[..|ids| - 1], names, m); }
  }

  /** The merged projects are those reported, each once, under its first name, with the sums of what was reported. */
  lemma MergedAreReported(ps: seq<ProjectUsage>, id: string)
    ensures (exists p :: p in MergedProjects(ps) && p.id == id) <==> exists p :: p in ps && p.id == id
    ensures forall i, j :: 0 <= i < j < |MergedProjects(ps)| ==> MergedProjects(ps)[i].id != MergedProjects(ps)[j].id
    ensures forall p :: p in MergedProjects(ps) && p.id == id ==>
              AddsUp(p.amounts, ps, id) && p.name == FirstName(ps, id)
  {
    IdsList(ps);
    GroupedSums(ps, id);
    NamesAreFirst(ps, id);
    hide Ids, Names, Grouped, AddsUp, FirstName, Entries;
    EntriesFound(Ids(ps), Names(ps), Grouped(BY_PROJECT, ps), id);
    assert MergedProjects(ps) == Entries(Ids(ps), Names(ps), Grouped(BY_PROJECT, ps));
    hide MergedProjects;
    assert id in Ids(ps) ==> Get(AMOUNTS, Grouped(BY_PROJECT, ps), id) == Grouped(BY_PROJECT, ps)[id];
    assert id in Ids(ps) <==> exists p :: p in ps && p.id == id;
  }

  lemma EntriesFound(ids: seq<string>, names: map<string, string>, m: map<string, Amounts>, id: string)
    requires forall id :: id in ids ==> id in names && id in m
    requires forall i, j :: 0 <= i < j < |ids| ==> ids[i] != ids[j]
    ensures var es := Entries(ids, names, m);
              && ((exists p :: p in es && p.id == id) <==> id in ids)
              && (forall i, j :: 0 <= i < j < |es| ==> es[i].id != es[j].id)
              && forall p :: p in es && p.id == id ==> p == ProjectUsage(id, names[id], m[id])
  {
    EntriesAre(ids, names, m);
    hide Entries;
    if id in ids {
      var i :| 0 <= i < |ids| && ids[i] == id;
      assert Entries(ids, names, m)[i].id == id;
    }
  }

  // ---------------------------------------------------------------------------
  // Percentages
  // ---------------------------------------------------------------------------

  function Share(cost: real, total: real): real
    requires total > 0.0
  {
    cost / total * 100.0
  }

  /** The share of the total cost, in whole percent. */
  function Percent(cost: real, total: real): int {
    if total > 0.0 then Round(Share(cost, total)) else 0
  }

  function Percentages(ps: seq<ProjectUsage>, total: real): seq<int> {
    if ps == [] then []
    else Percentages(ps[..|ps| - 1], total) + [Percent(ps[|ps| - 1].amounts.cost, total)]
  }

  lemma PercentagesSnoc(ps: seq<ProjectUsage>, p: ProjectUsage, total: real)
    ensures Percentages(ps + [p], total) == Percentages(ps, total) + [Percent(p.amounts.cost, total)]
  {
    assert (ps + [p])[..|ps|] == ps;
  }

  function SumInts(ns: seq<int>): int {
    if ns == [] then 0 else SumInts(ns[..|ns| - 1]) + ns[|ns| - 1]
  }

  lemma ShareAdds(a: real, b: real, total: real)
    requires total > 0.0
    ensures Share(a + b, total) == Share(a, total) + Share(b, total)
  {
    assert (a + b) / total == a / total + b / total;
  }

  lemma ShareOfAll(total: real)
    requires total > 0.0
    ensures Share(total, total) == 100.0
  {
  }

  lemma {:induction false} PercentagesAreNear(ps: seq<ProjectUsage>, total: real)
    requires total > 0.0
    ensures Share(Total(BY_PROJECT, ps).cost, total) - 0.5 * |ps| as real
            <= SumInts(Percentages(ps, total)) as real
            <= Share(Total(BY_PROJECT, ps).cost, total) + 0.5 * |ps| as real
  {
    if ps != [] {
      var front, p := ps[..|ps| - 1], ps[|ps| - 1];
      assert ps == front + [p];
      PercentagesAreNear(front, total);
      PercentagesSnoc(front, p, total);
      TotalSnoc(BY_PROJECT, front, p);
      ShareAdds(Total(BY_PROJECT, front).cost, p.amounts.cost, total);
      RoundIsNear(Share(p.amounts.cost, total));
      var ns := Percentages(front, total);
      assert (ns + [Percent(p.amounts.cost, total)])[..|ns|] == ns;
      hide Share, Total, Percentages, Round;
    }
  }

  /** Each percentage is its entry's share of the total, rounded; without costs, all are zero. */
  lemma {:induction false} PercentagesAreShares(ps: seq<ProjectUsage>, total: real, i: nat)
    requires i < |ps|
    ensures |Percentages(ps, total)| == |ps|
    ensures total > 0.0 ==>
              ps[i].amounts.cost / total * 100.0 - 0.5 <= Percentages(ps, total)[i] as real
              <= ps[i].amounts.cost / total * 100.0 + 0.5
    ensures total <= 0.0 ==> Percentages(ps, total)[i] == 0
  {
    if |ps| > 1 { PercentagesAreShares(ps[..|ps| - 1], total, if i < |ps| - 1 then i else 0); }
    if total > 0.0 { RoundIsNear(Share(ps[i].amounts.cost, total)); }
    hide Round;
  }

  /** The percentages shown add up to a hundred, but for half a percent of rounding for each entry. */
  lemma PercentagesAddUp(ps: seq<ProjectUsage>, limit: Limit)
    requires Total(BY_PROJECT, ps).cost > 0.0
    ensures var shown := Shown(ps, limit);
            var sum := SumInts(Percentages(shown, Total(BY_PROJECT, ps).cost)) as real;
              100.0 - 0.5 * |shown| as real <= sum <= 100.0 + 0.5 * |shown| as real
  {
    ShownAddUp(ps, limit);
    ShareOfAll(Total(BY_PROJECT, ps).cost);
    hide *;
    PercentagesAreNear(Shown(ps, limit), Total(BY_PROJECT, ps).cost);
  }

  lemma OneMoreEntry(ps: seq<ProjectUsage>, p: ProjectUsage)
    ensures Ids(ps + [p]) == if p.id in Ids(ps) then Ids(ps) else Ids(ps) + [p.id]
    ensures Names(ps + [p]) == if p.id in Names(ps) then Names(ps) else Names(ps)[p.id := p.name]
    ensures p.id in Ids(ps) <==> p.id in Grouped(BY_PROJECT, ps)
    ensures p.id in Ids(ps) <==> p.id in Names(ps)
    ensures Grouped(BY_PROJECT, ps + [p]) == AddShare(BY_PROJECT, Grouped(BY_PROJECT, ps), p)
  {
    assert (ps + [p])[..|ps|] == ps;
    IdsList(ps);
    GroupedSnoc(BY_PROJECT, ps, p);
  }

  /** What has been merged so far. */
  datatype Merging = Merging(order: seq<string>, names: map<string, string>, amounts: map<string, Amounts>)

  ghost predicate MergingOf(s: Merging, ps: seq<ProjectUsage>) {
    s == Merging(Ids(ps), Names(ps), Grouped(BY_PROJECT, ps))
  }

  method MergeEntry(s: Merging, ghost ps: seq<ProjectUsage>, p: ProjectUsage) returns (t: Merging)
    requires MergingOf(s, ps)
    ensures MergingOf(t, ps + [p])
  {
    OneMoreEntry(ps, p);
    hide Ids, Names, Grouped, Plus;
    if p.id in s.amounts {
      t := s.(amounts := s.amounts[p.id := Plus(s.amounts[p.id], p.amounts)]);
    } else {
      PlusNone(p.amounts);
      t := Merging(s.order + [p.id], s.names[p.id := p.name], s.amounts[p.id := p.amounts]);
    }
  }

  lemma PlusNone(a: Amounts)
    ensures Plus(NONE, a) == a
  {
  }

  method SumOf(ps: seq<ProjectUsage>) returns (sum: Amounts)
    ensures sum == Total(BY_PROJECT, ps)
  {
    sum := NONE;
    for n := 0 to |ps|
      invariant sum == Total(BY_PROJECT, ps[..n])
    {
      assert ps[..n + 1] == ps[..n] + [ps[n]];
      TotalSnoc(BY_PROJECT, ps[..n], ps[n]);
      sum := Plus(sum, ps[n].amounts);
    }
    assert ps[..|ps|] == ps;
  }

  method MergeEntries(lists: seq<seq<ProjectUsage>>) returns (s: Merging)
    ensures MergingOf(s, Flatten(lists))
  {
    s := Merging([], map[], map[]);
    assert MergingOf(s, []) && lists[..0] == [] && Flatten<ProjectUsage>([]) == [];
    for i := 0 to |lists|
      invariant MergingOf(s, Flatten(lists[..i]))
    {
      ghost var before := Flatten(lists[..i]);
      assert lists[..i + 1][..i] == lists[..i];
      assert before + lists[i][..0] == before;
      for j := 0 to |lists[i]|
        invariant MergingOf(s, before + lists[i][..j])
      {
        hide MergingOf;
        assert before + lists[i][..j + 1] == before + lists[i][..j] + [lists[i][j]];
        s := MergeEntry(s, before + lists[i][..j], lists[i][j]);
      }
      assert lists[i][..|lists[i]|] == lists[i];
    }
    assert lists[..|lists|] == lists;
  }

  method PercentEach(ps: seq<ProjectUsage>, total: real) returns (percentages: seq<int>)
    ensures percentages == Percentages(ps, total)
  {
    percentages := [];
    for n := 0 to |ps|
      invariant percentages == Percentages(ps[..n], total)
    {
      hide Percentages, Percent;
      assert ps[..n + 1] == ps[..n] + [ps[n]];
      PercentagesSnoc(ps[..n], ps[n], total);
      percentages := percentages + [Percent(ps[n].amounts.cost, total)];
    }
    assert ps[..|ps|] == ps;
  }

  /** The merged projects of all machines, as the view shows them. */
  method MergeProjects(lists: seq<seq<ProjectUsage>>, limit: Limit)
    returns (shown: seq<ProjectUsage>, percentages: seq<int>)
    ensures shown == Shown(Flatten(lists), limit)
    ensures percentages == Percentages(shown, Total(BY_PROJECT, Flatten(lists)).cost)
  {
    var merged := MergeAll(lists);
    assert Shown(Flatten(lists), limit) == GroupTail(Sort(CostlyFirst, MergedProjects(Flatten(lists))), limit);
    hide *;
    MergedTotal(Flatten(lists));
    var all := SumOf(merged);
    shown := GroupRest(Sort(CostlyFirst, merged), limit);
    percentages := PercentEach(shown, all.cost);
  }

  method MergeAll(lists: seq<seq<ProjectUsage>>) returns (merged: seq<ProjectUsage>)
    ensures merged == MergedProjects(Flatten(lists))
  {
    var s := MergeEntries(lists);
    IdsList(Flatten(lists));
    hide Total, Grouped, Ids, Names, Entries;
    merged := Entries(s.order, s.names, s.amounts);
  }

  /** The projects past the limit become one. */
  method GroupRest(sorted: seq<ProjectUsage>, limit: Limit) returns (shown: seq<ProjectUsage>)
    ensures shown == GroupTail(sorted, limit)
  {
    hide Total, Decimal;
    shown := sorted;
    if limit.AtMost? && |sorted| > limit.max {
      var rest := SumOf(sorted[limit.max..]);
      shown := sorted[..limit.max]
        + [ProjectUsage(OTHER, "Other (" + Decimal(|sorted| - limit.max) + " projects)", rest)];
    }
  }
}
