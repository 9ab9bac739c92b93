/** Usage from transcripts: files parsed one by one, cached, merged and rolled up. */
module UsageFiles {
  import opened Seqs
  import opened Sums
  import opened Texts

  // ---------------------------------------------------------------------------
  // Calls
  // ---------------------------------------------------------------------------

  datatype Counts = Counts(calls: int, input: int, output: int, cacheRead: int, cacheCreate: int)

  const NONE := Counts(0, 0, 0, 0, 0)

  function Plus(a: Counts, b: Counts): Counts {
    Counts(a.calls + b.calls, a.input + b.input, a.output + b.output, a.cacheRead + b.cacheRead,
           a.cacheCreate + b.cacheCreate)
  }

  const COUNTS := Addition(NONE, Plus)

  lemma CountsAreLawful()
    ensures Lawful(COUNTS)
  {
  }

  /** A line the parser skips, or an assistant's entry with its usage. An absent text is empty, an absent count zero. */
  datatype Line =
    | Skipped
    | Entry(sessionId: string, model: string, timestamp: string, input: int, output: int, cacheRead: int,
            cacheCreate: int)

  datatype Call = Call(sessionId: string, model: string, timestamp: string, counts: Counts)

  function OrUnknown(text: string): string {
    if text == "" then "unknown" else text
  }

  function CallOf(e: Line): Call
    requires e.Entry?
  {
    Call(OrUnknown(e.sessionId), OrUnknown(e.model), e.timestamp,
         Counts(1, e.input, e.output, e.cacheRead, e.cacheCreate))
  }

  function CallsOf(lines: seq<Line>): seq<Call> {
    if lines == [] then []
    else
      var last := lines[|lines| - 1];
      CallsOf(lines[..|lines| - 1]) + if last.Entry? then [CallOf(last)] else []
  }

  lemma {:induction false} CallsOfConcat(a: seq<Line>, b: seq<Line>)
    ensures CallsOf(a + b) == CallsOf(a) + CallsOf(b)
  {
    if b == [] {
      assert a + b == a;
    } else {
      assert (a + b)[..|a + b| - 1] == a + b[..|b| - 1];
      CallsOfConcat(a, b[..|b| - 1]);
    }
  }

  // ---------------------------------------------------------------------------
  // The usage of a session
  // ---------------------------------------------------------------------------

  datatype Usage = Usage(counts: Counts, model: string, startedAt: string, lastCallAt: string)

  function Earlier(started: string, t: string): string {
    if started == "" || Less(t, started) then t else started
  }

  function Later(last: string, t: string): string {
    if last == "" || Less(last, t) then t else last
  }

  function Known(model: string, next: string): string {
    if next != "unknown" then next else model
  }

  /** What the parser does with one more call of a session. */
  function Extend(u: Usage, c: Call): Usage {
    Usage(Plus(u.counts, c.counts), Known(u.model, c.model), Earlier(u.startedAt, c.timestamp),
          Later(u.lastCallAt, c.timestamp))
  }

  /** What the merge does with the same session of one more file. */
  function Merge(u: Usage, v: Usage): Usage {
    Usage(Plus(u.counts, v.counts), Known(u.model, v.model),
          if Less(v.startedAt, u.startedAt) then v.startedAt else u.startedAt,
          if Less(u.lastCallAt, v.lastCallAt) then v.lastCallAt else u.lastCallAt)
  }

  const BY_SESSION: Grouping<Call, string, Counts> := Grouping(COUNTS, (c: Call) => c.sessionId, (c: Call) => c.counts)

  /** The last model that is known. */
  function LastKnown(cs: seq<Call>): string {
    if cs == [] then "unknown" else Known(LastKnown(cs[..|cs| - 1]), cs[|cs| - 1].model)
  }

  function Started(cs: seq<Call>): string {
    if cs == [] then "" else Earlier(Started(cs[..|cs| - 1]), cs[|cs| - 1].timestamp)
  }

  function Latest(cs: seq<Call>): string {
    if cs == [] then "" else Later(Latest(cs[..|cs| - 1]), cs[|cs| - 1].timestamp)
  }

  function UsageOf(cs: seq<Call>): Usage {
    Usage(Total(BY_SESSION, cs), LastKnown(cs), Started(cs), Latest(cs))
  }

  lemma UsageOfSnoc(cs: seq<Call>, c: Call)
    ensures UsageOf(cs + [c]) == Extend(UsageOf(cs), c)
  {
    assert (cs + [c])[..|cs|] == cs;
  }

  ghost predicate Timed(cs: seq<Call>) {
    forall c :: c in cs ==> c.timestamp != ""
  }

  function Max(s: string, t: string): string {
    if Less(s, t) then t else s
  }

  lemma LatestSnoc(cs: seq<Call>, c: Call)
    ensures Latest(cs + [c]) == Later(Latest(cs), c.timestamp)
  {
    assert (cs + [c])[..|cs|] == cs;
  }

  ghost predicate LatestOf(last: string, cs: seq<Call>) {
    && (exists c :: c in cs && c.timestamp == last)
    && (forall c :: c in cs ==> Leq(c.timestamp, last))
  }

  lemma LatestOfSnoc(last: string, cs: seq<Call>, c: Call)
    requires LatestOf(last, cs)
    ensures LatestOf(Max(last, c.timestamp), cs + [c])
  {
    hide Leq;
    LeqTotal(last, c.timestamp);
    LeqTotal(c.timestamp, c.timestamp);
    assert c in cs + [c] && forall x :: x in cs ==> x in cs + [c];
    if Less(last, c.timestamp) {
      forall x | x in cs ensures Leq(x.timestamp, c.timestamp) { LeqTransitive(x.timestamp, last, c.timestamp); }
    }
  }

  lemma LatestOne(c: Call)
    ensures LatestOf(Latest([c]), [c])
  {
    LeqTotal(c.timestamp, c.timestamp);
    assert Latest([c]) == c.timestamp && c in [c];
  }

  lemma LaterIsMax(s: string, t: string)
    ensures Later(s, t) == Max(s, t)
  {
  }

  /** The latest timestamp is one of them, and no other is later. */
  lemma {:induction false} LatestIsLatest(cs: seq<Call>)
    requires cs != []
    ensures LatestOf(Latest(cs), cs)
  {
    hide LatestOf, Latest, Later, Max;
    var front, last := cs[..|cs| - 1], cs[|cs| - 1];
    assert cs == front + [last];
    if front == [] {
      assert cs == [last];
      LatestOne(last);
    } else {
      LatestIsLatest(front);
      LatestSnoc(front, last);
      LaterIsMax(Latest(front), last.timestamp);
      LatestOfSnoc(Latest(front), front, last);
    }
  }

  function Min(s: string, t: string): string {
    if Less(t, s) then t else s
  }

  lemma TimedSnoc(cs: seq<Call>, c: Call)
    ensures Timed(cs + [c]) <==> Timed(cs) && c.timestamp != ""
  {
    assert c in cs + [c] && forall x :: x in cs ==> x in cs + [c];
  }

  lemma StartedSnoc(cs: seq<Call>, c: Call)
    ensures Started(cs + [c]) == Earlier(Started(cs), c.timestamp)
  {
    assert (cs + [c])[..|cs|] == cs;
  }

  ghost predicate EarliestOf(started: string, cs: seq<Call>) {
    && (exists c :: c in cs && c.timestamp == started)
    && (forall c :: c in cs ==> Leq(started, c.timestamp))
  }

  lemma EarliestSnoc(started: string, cs: seq<Call>, c: Call)
    requires EarliestOf(started, cs)
    ensures EarliestOf(Min(started, c.timestamp), cs + [c])
  {
    hide Leq;
    LeqTotal(started, c.timestamp);
    LeqTotal(c.timestamp, c.timestamp);
    assert c in cs + [c] && forall x :: x in cs ==> x in cs + [c];
    if Less(c.timestamp, started) {
      forall x | x in cs ensures Leq(c.timestamp, x.timestamp) { LeqTransitive(c.timestamp, started, x.timestamp); }
    }
  }

  lemma EarliestOne(c: Call)
    ensures EarliestOf(Started([c]), [c]) && Started([c]) == c.timestamp
  {
    LeqTotal(c.timestamp, c.timestamp);
    assert Started([c]) == c.timestamp && c in [c];
  }

  lemma EarlierIsMin(s: string, t: string)
    requires s != "" && t != ""
    ensures Earlier(s, t) == Min(s, t) && Min(s, t) != ""
  {
  }

  /** When every call has a timestamp, the start is the earliest of them. */
  lemma {:induction false} StartedIsEarliest(cs: seq<Call>)
    requires cs != [] && Timed(cs)
    ensures EarliestOf(Started(cs), cs) && Started(cs) != ""
  {
    hide EarliestOf, Started, Timed, Earlier, Min;
    var front, last := cs[..|cs| - 1], cs[|cs| - 1];
    assert cs == front + [last];
    TimedSnoc(front, last);
    if front == [] {
      assert cs == [last];
      EarliestOne(last);
    } else {
      StartedIsEarliest(front);
      StartedSnoc(front, last);
      EarlierIsMin(Started(front), last.timestamp);
      EarliestSnoc(Started(front), front, last);
    }
  }

  // ---------------------------------------------------------------------------
  // Two runs of calls
  // ---------------------------------------------------------------------------

  lemma {:induction false} LastKnownConcat(a: seq<Call>, b: seq<Call>)
    ensures LastKnown(a + b) == Known(LastKnown(a), LastKnown(b))
  {
    if b == [] {
      assert a + b == a;
    } else {
      assert (a + b)[..|a + b| - 1] == a + b[..|b| - 1];
      LastKnownConcat(a, b[..|b| - 1]);
    }
  }

  /** The model of a session: of the last of its calls whose model is known, or unknown if none is. */
  ghost predicate IsModelOf(model: string, cs: seq<Call>) {
    if forall c :: c in cs ==> c.model == "unknown" then model == "unknown"
    else exists i :: IsLastKnown(cs, i) && cs[i].model == model
  }

  ghost predicate IsLastKnown(cs: seq<Call>, i: int) {
    && 0 <= i < |cs| && cs[i].model != "unknown"
    && forall j :: i < j < |cs| ==> cs[j].model == "unknown"
  }

  lemma {:induction false} ModelIsLastKnown(cs: seq<Call>)
    ensures IsModelOf(UsageOf(cs).model, cs)
    ensures UsageOf(cs).model == "unknown" <==> forall c :: c in cs ==> c.model == "unknown"
  {
    if cs != [] {
      var front, last := cs[..|cs| - 1], cs[|cs| - 1];
      assert cs == front + [last];
      ModelIsLastKnown(front);
      hide Total, Started, Latest;
      assert last in cs && forall c :: c in front ==> c in cs;
      if last.model != "unknown" {
        assert IsLastKnown(cs, |front|);
      } else if !(forall c :: c in front ==> c.model == "unknown") {
        var i :| IsLastKnown(front, i) && front[i].model == UsageOf(front).model;
        assert IsLastKnown(cs, i) && cs[i].model == UsageOf(cs).model;
      }
    }
  }

  lemma MaxAssociates(s: string, t: string, u: string)
    ensures Max(Max(s, t), u) == Max(s, Max(t, u))
  {
    hide Leq;
    LeqTotal(s, t);
    LeqTotal(t, u);
    LeqTotal(s, u);
    if Leq(s, t) && Leq(t, u) { LeqTransitive(s, t, u); }
    if Leq(u, t) && Leq(t, s) { LeqTransitive(u, t, s); }
    if Leq(s, u) && Leq(u, s) { LeqAntisymmetric(s, u); }
    if Leq(t, u) && Leq(u, t) { LeqAntisymmetric(t, u); }
    if Leq(s, t) && Leq(t, s) { LeqAntisymmetric(s, t); }
  }

  lemma {:induction false} LatestConcat(a: seq<Call>, b: seq<Call>)
    ensures Latest(a + b) == Max(Latest(a), Latest(b))
  {
    if b == [] {
      assert a + b == a;
    } else {
      assert (a + b)[..|a + b| - 1] == a + b[..|b| - 1];
      LatestConcat(a, b[..|b| - 1]);
      MaxAssociates(Latest(a), Latest(b[..|b| - 1]), b[|b| - 1].timestamp);
    }
  }

  lemma MinAssociates(s: string, t: string, u: string)
    ensures Min(Min(s, t), u) == Min(s, Min(t, u))
  {
    hide Leq;
    LeqTotal(s, t);
    LeqTotal(t, u);
    LeqTotal(s, u);
    if Leq(s, t) && Leq(t, u) { LeqTransitive(s, t, u); }
    if Leq(u, t) && Leq(t, s) { LeqTransitive(u, t, s); }
    if Leq(s, u) && Leq(u, s) { LeqAntisymmetric(s, u); }
    if Leq(t, u) && Leq(u, t) { LeqAntisymmetric(t, u); }
    if Leq(s, t) && Leq(t, s) { LeqAntisymmetric(s, t); }
  }

  lemma EmptyIsLeast(s: string, t: string)
    ensures Min(s, "") == "" && Min("", s) == ""
    ensures Min(s, t) == "" <==> s == "" || t == ""
  {
  }

  /** The start of one run of calls after another: a call without timestamp makes the parser forget the start it had. */
  function Resumed(before: string, timed: bool, after: string): string {
    if !timed || before == "" then after else Min(before, after)
  }

  lemma ResumedEarlier(s: string, timed: bool, u: string, t: string)
    requires timed ==> u != ""
    ensures Earlier(Resumed(s, timed, u), t) == Resumed(s, timed && t != "", Earlier(u, t))
    ensures timed && t != "" ==> Earlier(u, t) != ""
  {
    hide Leq;
    MinAssociates(s, u, t);
    EmptyIsLeast(t, u);
    EmptyIsLeast(s, u);
  }

  lemma StartedOne(a: seq<Call>, c: Call)
    ensures Started(a + [c]) == Resumed(Started(a), Timed([c]), Started([c]))
    ensures Timed([c]) ==> Started([c]) != ""
  {
    StartedSnoc(a, c);
    EarliestOne(c);
    TimedSnoc([], c);
    assert [] + [c] == [c];
    EmptyIsLeast(Started(a), "");
    hide Leq, Started, Timed;
  }

  lemma {:induction false} StartedConcat(a: seq<Call>, b: seq<Call>)
    requires b != []
    ensures Started(a + b) == Resumed(Started(a), Timed(b), Started(b))
    ensures Timed(b) ==> Started(b) != ""
  {
    hide Started, Timed, Earlier, Resumed;
    var front, last := b[..|b| - 1], b[|b| - 1];
    if front == [] {
      assert b == [last];
      StartedOne(a, last);
    } else {
      assert b == front + [last] && a + b == a + front + [last];
      StartedConcat(a, front);
      StartedSnoc(a + front, last);
      StartedSnoc(front, last);
      TimedSnoc(front, last);
      ResumedEarlier(Started(a), Timed(front), Started(front), last.timestamp);
    }
  }

  /** All but the start. */
  predicate AgreeButStart(u: Usage, v: Usage) {
    u.counts == v.counts && u.model == v.model && u.lastCallAt == v.lastCallAt
  }

  /** Merging two files' usage of a session is the usage of both runs of calls, but for the start;
      and the start exactly when the later run has all its timestamps after a known start, or starts no later. */
  lemma MergeIsUsageOfBoth(a: seq<Call>, b: seq<Call>)
    requires a != [] && b != []
    ensures AgreeButStart(Merge(UsageOf(a), UsageOf(b)), UsageOf(a + b))
    ensures Merge(UsageOf(a), UsageOf(b)) == UsageOf(a + b)
            <==> (Timed(b) && Started(a) != "") || Leq(Started(b), Started(a))
  {
    CountsAreLawful();
    hide Leq, Started, Latest, LastKnown, Total;
    TotalConcat(BY_SESSION, a, b);
    LastKnownConcat(a, b);
    LatestConcat(a, b);
    StartedConcat(a, b);
    LeqTotal(Started(a), Started(b));
    if Leq(Started(a), Started(b)) && Leq(Started(b), Started(a)) { LeqAntisymmetric(Started(a), Started(b)); }
  }

  /** The start can differ: after a call without timestamp the parser takes the next start, the merge does not. */
  lemma MergeCanDiffer()
    ensures exists d: Line, e: Line :: d.Entry? && e.Entry? && CallOf(d).sessionId == CallOf(e).sessionId
              && Merge(UsageOf([CallOf(d)]), UsageOf([CallOf(e)])) != UsageOf([CallOf(d)] + [CallOf(e)])
  {
    var d, e := Entry("s", "m", "", 1, 1, 0, 0), Entry("s", "m", "t", 1, 1, 0, 0);
    var a, b := [CallOf(d)], [CallOf(e)];
    assert Started(a) == "" && Started(b) == "t";
    MergeIsUsageOfBoth(a, b);
  }

  // ---------------------------------------------------------------------------
  // What one file holds
  // ---------------------------------------------------------------------------

  function AddCall(m: map<string, Usage>, c: Call): map<string, Usage> {
    m[c.sessionId := Extend(if c.sessionId in m then m[c.sessionId] else Fresh(c), c)]
  }

  /** A session as the parser first enters it. */
  function Fresh(c: Call): Usage {
    Usage(NONE, c.model, c.timestamp, c.timestamp)
  }

  function Sessions(cs: seq<Call>): map<string, Usage> {
    if cs == [] then map[] else AddCall(Sessions(cs[..|cs| - 1]), cs[|cs| - 1])
  }

  lemma SessionsSnoc(cs: seq<Call>, c: Call)
    ensures Sessions(cs + [c]) == AddCall(Sessions(cs), c)
  {
    assert (cs + [c])[..|cs|] == cs;
  }

  lemma FirstCall(c: Call)
    ensures Extend(Fresh(c), c) == UsageOf([c])
  {
    UsageOfSnoc([], c);
    assert [] + [c] == [c];
  }

  /** The parsed sessions are those that occur, each with the usage of exactly its own calls. */
  lemma {:induction false} SessionsAreExact(cs: seq<Call>, sid: string)
    ensures sid in Sessions(cs) <==> Those(BY_SESSION, cs, sid) != []
    ensures sid in Sessions(cs) ==> Sessions(cs)[sid] == UsageOf(Those(BY_SESSION, cs, sid))
  {
    if cs != [] {
      var front, c := cs[..|cs| - 1], cs[|cs| - 1];
      assert cs == front + [c];
      hide Sessions, Those, UsageOf, Extend, Fresh;
      SessionsAreExact(front, sid);
      SessionsSnoc(front, c);
      ThoseSnoc(BY_SESSION, front, c, sid);
      UsageOfSnoc(Those(BY_SESSION, front, sid), c);
      FirstCall(c);
      assert [] + [c] == [c];
    }
  }

  predicate Dated(c: Call) {
    |c.timestamp| >= 10
  }

  const BY_DAY: Grouping<Call, string, Counts> :=
    Grouping(COUNTS, (c: Call) => if Dated(c) then c.timestamp[..10] else "", (c: Call) => c.counts)

  function DatedCalls(cs: seq<Call>): seq<Call> {
    if cs == [] then []
    else DatedCalls(cs[..|cs| - 1]) + if Dated(cs[|cs| - 1]) then [cs[|cs| - 1]] else []
  }

  lemma {:induction false} DatedConcat(a: seq<Call>, b: seq<Call>)
    ensures DatedCalls(a + b) == DatedCalls(a) + DatedCalls(b)
  {
    if b == [] {
      assert a + b == a;
    } else {
      assert (a + b)[..|a + b| - 1] == a + b[..|b| - 1];
      DatedConcat(a, b[..|b| - 1]);
    }
  }

  /** The daily counts of a file. */
  function Days(cs: seq<Call>): map<string, Counts> {
    Grouped(BY_DAY, DatedCalls(cs))
  }

  // ---------------------------------------------------------------------------
  // Merging files
  // ---------------------------------------------------------------------------

  function Merged<T>(merge: (T, T) -> T, m: map<string, T>, n: map<string, T>): map<string, T> {
    map k | k in m.Keys + n.Keys :: if k !in m then n[k] else if k !in n then m[k] else merge(m[k], n[k])
  }

  /** The sessions of all files, each parsed on its own. */
  function AllSessions(files: seq<seq<Call>>): map<string, Usage> {
    if files == [] then map[]
    else Merged(Merge, AllSessions(files[..|files| - 1]), Sessions(files[|files| - 1]))
  }

  function AllDays(files: seq<seq<Call>>): map<string, Counts> {
    if files == [] then map[] else Merged(Plus, AllDays(files[..|files| - 1]), Days(files[|files| - 1]))
  }

  ghost predicate Agree(m: map<string, Usage>, n: map<string, Usage>) {
    m.Keys == n.Keys && forall k :: k in m ==> AgreeButStart(m[k], n[k])
  }

  lemma MergedSession(a: seq<Call>, b: seq<Call>, sid: string)
    ensures var m := Merged(Merge, Sessions(a), Sessions(b));
              && (sid in m <==> sid in Sessions(a + b))
              && (sid in m ==> AgreeButStart(m[sid], Sessions(a + b)[sid]))
              && (sid in m && Timed(a) && Timed(b) ==> m[sid] == Sessions(a + b)[sid])
  {
    SessionsAreExact(a, sid);
    SessionsAreExact(b, sid);
    SessionsAreExact(a + b, sid);
    ThoseConcat(BY_SESSION, a, b, sid);
    var aa, bb := Those(BY_SESSION, a, sid), Those(BY_SESSION, b, sid);
    assert [] + bb == bb && aa + [] == aa;
    ThoseAreTimed(a, sid);
    ThoseAreTimed(b, sid);
    hide Sessions, Those, UsageOf, Timed, Leq;
    if aa != [] && bb != [] {
      MergeIsUsageOfBoth(aa, bb);
      if Timed(a) && Timed(b) { TimedStarts(aa, bb); }
    }
  }

  lemma {:induction false} ThoseAreTimed(cs: seq<Call>, sid: string)
    ensures Timed(cs) ==> Timed(Those(BY_SESSION, cs, sid))
  {
    if cs != [] && Timed(cs) {
      var front, c := cs[..|cs| - 1], cs[|cs| - 1];
      assert cs == front + [c];
      TimedSnoc(front, c);
      ThoseAreTimed(front, sid);
      TimedSnoc(Those(BY_SESSION, front, sid), c);
    }
  }

  lemma TimedStarts(a: seq<Call>, b: seq<Call>)
    requires a != [] && b != [] && Timed(a) && Timed(b)
    ensures Merge(UsageOf(a), UsageOf(b)) == UsageOf(a + b)
  {
    MergeIsUsageOfBoth(a, b);
    StartedIsEarliest(a);
  }

  lemma MergedSessions(a: seq<Call>, b: seq<Call>)
    ensures Agree(Merged(Merge, Sessions(a), Sessions(b)), Sessions(a + b))
    ensures Timed(a) && Timed(b) ==> Merged(Merge, Sessions(a), Sessions(b)) == Sessions(a + b)
  {
    var m, n := Merged(Merge, Sessions(a), Sessions(b)), Sessions(a + b);
    hide Merged, Sessions, Merge, AgreeButStart, Timed;
    forall sid
      ensures sid in m <==> sid in n
      ensures sid in m ==> AgreeButStart(m[sid], n[sid])
      ensures sid in m && Timed(a) && Timed(b) ==> m[sid] == n[sid]
    {
      MergedSession(a, b, sid);
    }
  }

  lemma MergeKeepsAgreement(m: map<string, Usage>, n: map<string, Usage>, p: map<string, Usage>)
    requires Agree(m, n)
    ensures Agree(Merged(Merge, m, p), Merged(Merge, n, p))
  {
    hide Leq;
  }

  lemma MergedDays(a: seq<Call>, b: seq<Call>)
    ensures Merged(Plus, Days(a), Days(b)) == Days(a + b)
  {
    DatedConcat(a, b);
    MergedGroups(BY_DAY, DatedCalls(a), DatedCalls(b));
  }

  lemma MergedGroups(g: Grouping<Call, string, Counts>, a: seq<Call>, b: seq<Call>)
    requires g.add == COUNTS
    ensures Merged(Plus, Grouped(g, a), Grouped(g, b)) == Grouped(g, a + b)
  {
    var m, n := Merged(Plus, Grouped(g, a), Grouped(g, b)), Grouped(g, a + b);
    hide Grouped, Merged, Plus;
    forall k
      ensures k in m <==> k in n
      ensures k in m ==> m[k] == n[k]
    {
      MergedGroup(g, a, b, k);
    }
  }

  lemma MergedGroup(g: Grouping<Call, string, Counts>, a: seq<Call>, b: seq<Call>, k: string)
    requires g.add == COUNTS
    ensures var m, n := Merged(Plus, Grouped(g, a), Grouped(g, b)), Grouped(g, a + b);
              (k in m <==> k in n) && (k in m ==> m[k] == n[k])
  {
    CountsAreLawful();
    hide Lawful, Grouped, Those, Total, Plus;
    GroupIsTotalOfThose(g, a, k);
    GroupIsTotalOfThose(g, b, k);
    GroupIsTotalOfThose(g, a + b, k);
    ThoseConcat(g, a, b, k);
    var aa, bb := Those(g, a, k), Those(g, b, k);
    assert [] + bb == bb && aa + [] == aa;
    TotalConcat(g, aa, bb);
  }

  lemma {:induction false} CallsCompose(files: seq<seq<Call>>)
    ensures Agree(AllSessions(files), Sessions(Flatten(files)))
    ensures Timed(Flatten(files)) ==> AllSessions(files) == Sessions(Flatten(files))
    ensures AllDays(files) == Days(Flatten(files))
  {
    if files != [] {
      var front, last := files[..|files| - 1], files[|files| - 1];
      CallsCompose(front);
      MergeKeepsAgreement(AllSessions(front), Sessions(Flatten(front)), Sessions(last));
      MergedSessions(Flatten(front), last);
      MergedDays(Flatten(front), last);
      TimedParts(Flatten(front), last);
    }
  }

  /** However the files are cut, the model of a merged session is that of the last of its calls whose model is known. */
  lemma MergedModelIsLastKnown(files: seq<seq<Call>>, sid: string)
    ensures sid in AllSessions(files) ==>
              IsModelOf(AllSessions(files)[sid].model, Those(BY_SESSION, Flatten(files), sid))
  {
    CallsCompose(files);
    SessionsAreExact(Flatten(files), sid);
    ModelIsLastKnown(Those(BY_SESSION, Flatten(files), sid));
    hide AllSessions, Sessions, Flatten, Those, IsModelOf, AllDays, Days, UsageOf;
  }

  /** The calls of each file. */
  function CallsOfEach(files: seq<seq<Line>>): seq<seq<Call>> {
    if files == [] then [] else CallsOfEach(files[..|files| - 1]) + [CallsOf(files[|files| - 1])]
  }

  lemma {:induction false} CallsOfFlattened(files: seq<seq<Line>>)
    ensures Flatten(CallsOfEach(files)) == CallsOf(Flatten(files))
  {
    if files != [] {
      var front, last := files[..|files| - 1], files[|files| - 1];
      CallsOfFlattened(front);
      FlattenSnoc(CallsOfEach(front), CallsOf(last));
      CallsOfConcat(Flatten(front), last);
    }
  }

  /** Parsing the lines of each file and merging is parsing the lines of the concatenated files: always but for the
      starts of sessions, and altogether when every call has a timestamp. */
  lemma FilesCompose(files: seq<seq<Line>>)
    ensures Agree(AllSessions(CallsOfEach(files)), Sessions(CallsOf(Flatten(files))))
    ensures Timed(CallsOf(Flatten(files))) ==> AllSessions(CallsOfEach(files)) == Sessions(CallsOf(Flatten(files)))
    ensures AllDays(CallsOfEach(files)) == Days(CallsOf(Flatten(files)))
  {
    CallsOfFlattened(files);
    hide AllSessions, AllDays, Sessions, Days, CallsOf, Timed, Agree;
    CallsCompose(CallsOfEach(files));
  }

  lemma TimedParts(a: seq<Call>, b: seq<Call>)
    ensures Timed(a + b) ==> Timed(a) && Timed(b)
  {
    assert forall c :: c in a || c in b ==> c in a + b;
  }

  // ---------------------------------------------------------------------------
  // Totals
  // ---------------------------------------------------------------------------

  function CountsIn(m: map<string, Usage>): map<string, Counts> {
    map k | k in m :: m[k].counts
  }

  lemma SessionCountsAreGroups(cs: seq<Call>)
    ensures CountsIn(Sessions(cs)) == Grouped(BY_SESSION, cs)
  {
    forall k
      ensures k in Sessions(cs) <==> k in Grouped(BY_SESSION, cs)
      ensures k in Sessions(cs) ==> Sessions(cs)[k].counts == Grouped(BY_SESSION, cs)[k]
    {
      SessionsAreExact(cs, k);
      GroupIsTotalOfThose(BY_SESSION, cs, k);
    }
  }

  lemma AgreeingCounts(m: map<string, Usage>, n: map<string, Usage>)
    requires Agree(m, n)
    ensures CountsIn(m) == CountsIn(n)
  {
  }

  /** Over all sessions of all files, the counts add up to those of all calls. */
  lemma SessionsSumToCalls(files: seq<seq<Call>>)
    ensures Sum(COUNTS, CountsIn(AllSessions(files))) == Total(BY_SESSION, Flatten(files))
  {
    CountsAreLawful();
    CallsCompose(files);
    AgreeingCounts(AllSessions(files), Sessions(Flatten(files)));
    SessionCountsAreGroups(Flatten(files));
    GroupsSumToTotal(BY_SESSION, Flatten(files));
  }

  ghost predicate CountedOnce(cs: seq<Call>) {
    forall c :: c in cs ==> c.counts.calls == 1
  }

  lemma {:induction false} CallsAreCountedOnce(lines: seq<Line>)
    ensures CountedOnce(CallsOf(lines))
  {
    if lines != [] { CallsAreCountedOnce(lines[..|lines| - 1]); }
  }

  lemma DatedSnoc(cs: seq<Call>, c: Call)
    ensures DatedCalls(cs + [c]) == if Dated(c) then DatedCalls(cs) + [c] else DatedCalls(cs)
    ensures (forall x :: x in cs + [c] ==> Dated(x)) <==> Dated(c) && forall x :: x in cs ==> Dated(x)
    ensures CountedOnce(cs + [c]) <==> CountedOnce(cs) && c.counts.calls == 1
  {
    assert (cs + [c])[..|cs|] == cs;
    assert c in cs + [c] && forall x :: x in cs ==> x in cs + [c];
  }

  lemma {:induction false} DatedTotal(cs: seq<Call>)
    requires CountedOnce(cs)
    ensures Total(BY_DAY, DatedCalls(cs)).calls <= |cs| == Total(BY_SESSION, cs).calls
    ensures Total(BY_DAY, DatedCalls(cs)).calls == |cs| <==> forall c :: c in cs ==> Dated(c)
    ensures Total(BY_DAY, DatedCalls(cs)).calls == |cs| ==> Total(BY_DAY, DatedCalls(cs)) == Total(BY_SESSION, cs)
  {
    if cs != [] {
      var front, c := cs[..|cs| - 1], cs[|cs| - 1];
      assert cs == front + [c];
      DatedSnoc(front, c);
      DatedTotal(front);
      hide Total, Dated, DatedCalls, CountedOnce;
      TotalSnoc(BY_SESSION, front, c);
      TotalSnoc(BY_DAY, DatedCalls(front), c);
    }
  }

  /** The days add up to the sessions exactly when every call's timestamp has at least ten characters. */
  lemma DaysSumToSessions(files: seq<seq<Line>>)
    ensures Sum(COUNTS, AllDays(CallsOfEach(files))) == Sum(COUNTS, CountsIn(AllSessions(CallsOfEach(files))))
            <==> forall c :: c in CallsOf(Flatten(files)) ==> Dated(c)
  {
    var calls := CallsOf(Flatten(files));
    CallsOfFlattened(files);
    CallsAreCountedOnce(Flatten(files));
    CountsAreLawful();
    hide Sum, Total, CallsOf, AllDays, AllSessions, Lawful, CountedOnce, Grouped;
    SessionsSumToCalls(CallsOfEach(files));
    FilesCompose(files);
    GroupsSumToTotal(BY_DAY, DatedCalls(calls));
    DatedTotal(calls);
  }

  /** One call without a date is in no day. */
  lemma UndatedCallIsInNoDay()
    ensures var files := [[Entry("s", "m", "", 1, 1, 0, 0)]];
              Sum(COUNTS, AllDays(CallsOfEach(files))) != Sum(COUNTS, CountsIn(AllSessions(CallsOfEach(files))))
  {
    var line := Entry("s", "m", "", 1, 1, 0, 0);
    assert Flatten([[line]]) == [line] by { FlattenSnoc([], [line]); }
    assert CallsOf([line]) == [CallOf(line)] by { assert [line][..0] == []; }
    assert CallOf(line) in [CallOf(line)] && !Dated(CallOf(line));
    hide Sum, AllDays, AllSessions, CallsOfEach;
    DaysSumToSessions([[line]]);
  }
}
