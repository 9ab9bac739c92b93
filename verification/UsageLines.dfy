/** What the usage of a transcript is, told from its lines alone. */
module UsageLines {
  import opened Sums
  import opened UsageFiles

  // ---------------------------------------------------------------------------
  // Sums over lines
  // ---------------------------------------------------------------------------

  predicate OfSession(l: Line, sid: string) {
    l.Entry? && (if l.sessionId == "" then sid == "unknown" else l.sessionId == sid)
  }

  /** A line without a date belongs to no day. */
  predicate OfDay(l: Line, date: string) {
    l.Entry? && |l.timestamp| >= 10 && l.timestamp[..10] == date
  }

  function Input(l: Line): int {
    if l.Entry? then l.input else 0
  }

  function Output(l: Line): int {
    if l.Entry? then l.output else 0
  }

  function CacheRead(l: Line): int {
    if l.Entry? then l.cacheRead else 0
  }

  function CacheCreate(l: Line): int {
    if l.Entry? then l.cacheCreate else 0
  }

  /** The counts are those of the lines for which `of` holds: one call each, and the sums of their tokens. */
  ghost predicate TellsLines(c: Counts, lines: seq<Line>, of: Line -> bool) {
    && c.calls == SumWhere(lines, of, (l: Line) => 1)
    && c.input == SumWhere(lines, of, Input) && c.output == SumWhere(lines, of, Output)
    && c.cacheRead == SumWhere(lines, of, CacheRead) && c.cacheCreate == SumWhere(lines, of, CacheCreate)
  }

  lemma TellsSnoc(c: Counts, lines: seq<Line>, l: Line, of: Line -> bool)
    requires TellsLines(c, lines, of)
    ensures !of(l) ==> TellsLines(c, lines + [l], of)
    ensures of(l) && l.Entry? ==> TellsLines(Plus(c, CallOf(l).counts), lines + [l], of)
  {
    SumWhereSnoc(lines, l, of, (l: Line) => 1);
    SumWhereSnoc(lines, l, of, Input);
    SumWhereSnoc(lines, l, of, Output);
    SumWhereSnoc(lines, l, of, CacheRead);
    SumWhereSnoc(lines, l, of, CacheCreate);
    hide SumWhere;
  }

  lemma TellsNothing(of: Line -> bool)
    ensures TellsLines(NONE, [], of)
  {
  }

  lemma {:induction false} NoSuchLine(lines: seq<Line>, of: Line -> bool)
    requires forall l :: l in lines ==> !of(l)
    ensures TellsLines(NONE, lines, of)
  {
    if lines != [] {
      var front, l := lines[..|lines| - 1], lines[|lines| - 1];
      assert lines == front + [l] && l in lines;
      NoSuchLine(front, of);
      TellsSnoc(NONE, front, l, of);
    }
  }

  lemma CallsOfSnoc(lines: seq<Line>, l: Line)
    ensures CallsOf(lines + [l]) == CallsOf(lines) + if l.Entry? then [CallOf(l)] else []
  {
    assert (lines + [l])[..|lines|] == lines;
  }

  // ---------------------------------------------------------------------------
  // Sessions and days
  // ---------------------------------------------------------------------------

  /** The sessions of a file are those of its lines, each with the calls and tokens of its own lines. */
  lemma {:induction false} SessionsTellLines(lines: seq<Line>, sid: string)
    ensures var sessions := Sessions(CallsOf(lines));
              && (sid in sessions <==> exists l :: l in lines && OfSession(l, sid))
              && (sid in sessions ==> TellsLines(sessions[sid].counts, lines, (l: Line) => OfSession(l, sid)))
  {
    if lines != [] {
      var front, l := lines[..|lines| - 1], lines[|lines| - 1];
      assert lines == front + [l];
      SessionsTellLines(front, sid);
      CallsOfSnoc(front, l);
      OneMoreLine(front, l, sid);
    }
  }

  lemma OneMoreLine(front: seq<Line>, l: Line, sid: string)
    requires sid in Sessions(CallsOf(front)) <==> exists l :: l in front && OfSession(l, sid)
    requires sid in Sessions(CallsOf(front)) ==>
               TellsLines(Sessions(CallsOf(front))[sid].counts, front, (l: Line) => OfSession(l, sid))
    ensures var sessions := Sessions(CallsOf(front + [l]));
              && (sid in sessions <==> exists m :: m in front + [l] && OfSession(m, sid))
              && (sid in sessions ==> TellsLines(sessions[sid].counts, front + [l], (l: Line) => OfSession(l, sid)))
  {
    var of := (l: Line) => OfSession(l, sid);
    var lines := front + [l];
    CallsOfSnoc(front, l);
    assert CallsOf(front) + [] == CallsOf(front);
    assert forall m :: m in lines <==> m in front || m == l;
    assert OfSession(l, sid) <==> l.Entry? && CallOf(l).sessionId == sid;
    if l.Entry? { SessionsSnoc(CallsOf(front), CallOf(l)); }
    hide Sessions, CallsOf, OfSession;
    if sid in Sessions(CallsOf(front)) {
      hide TellsLines;
      TellsSnoc(Sessions(CallsOf(front))[sid].counts, front, l, of);
    } else {
      NoSuchLine(front, of);
      hide TellsLines;
      TellsSnoc(NONE, front, l, of);
    }
  }

  /** So are its days. */
  lemma {:induction false} DaysTellLines(lines: seq<Line>, date: string)
    ensures var days := Days(CallsOf(lines));
              && (date in days <==> exists l :: l in lines && OfDay(l, date))
              && TellsLines(Get(COUNTS, days, date), lines, (l: Line) => OfDay(l, date))
  {
    if lines != [] {
      var front, l := lines[..|lines| - 1], lines[|lines| - 1];
      assert lines == front + [l];
      DaysTellLines(front, date);
      OneMoreDatedLine(front, l, date);
    }
  }

  lemma OneMoreDatedLine(front: seq<Line>, l: Line, date: string)
    requires date in Days(CallsOf(front)) <==> exists l :: l in front && OfDay(l, date)
    requires TellsLines(Get(COUNTS, Days(CallsOf(front)), date), front, (l: Line) => OfDay(l, date))
    ensures var days := Days(CallsOf(front + [l]));
              && (date in days <==> exists m :: m in front + [l] && OfDay(m, date))
              && TellsLines(Get(COUNTS, days, date), front + [l], (l: Line) => OfDay(l, date))
  {
    var of := (l: Line) => OfDay(l, date);
    var lines := front + [l];
    CallsOfSnoc(front, l);
    assert CallsOf(front) + [] == CallsOf(front);
    assert forall m :: m in lines <==> m in front || m == l;
    TellsSnoc(Get(COUNTS, Days(CallsOf(front)), date), front, l, of);
    if l.Entry? {
      DaysSnoc(CallsOf(front), CallOf(l));
      assert CallOf(l).timestamp == l.timestamp;
    }
    hide Days, CallsOf, TellsLines, CallOf, Plus;
  }

  lemma DaysSnoc(cs: seq<Call>, c: Call)
    ensures |c.timestamp| >= 10 ==>
              var date := c.timestamp[..10];
              Days(cs + [c]) == Days(cs)[date := Plus(Get(COUNTS, Days(cs), date), c.counts)]
    ensures |c.timestamp| < 10 ==> Days(cs + [c]) == Days(cs)
  {
    assert (cs + [c])[..|cs|] == cs;
    assert DatedCalls(cs) + [] == DatedCalls(cs);
    GroupedSnoc(BY_DAY, DatedCalls(cs), c);
    hide Grouped;
  }

  // ---------------------------------------------------------------------------
  // Models
  // ---------------------------------------------------------------------------

  function ModelOf(l: Line): string {
    if l.Entry? then l.model else ""
  }

  predicate NamesModel(l: Line, sid: string) {
    OfSession(l, sid) && ModelOf(l) != "" && ModelOf(l) != "unknown"
  }

  ghost predicate LastNamedAt(lines: seq<Line>, sid: string, i: int) {
    && 0 <= i < |lines| && NamesModel(lines[i], sid)
    && forall j :: i < j < |lines| ==> !NamesModel(lines[j], sid)
  }

  /** The model is the one that the session's last line with a model names; without such a line, it is unknown. */
  ghost predicate LastNamed(model: string, lines: seq<Line>, sid: string) {
    if model == "unknown" then forall l :: l in lines ==> !NamesModel(l, sid)
    else exists i :: LastNamedAt(lines, sid, i) && ModelOf(lines[i]) == model
  }

  lemma LastNamedSnoc(model: string, lines: seq<Line>, l: Line, sid: string)
    requires LastNamed(model, lines, sid)
    ensures LastNamed(if NamesModel(l, sid) then ModelOf(l) else model, lines + [l], sid)
  {
    NamedIsKnown(l, sid);
    hide NamesModel;
    var all := lines + [l];
    if NamesModel(l, sid) {
      assert LastNamedAt(all, sid, |lines|);
    } else if model != "unknown" {
      var i :| LastNamedAt(lines, sid, i) && ModelOf(lines[i]) == model;
      assert LastNamedAt(all, sid, i) && all[i] == lines[i];
    }
  }

  lemma NamedIsKnown(l: Line, sid: string)
    ensures NamesModel(l, sid) ==> ModelOf(l) != "unknown"
  {
  }

  /** A session's model is the last one that its lines name. */
  lemma {:induction false} SessionModelFromLines(lines: seq<Line>, sid: string)
    ensures var sessions := Sessions(CallsOf(lines));
              LastNamed(if sid in sessions then sessions[sid].model else "unknown", lines, sid)
  {
    if lines != [] {
      var front, l := lines[..|lines| - 1], lines[|lines| - 1];
      assert lines == front + [l];
      SessionModelFromLines(front, sid);
      var sessions := Sessions(CallsOf(front));
      LastNamedSnoc(if sid in sessions then sessions[sid].model else "unknown", front, l, sid);
      CallsOfSnoc(front, l);
      assert CallsOf(front) + [] == CallsOf(front);
      if l.Entry? { SessionsSnoc(CallsOf(front), CallOf(l)); }
      hide Sessions, CallsOf, LastNamed, Plus, Earlier, Later;
    }
  }
}
