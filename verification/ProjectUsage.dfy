/** The usage of a project: per-file results that are parsed once, cached, and merged without being touched. */
module ProjectUsage {
  import opened Sums
  import opened Texts
  import opened UsageFiles

  /** An object of the source, which is updated in place. */
  class Cell<T> {
    var value: T

    constructor (value: T)
      ensures this.value == value
    {
      this.value := value;
    }
  }

  ghost function Values<T>(m: map<string, Cell<T>>): map<string, T>
    reads m.Values
  {
    map k | k in m :: m[k].value
  }

  ghost predicate Separate<T>(m: map<string, Cell<T>>) {
    forall j, k :: j in m && k in m && j != k ==> m[j] != m[k]
  }

  // ---------------------------------------------------------------------------
  // Parsing a file
  // ---------------------------------------------------------------------------

  method Count(s: Cell<Usage>, c: Call)
    modifies s
    ensures s.value == Extend(old(s.value), c)
  {
    s.value := s.value.(counts := Plus(s.value.counts, c.counts));
    if c.model != "unknown" {
      s.value := s.value.(model := c.model);
    }
    if s.value.startedAt == "" || Less(c.timestamp, s.value.startedAt) {
      s.value := s.value.(startedAt := c.timestamp);
    }
    if s.value.lastCallAt == "" || Less(s.value.lastCallAt, c.timestamp) {
      s.value := s.value.(lastCallAt := c.timestamp);
    }
  }

  method AddToSessions(sessions: map<string, Cell<Usage>>, c: Call) returns (updated: map<string, Cell<Usage>>)
    requires Separate(sessions)
    modifies sessions.Values
    ensures Separate(updated) && fresh(updated.Values - sessions.Values)
    ensures Values(updated) == AddCall(old(Values(sessions)), c)
  {
    hide Extend;
    updated := sessions;
    if c.sessionId !in updated {
      var cell := new Cell(Fresh(c));
      updated := updated[c.sessionId := cell];
    }
    Count(updated[c.sessionId], c);
  }

  method AddToDays(daily: map<string, Cell<Counts>>, c: Call) returns (updated: map<string, Cell<Counts>>)
    requires Separate(daily) && Dated(c)
    modifies daily.Values
    ensures Separate(updated) && fresh(updated.Values - daily.Values)
    ensures Values(updated) == AddShare(BY_DAY, old(Values(daily)), c)
  {
    updated := daily;
    var day := c.timestamp[..10];
    if day !in updated {
      var cell := new Cell(NONE);
      updated := updated[day := cell];
    }
    var d := updated[day];
    d.value := Plus(d.value, c.counts);
  }

  datatype FileUsage = FileUsage(sessions: map<string, Cell<Usage>>, daily: map<string, Cell<Counts>>)

  /** The objects of a file's usage. */
  ghost function CellsOf(u: FileUsage): set<object> {
    var s: set<object>, d: set<object> := u.sessions.Values, u.daily.Values;
    s + d
  }

  ghost predicate Holds(u: FileUsage, cs: seq<Call>)
    reads u.sessions.Values, u.daily.Values
  {
    Values(u.sessions) == Sessions(cs) && Values(u.daily) == Days(cs)
  }

  lemma OneMoreLine(lines: seq<Line>, line: Line)
    ensures CallsOf(lines + [line]) == if line.Entry? then CallsOf(lines) + [CallOf(line)] else CallsOf(lines)
  {
    assert (lines + [line])[..|lines|] == lines;
  }

  lemma OneMoreCall(cs: seq<Call>, c: Call)
    ensures Sessions(cs + [c]) == AddCall(Sessions(cs), c)
    ensures Days(cs + [c]) == if Dated(c) then AddShare(BY_DAY, Days(cs), c) else Days(cs)
  {
    SessionsSnoc(cs, c);
    DatedSnoc(cs, c);
    GroupedSnoc(BY_DAY, DatedCalls(cs), c);
  }

  lemma NoLines()
    ensures Sessions(CallsOf([])) == map[] && Days(CallsOf([])) == map[]
  {
  }

  lemma NothingHoldsNothing()
    ensures Holds(FileUsage(map[], map[]), [])
  {
    NoLines();
  }

  method ParseTranscript(lines: seq<Line>) returns (u: FileUsage)
    ensures fresh(u.sessions.Values) && fresh(u.daily.Values)
    ensures Holds(u, CallsOf(lines))
  {
    hide Sessions, Days, CallsOf, AddCall, AddShare, Dated, CallOf;
    var sessions: map<string, Cell<Usage>>, daily: map<string, Cell<Counts>> := map[], map[];
    NoLines();
    assert lines[..0] == [];
    for n := 0 to |lines|
      invariant fresh(sessions.Values) && fresh(daily.Values)
      invariant Separate(sessions) && Separate(daily)
      invariant Values(sessions) == Sessions(CallsOf(lines[..n])) && Values(daily) == Days(CallsOf(lines[..n]))
    {
      assert lines[..n + 1] == lines[..n] + [lines[n]];
      OneMoreLine(lines[..n], lines[n]);
      if lines[n].Skipped? {
        continue;
      }
      var c := CallOf(lines[n]);
      OneMoreCall(CallsOf(lines[..n]), c);
      sessions := AddToSessions(sessions, c);
      if Dated(c) {
        daily := AddToDays(daily, c);
      }
    }
    assert lines[..|lines|] == lines;
    u := FileUsage(sessions, daily);
  }

  // ---------------------------------------------------------------------------
  // Merging into what is there
  // ---------------------------------------------------------------------------

  /** Merges one value of a file into the objects so far. */
  method MergeOne<T>(merge: (T, T) -> T, all: map<string, Cell<T>>, k: string, value: T)
    returns (merged: map<string, Cell<T>>)
    requires Separate(all)
    modifies all.Values
    ensures Separate(merged) && fresh(merged.Values - all.Values)
    ensures Values(merged) == Merged(merge, old(Values(all)), map[k := value])
  {
    if k !in all {
      var copy := new Cell(value);
      merged := all[k := copy];
    } else {
      merged := all;
      merged[k].value := merge(merged[k].value, value);
    }
  }

  lemma MergedStep<T>(merge: (T, T) -> T, m: map<string, T>, n: map<string, T>, todo: set<string>, k: string)
    requires k in todo && k in n
    ensures Merged(merge, Merged(merge, m, n - todo), map[k := n[k]]) == Merged(merge, m, n - (todo - {k}))
  {
  }

  /** Merges a file's objects into those of the files before, which are updated in place; the file's are only read. */
  method MergeFile<T>(merge: (T, T) -> T, all: map<string, Cell<T>>, file: map<string, Cell<T>>)
    returns (merged: map<string, Cell<T>>)
    requires Separate(all) && all.Values !! file.Values
    modifies all.Values
    ensures Separate(merged) && fresh(merged.Values - all.Values)
    ensures Values(merged) == Merged(merge, old(Values(all)), old(Values(file)))
  {
    hide Merged;
    ghost var m, n := Values(all), Values(file);
    merged := all;
    var todo := file.Keys;
    MergedNothing(merge, m, n);
    assert todo == n.Keys;
    while todo != {}
      invariant todo <= file.Keys
      invariant Separate(merged) && fresh(merged.Values - all.Values) && merged.Values !! file.Values
      invariant Values(file) == n && Values(merged) == Merged(merge, m, n - todo)
    {
      var k :| k in todo;
      assert Values(file)[k] == file[k].value;
      MergedStep(merge, m, n, todo, k);
      merged := MergeOne(merge, merged, k, file[k].value);
      todo := todo - {k};
    }
    assert n - {} == n;
  }

  lemma MergedNothing<T>(merge: (T, T) -> T, m: map<string, T>, n: map<string, T>)
    ensures Merged(merge, m, n - n.Keys) == m
  {
  }

  // ---------------------------------------------------------------------------
  // The cache of file results
  // ---------------------------------------------------------------------------

  /** What reading a transcript comes to. */
  datatype Reading = Failed | Read(size: nat, lines: seq<Line>)

  /** What a file counts for: a path and size seen before count for what was parsed then. */
  function Counted(parsed: map<(string, nat), seq<Line>>, path: string, r: Reading): seq<Call> {
    if r.Failed? then []
    else if (path, r.size) in parsed then CallsOf(parsed[(path, r.size)])
    else CallsOf(r.lines)
  }

  /** What is parsed once a file has been asked for. */
  function ParsedWith(parsed: map<(string, nat), seq<Line>>, path: string, r: Reading): map<(string, nat), seq<Line>> {
    if r.Failed? || (path, r.size) in parsed then parsed else parsed[(path, r.size) := r.lines]
  }

  ghost predicate Within(u: FileUsage, cs: seq<Call>, cells: set<object>)
    reads cells
  {
    CellsOf(u) <= cells && Holds(u, cs)
  }

  lemma WithinMore(u: FileUsage, cs: seq<Call>, cells: set<object>, more: set<object>)
    requires Within(u, cs, cells)
    ensures Within(u, cs, cells + more)
  {
  }

  class UsageCache {
    var results: map<(string, nat), FileUsage>
    ghost var parsed: map<(string, nat), seq<Line>>

    ghost var cells: set<object>

    ghost predicate Valid()
      reads this, cells
    {
      && this !in cells && results.Keys == parsed.Keys
      && forall k :: k in results ==> Within(results[k], CallsOf(parsed[k]), cells)
    }

    constructor ()
      ensures Valid() && parsed == map[] && cells == {}
    {
      results, parsed, cells := map[], map[], {};
    }

    method GetFileUsage(path: string, r: Reading) returns (u: FileUsage)
      requires Valid()
      modifies this
      ensures Valid() && Within(u, Counted(old(parsed), path, r), cells)
      ensures old(cells) <= cells
      ensures parsed == ParsedWith(old(parsed), path, r)
    {
      if r.Failed? {
        NothingHoldsNothing();
        return FileUsage(map[], map[]);
      }
      var key := (path, r.size);
      if key in results {
        return results[key];
      }
      u := ParseTranscript(r.lines);
      Keep(key, u, r.lines);
    }

    method Keep(key: (string, nat), u: FileUsage, lines: seq<Line>)
      requires Valid() && key !in results && Holds(u, CallsOf(lines))
      requires this !in CellsOf(u)
      modifies this
      ensures Valid() && parsed == old(parsed)[key := lines] && results == old(results)[key := u]
      ensures cells == old(cells) + CellsOf(u)
      ensures Within(u, CallsOf(lines), cells)
    {
      hide Holds, CallsOf;
      results, parsed, cells := results[key := u], parsed[key := lines], cells + CellsOf(u);
      assert Within(u, CallsOf(lines), cells);
      forall k | k in old(results) ensures Within(results[k], CallsOf(parsed[k]), cells) {
        WithinMore(old(results)[k], CallsOf(old(parsed)[k]), old(cells), CellsOf(u));
      }
    }
  }

  // ---------------------------------------------------------------------------
  // The files of a project
  // ---------------------------------------------------------------------------

  function ParsedAfter(parsed: map<(string, nat), seq<Line>>, files: seq<(string, Reading)>)
    : map<(string, nat), seq<Line>>
  {
    if files == [] then parsed
    else
      var last := files[|files| - 1];
      ParsedWith(ParsedAfter(parsed, files[..|files| - 1]), last.0, last.1)
  }

  /** The calls that each file counts for. */
  function CountedAll(parsed: map<(string, nat), seq<Line>>, files: seq<(string, Reading)>): seq<seq<Call>> {
    if files == [] then []
    else
      var front, last := files[..|files| - 1], files[|files| - 1];
      CountedAll(parsed, front) + [Counted(ParsedAfter(parsed, front), last.0, last.1)]
  }

  /** What is parsed, and what the files count for, once the first `n` have been asked for. */
  ghost predicate Upto(was: map<(string, nat), seq<Line>>, files: seq<(string, Reading)>, n: nat,
                       parsed: map<(string, nat), seq<Line>>, counted: seq<seq<Call>>)
    requires n <= |files|
  {
    parsed == ParsedAfter(was, files[..n]) && counted == CountedAll(was, files[..n])
  }

  lemma UptoNext(was: map<(string, nat), seq<Line>>, files: seq<(string, Reading)>, n: nat,
                 parsed: map<(string, nat), seq<Line>>, counted: seq<seq<Call>>)
    requires n < |files| && Upto(was, files, n, parsed, counted)
    ensures Upto(was, files, n + 1, ParsedWith(parsed, files[n].0, files[n].1),
                 counted + [Counted(parsed, files[n].0, files[n].1)])
  {
    assert files[..n + 1][..n] == files[..n];
  }

  lemma UptoEnds(was: map<(string, nat), seq<Line>>, files: seq<(string, Reading)>,
                 parsed: map<(string, nat), seq<Line>>, counted: seq<seq<Call>>)
    ensures Upto(was, files, 0, was, [])
    ensures Upto(was, files, |files|, parsed, counted)
            ==> parsed == ParsedAfter(was, files) && counted == CountedAll(was, files)
  {
    assert files[..0] == [] && files[..|files|] == files;
  }

  lemma OneMoreMerged(files: seq<seq<Call>>, cs: seq<Call>)
    ensures AllSessions(files + [cs]) == Merged(Merge, AllSessions(files), Sessions(cs))
    ensures AllDays(files + [cs]) == Merged(Plus, AllDays(files), Days(cs))
  {
    assert (files + [cs])[..|files|] == files;
  }

  lemma NoFiles(parsed: map<(string, nat), seq<Line>>)
    ensures ParsedAfter(parsed, []) == parsed && CountedAll(parsed, []) == []
    ensures AllSessions([]) == map[] && AllDays([]) == map[]
  {
  }

  /** The objects hold what the given files come to. */
  ghost predicate HoldsAll(u: FileUsage, counted: seq<seq<Call>>)
    reads CellsOf(u)
  {
    && Separate(u.sessions) && Separate(u.daily)
    && Values(u.sessions) == AllSessions(counted) && Values(u.daily) == AllDays(counted)
  }

  method NoUsage() returns (u: FileUsage)
    ensures HoldsAll(u, []) && CellsOf(u) == {}
  {
    u := FileUsage(map[], map[]);
    NoFiles(map[]);
  }

  method MergeUsage(all: FileUsage, u: FileUsage, ghost counted: seq<seq<Call>>, ghost cs: seq<Call>)
    returns (merged: FileUsage)
    requires HoldsAll(all, counted) && Holds(u, cs) && CellsOf(all) !! CellsOf(u)
    modifies CellsOf(all)
    ensures HoldsAll(merged, counted + [cs]) && fresh(CellsOf(merged) - CellsOf(all))
  {
    hide AllSessions, AllDays, Sessions, Days, Merged;
    OneMoreMerged(counted, cs);
    var sessions := MergeFile(Merge, all.sessions, u.sessions);
    var daily := MergeFile(Plus, all.daily, u.daily);
    merged := FileUsage(sessions, daily);
  }

  /** Each file holds what it counts for. */
  ghost predicate HoldEach(us: seq<FileUsage>, counted: seq<seq<Call>>, cells: set<object>)
    reads cells
  {
    |us| == |counted| && forall i :: 0 <= i < |us| ==> Within(us[i], counted[i], cells)
  }

  lemma HoldEachAlso(us: seq<FileUsage>, counted: seq<seq<Call>>, u: FileUsage, cs: seq<Call>, cells: set<object>)
    requires HoldEach(us, counted, cells) && Within(u, cs, cells)
    ensures HoldEach(us + [u], counted + [cs], cells)
  {
  }

  lemma HoldEachMore(us: seq<FileUsage>, counted: seq<seq<Call>>, cells: set<object>, more: set<object>)
    requires HoldEach(us, counted, cells) && cells <= more
    ensures HoldEach(us, counted, more)
  {
    assert cells + more == more;
    forall i | 0 <= i < |us| ensures Within(us[i], counted[i], more) { WithinMore(us[i], counted[i], cells, more); }
  }

  /** The results for the files of a project, in their order. */
  method ReadFiles(cache: UsageCache, files: seq<(string, Reading)>) returns (us: seq<FileUsage>)
    requires cache.Valid()
    modifies cache
    ensures cache.Valid() && cache.parsed == ParsedAfter(old(cache.parsed), files)
    ensures HoldEach(us, CountedAll(old(cache.parsed), files), cache.cells)
  {
    ghost var was, counted: seq<seq<Call>> := cache.parsed, [];
    us := [];
    UptoEnds(was, files, was, []);
    for n := 0 to |files|
      invariant cache.Valid() && Upto(was, files, n, cache.parsed, counted)
      invariant HoldEach(us, counted, cache.cells)
    {
      hide Upto, Within, HoldEach, Counted, ParsedWith;
      var (path, r) := files[n];
      ghost var before, cells := cache.parsed, cache.cells;
      UptoNext(was, files, n, before, counted);
      var u := cache.GetFileUsage(path, r);
      HoldEachMore(us, counted, cells, cache.cells);
      HoldEachAlso(us, counted, u, Counted(before, path, r), cache.cells);
      us, counted := us + [u], counted + [Counted(before, path, r)];
    }
    UptoEnds(was, files, cache.parsed, counted);
  }

  lemma HoldOne(us: seq<FileUsage>, counted: seq<seq<Call>>, cells: set<object>)
    requires HoldEach(us, counted, cells)
    ensures |us| == |counted| && forall n :: 0 <= n < |us| ==> Holds(us[n], counted[n])
  {
    assert forall n :: 0 <= n < |us| ==> Within(us[n], counted[n], cells);
  }

  /** Merges the files' results into new objects; the results stay as they are. */
  method MergeFiles(us: seq<FileUsage>, ghost counted: seq<seq<Call>>, ghost cells: set<object>)
    returns (all: FileUsage)
    requires HoldEach(us, counted, cells)
    ensures fresh(CellsOf(all)) && HoldsAll(all, counted)
  {
    hide HoldEach, HoldsAll, Holds;
    HoldOne(us, counted, cells);
    all := NoUsage();
    assert counted[..0] == [];
    for n := 0 to |us|
      invariant fresh(CellsOf(all)) && HoldsAll(all, counted[..n])
    {
      HoldOne(us, counted, cells);
      assert counted[..n + 1] == counted[..n] + [counted[n]];
      all := MergeUsage(all, us[n], counted[..n], counted[n]);
    }
    assert counted[..|counted|] == counted;
  }

  /** The usage of a project's files, in new objects. The cache keeps what it had, and what is now parsed. */
  method GetProjectFiles(cache: UsageCache, files: seq<(string, Reading)>) returns (all: FileUsage)
    requires cache.Valid()
    modifies cache
    ensures cache.Valid() && cache.parsed == ParsedAfter(old(cache.parsed), files)
    ensures fresh(CellsOf(all)) && HoldsAll(all, CountedAll(old(cache.parsed), files))
  {
    hide HoldsAll, HoldEach;
    ghost var counted := CountedAll(cache.parsed, files);
    var us := ReadFiles(cache, files);
    all := MergeFiles(us, counted, cache.cells);
  }

  // ---------------------------------------------------------------------------
  // When the cache is right
  // ---------------------------------------------------------------------------

  ghost predicate Faithful(parsed: map<(string, nat), seq<Line>>, content: ((string, nat)) -> seq<Line>) {
    forall k :: k in parsed ==> parsed[k] == content(k)
  }

  ghost predicate SizeTellsContent(files: seq<(string, Reading)>, content: ((string, nat)) -> seq<Line>) {
    forall f :: f in files && f.1.Read? ==> f.1.lines == content((f.0, f.1.size))
  }

  /** What the files hold now. */
  function FreshCounts(files: seq<(string, Reading)>): seq<seq<Call>> {
    if files == [] then []
    else
      var r := files[|files| - 1].1;
      FreshCounts(files[..|files| - 1]) + [if r.Failed? then [] else CallsOf(r.lines)]
  }

  lemma OneFileIsTransparent(parsed: map<(string, nat), seq<Line>>, path: string, r: Reading,
                             content: ((string, nat)) -> seq<Line>)
    requires Faithful(parsed, content) && (r.Read? ==> r.lines == content((path, r.size)))
    ensures Faithful(ParsedWith(parsed, path, r), content)
    ensures Counted(parsed, path, r) == if r.Failed? then [] else CallsOf(r.lines)
  {
  }

  /** As long as a path and a size determine what a file holds, every file counts for what it holds now. */
  lemma {:induction false} CacheIsTransparent(parsed: map<(string, nat), seq<Line>>, files: seq<(string, Reading)>,
                                              content: ((string, nat)) -> seq<Line>)
    requires Faithful(parsed, content) && SizeTellsContent(files, content)
    ensures Faithful(ParsedAfter(parsed, files), content)
    ensures CountedAll(parsed, files) == FreshCounts(files)
  {
    if files != [] {
      var front, last := files[..|files| - 1], files[|files| - 1];
      assert last in files && forall f :: f in front ==> f in files;
      hide Faithful, CallsOf, ParsedWith, Counted;
      CacheIsTransparent(parsed, front, content);
      OneFileIsTransparent(ParsedAfter(parsed, front), last.0, last.1, content);
    }
  }
}
