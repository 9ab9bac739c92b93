/** Reading a session's events from its directory of numbered files. */
module EventStore {
  import opened Options
  import opened Sorting
  import opened Texts

  datatype Event = Event(sequence: int, eventType: string, timestamp: string, body: string)

  /** One file of a session directory; content is None when it never holds an event. */
  datatype File = File(number: nat, content: Option<Event>)

  predicate SafeChar(c: char) {
    || 'a' <= c <= 'z' || 'A' <= c <= 'Z' || '0' <= c <= '9' || c == '.' || c == '_' || c == '-'
  }

  predicate IsValidPathId(id: string) {
    1 <= |id| <= 256 && forall i :: 0 <= i < |id| ==> SafeChar(id[i])
  }

  const CAPITALS := "ABCDEFGHIJKLMNOPQRSTUVWXYZ"
  const LETTERS := "abcdefghijklmnopqrstuvwxyz"
  const DIGITS := "0123456789"

  lemma Capitals(c: char)
    ensures 'A' <= c <= 'Z' <==> c in CAPITALS
  {
    assert 'A' <= c <= 'Z' ==> CAPITALS[c as int - 65] == c;
  }

  lemma Letters(c: char)
    ensures 'a' <= c <= 'z' <==> c in LETTERS
  {
    assert 'a' <= c <= 'z' ==> LETTERS[c as int - 97] == c;
  }

  lemma Digits(c: char)
    ensures '0' <= c <= '9' <==> c in DIGITS
  {
    assert '0' <= c <= '9' ==> DIGITS[c as int - 48] == c;
  }

  /** An id is 1 to 256 letters, digits, dots, underscores and hyphens. */
  lemma ValidPathIds(id: string)
    ensures IsValidPathId(id) <==> 1 <= |id| <= 256 && forall c :: c in id ==> c in CAPITALS + LETTERS + DIGITS + "._-"
  {
    forall c | c in id ensures SafeChar(c) <==> c in CAPITALS + LETTERS + DIGITS + "._-" {
      Capitals(c);
      Letters(c);
      Digits(c);
      hide CAPITALS, LETTERS, DIGITS;
    }
    hide SafeChar;
  }

  /** Only names of exactly six digits count as event files. */
  predicate Wanted(f: File, fromSequence: int) {
    f.number <= 999_999 && f.number > fromSequence
  }

  predicate ByNumber(a: File, b: File) {
    a.number <= b.number
  }

  function Select(files: seq<File>, fromSequence: int): seq<File> {
    if files == [] then []
    else Select(files[..|files| - 1], fromSequence)
         + if Wanted(files[|files| - 1], fromSequence) then [files[|files| - 1]] else []
  }

  function Parsed(files: seq<File>): seq<Event> {
    if files == [] then []
    else Parsed(files[..|files| - 1])
         + if files[|files| - 1].content.Some? then [files[|files| - 1].content.value] else []
  }

  /** What to read. No list of types, an empty timestamp and a limit of zero each ask for no restriction. */
  datatype Query = Query(projectId: string, sessionId: string, fromSequence: int, eventTypes: Option<seq<string>>,
                         afterTimestamp: string, limit: nat)

  predicate Matches(e: Event, q: Query) {
    && (q.eventTypes.None? || e.eventType in q.eventTypes.value)
    && (q.afterTimestamp == "" || !Leq(e.timestamp, q.afterTimestamp))
  }

  function Filtered(events: seq<Event>, q: Query): seq<Event> {
    if events == [] then []
    else
      var last := events[|events| - 1];
      Filtered(events[..|events| - 1], q) + if Matches(last, q) then [last] else []
  }

  function Limited(events: seq<Event>, limit: nat): seq<Event> {
    if limit > 0 && |events| > limit then events[..limit] else events
  }

  lemma FilteredSnoc(events: seq<Event>, e: Event, q: Query)
    ensures Filtered(events + [e], q) == Filtered(events, q) + if Matches(e, q) then [e] else []
  {
    assert (events + [e])[..|events|] == events;
  }

  lemma OneMoreFile(files: seq<File>, n: nat, q: Query)
    requires n < |files|
    ensures var before, content := Filtered(Parsed(files[..n]), q), files[n].content;
              Filtered(Parsed(files[..n + 1]), q)
              == before + if content.Some? && Matches(content.value, q) then [content.value] else []
  {
    assert files[..n + 1][..n] == files[..n];
    var before := Parsed(files[..n]);
    assert before + [] == before && Filtered(before, q) + [] == Filtered(before, q);
    if files[n].content.Some? { FilteredSnoc(Parsed(files[..n]), files[n].content.value, q); }
  }

  lemma {:induction false} FilteredGrows(files: seq<File>, m: nat, n: nat, q: Query)
    requires m <= n <= |files|
    ensures Filtered(Parsed(files[..m]), q) <= Filtered(Parsed(files[..n]), q)
    decreases n
  {
    if m < n {
      FilteredGrows(files, m, n - 1, q);
      OneMoreFile(files, n - 1, q);
    }
  }

  lemma {:induction false} UnrestrictedIsAll(events: seq<Event>, q: Query)
    requires q.eventTypes.None? && q.afterTimestamp == ""
    ensures Filtered(events, q) == events
  {
    if events != [] { UnrestrictedIsAll(events[..|events| - 1], q); }
  }

  /** Invalid ids are refused. Otherwise: the matching events in the order of their files' numbers, as far as the limit;
      without restrictions, as a poll asks, all that can be parsed. */
  method ReadEvents(listing: seq<File>, q: Query) returns (r: Option<seq<Event>>)
    ensures r.Some? <==> IsValidPathId(q.projectId) && IsValidPathId(q.sessionId)
    ensures var all := Parsed(Sort(ByNumber, Select(listing, q.fromSequence)));
              && (r.Some? ==> r.value == Limited(Filtered(all, q), q.limit))
              && (r.Some? && q.eventTypes.None? && q.afterTimestamp == "" && q.limit == 0 ==> r.value == all)
  {
    if !IsValidPathId(q.projectId) || !IsValidPathId(q.sessionId) {
      return None;
    }
    var eventFiles: seq<File> := [];
    for i := 0 to |listing|
      invariant eventFiles == Select(listing[..i], q.fromSequence)
    {
      assert listing[..i + 1][..i] == listing[..i];
      if Wanted(listing[i], q.fromSequence) {
        eventFiles := eventFiles + [listing[i]];
      }
    }
    assert listing[..|listing|] == listing;
    eventFiles := Sort(ByNumber, eventFiles);
    var events := ParseFiles(eventFiles, q);
    if q.eventTypes.None? && q.afterTimestamp == "" { UnrestrictedIsAll(Parsed(eventFiles), q); }
    r := Some(events);
  }

  method ParseFiles(eventFiles: seq<File>, q: Query) returns (events: seq<Event>)
    ensures events == Limited(Filtered(Parsed(eventFiles), q), q.limit)
  {
    events := [];
    assert eventFiles[..0] == [] && eventFiles[..|eventFiles|] == eventFiles;
    assert Filtered(Parsed([]), q) == [];
    hide Parsed, Filtered, Matches;
    for i := 0 to |eventFiles|
      invariant events == Filtered(Parsed(eventFiles[..i]), q)
      invariant q.limit > 0 ==> |events| < q.limit
    {
      OneMoreFile(eventFiles, i, q);
      var content := eventFiles[i].content;
      if content.Some? {
        if !Matches(content.value, q) {
          continue;
        }
        events := events + [content.value];
      }
      if q.limit > 0 && |events| >= q.limit {
        FilteredGrows(eventFiles, i + 1, |eventFiles|, q);
        return;
      }
    }
  }

  // ---------------------------------------------------------------------------
  // A log: files appended with growing numbers, each holding the event of that number
  // ---------------------------------------------------------------------------

  ghost predicate IsLog(files: seq<File>) {
    && (forall i, j :: 0 <= i < j < |files| ==> files[i].number < files[j].number)
    && (forall i :: 0 <= i < |files| && files[i].content.Some?
                    ==> files[i].content.value.sequence == files[i].number)
  }

  ghost predicate Increasing(events: seq<Event>) {
    forall i, j :: 0 <= i < j < |events| ==> events[i].sequence < events[j].sequence
  }

  /** The events of a log that can be read at all. */
  function Readable(files: seq<File>): seq<Event> {
    Parsed(Select(files, -1))
  }

  /** Of events in order, exactly the first `n` have a sequence of at most `x`. */
  ghost predicate Cut(events: seq<Event>, x: int, n: nat) {
    && n <= |events|
    && (n > 0 ==> events[n - 1].sequence <= x)
    && (n < |events| ==> x < events[n].sequence)
  }

  /** How many of the first `k` events, read from the back, it takes to reach a sequence of at most `x`. */
  function UptoIn(events: seq<Event>, x: int, k: nat): (n: nat)
    requires k <= |events|
    ensures n <= k
    ensures n > 0 ==> events[n - 1].sequence <= x
    ensures n < k ==> x < events[n].sequence
  {
    if k == 0 then 0
    else if events[k - 1].sequence <= x then k
    else UptoIn(events, x, k - 1)
  }

  /** How many events there are up to sequence `x`. */
  function Upto(events: seq<Event>, x: int): (n: nat)
    ensures Cut(events, x, n)
  {
    UptoIn(events, x, |events|)
  }

  lemma UptoSplits(events: seq<Event>, x: int, i: nat)
    requires Increasing(events) && i < |events|
    ensures events[i].sequence <= x <==> i < Upto(events, x)
  {
    var n := Upto(events, x);
    assert i < n ==> i == n - 1 || events[i].sequence < events[n - 1].sequence;
    assert n < i ==> events[n].sequence < events[i].sequence;
  }

  lemma CutIsUpto(events: seq<Event>, x: int, n: nat)
    requires Increasing(events) && Cut(events, x, n)
    ensures Upto(events, x) == n
  {
    if n > 0 { UptoSplits(events, x, n - 1); }
    if n < |events| { UptoSplits(events, x, n); }
  }

  /** The events one more file adds. */
  function Adds(f: File, fromSequence: int): seq<Event> {
    if Wanted(f, fromSequence) && f.content.Some? then [f.content.value] else []
  }

  lemma SelectSnoc(front: seq<File>, f: File, fromSequence: int)
    ensures Parsed(Select(front + [f], fromSequence)) == Parsed(Select(front, fromSequence)) + Adds(f, fromSequence)
  {
    var all, s := front + [f], Select(front, fromSequence);
    assert all[..|all| - 1] == front;
    if Wanted(f, fromSequence) {
      assert Select(all, fromSequence) == s + [f];
      assert (s + [f])[..|s + [f]| - 1] == s;
    } else {
      assert Select(all, fromSequence) == s;
    }
  }

  lemma IncreasingSnoc(events: seq<Event>, e: Event)
    requires Increasing(events) && (events != [] ==> events[|events| - 1].sequence < e.sequence)
    ensures Increasing(events + [e])
  {
  }

  lemma {:induction false} ReadableFacts(files: seq<File>)
    requires IsLog(files)
    ensures Increasing(Readable(files))
    ensures Readable(files) != [] ==>
              files != [] && Readable(files)[|Readable(files)| - 1].sequence <= files[|files| - 1].number
  {
    if files != [] {
      var front, f := files[..|files| - 1], files[|files| - 1];
      assert files == front + [f];
      LogFront(front, f);
      ReadableFacts(front);
      ReadableFactsSnoc(front, f);
    }
  }

  lemma ReadableFactsSnoc(front: seq<File>, f: File)
    requires Increasing(Readable(front))
    requires Readable(front) != [] ==> Readable(front)[|Readable(front)| - 1].sequence < f.number
    requires f.content.Some? ==> f.content.value.sequence == f.number
    ensures var r := Readable(front + [f]);
            Increasing(r) && (r != [] ==> r[|r| - 1].sequence <= f.number)
  {
    hide Parsed, Select, Increasing;
    SelectSnoc(front, f, -1);
    if Adds(f, -1) == [] {
      assert Readable(front + [f]) == Readable(front);
    } else {
      IncreasingSnoc(Readable(front), f.content.value);
    }
  }

  lemma LogFront(front: seq<File>, f: File)
    requires IsLog(front + [f])
    ensures IsLog(front) && (front != [] ==> front[|front| - 1].number < f.number)
    ensures f.content.Some? ==> f.content.value.sequence == f.number
  {
    var all := front + [f];
    assert all[|front|] == f && forall i :: 0 <= i < |front| ==> all[i] == front[i];
  }

  lemma UptoSnoc(events: seq<Event>, e: Event, x: int)
    requires Increasing(events + [e])
    ensures Upto(events + [e], x) == if e.sequence <= x then |events| + 1 else Upto(events, x)
    ensures e.sequence <= x ==> Upto(events, x) == |events|
  {
    var all := events + [e];
    assert forall i :: 0 <= i < |events| ==> all[i] == events[i];
    assert all[|events|] == e;
    if e.sequence <= x {
      CutIsUpto(all, x, |events| + 1);
      assert |events| > 0 ==> all[|events| - 1].sequence < all[|events|].sequence;
      IncreasingFront(events, e);
      CutIsUpto(events, x, |events|);
    } else {
      CutIsUpto(all, x, Upto(events, x));
    }
  }

  lemma IncreasingFront(events: seq<Event>, e: Event)
    requires Increasing(events + [e])
    ensures Increasing(events)
  {
    assert forall i :: 0 <= i < |events| ==> events[i] == (events + [e])[i];
  }

  lemma SuffixSnoc(events: seq<Event>, e: Event, x: int)
    requires Increasing(events + [e])
    ensures (events + [e])[Upto(events + [e], x)..]
         == events[Upto(events, x)..] + if e.sequence > x then [e] else []
  {
    UptoSnoc(events, e, x);
  }

  /** Reading from a sequence number gives exactly the readable events after it. */
  lemma {:induction false} SelectIsSuffix(files: seq<File>, fromSequence: int)
    requires IsLog(files)
    ensures Parsed(Select(files, fromSequence)) == Readable(files)[Upto(Readable(files), fromSequence)..]
  {
    if files != [] {
      var front, f := files[..|files| - 1], files[|files| - 1];
      assert files == front + [f];
      SelectIsSuffix(front, fromSequence);
      SelectSnoc(front, f, -1);
      SelectSnoc(front, f, fromSequence);
      ReadableFacts(files);
      assert Readable(files) == Readable(front) + Adds(f, -1);
      if Adds(f, -1) == [] {
        assert Readable(files) == Readable(front) && Adds(f, fromSequence) == [];
      } else {
        assert files[|files| - 1].content.value.sequence == f.number;
        SuffixSnoc(Readable(front), f.content.value, fromSequence);
      }
    }
  }

  lemma SelectOrdered(files: seq<File>, fromSequence: int)
    requires IsLog(files)
    ensures Ordered(ByNumber, Select(files, fromSequence))
    ensures forall f :: f in Select(files, fromSequence) ==> f in files
    ensures DistinctNumbers(Select(files, fromSequence))
  {
    if files != [] {
      var front, f := files[..|files| - 1], files[|files| - 1];
      SelectOrdered(front, fromSequence);
      assert forall g :: g in front ==> g.number < f.number;
    }
  }

  lemma SelectPermuted(a: seq<File>, b: seq<File>, fromSequence: int)
    requires multiset(a) == multiset(b)
    ensures multiset(Select(a, fromSequence)) == multiset(Select(b, fromSequence))
  {
    SelectCount(a, fromSequence);
    SelectCount(b, fromSequence);
  }

  lemma {:induction false} SelectCount(a: seq<File>, fromSequence: int)
    ensures forall f :: multiset(Select(a, fromSequence))[f] == if Wanted(f, fromSequence) then multiset(a)[f] else 0
  {
    if a != [] {
      assert a == a[..|a| - 1] + [a[|a| - 1]];
      SelectCount(a[..|a| - 1], fromSequence);
    }
  }

  ghost predicate DistinctNumbers(s: seq<File>) {
    forall i, j :: 0 <= i < |s| && 0 <= j < |s| && s[i].number == s[j].number ==> s[i] == s[j]
  }

  lemma SameFirst(s: seq<File>, t: seq<File>)
    requires Ordered(ByNumber, s) && Ordered(ByNumber, t) && DistinctNumbers(t)
    requires s != [] && t != [] && s[0] in t && t[0] in s
    ensures s[0] == t[0]
  {
    var i :| 0 <= i < |t| && t[i] == s[0];
    var j :| 0 <= j < |s| && s[j] == t[0];
    assert i > 0 ==> ByNumber(t[0], t[i]);
    assert j > 0 ==> ByNumber(s[0], s[j]);
  }

  lemma TailOfOrdered(s: seq<File>)
    requires s != [] && Ordered(ByNumber, s)
    ensures Ordered(ByNumber, s[1..]) && multiset(s[1..]) == multiset(s) - multiset{s[0]}
  {
    assert s == [s[0]] + s[1..];
  }

  lemma {:induction false} OrderOfDistinctNumbers(s: seq<File>, t: seq<File>)
    requires Ordered(ByNumber, s) && Ordered(ByNumber, t) && multiset(s) == multiset(t)
    requires DistinctNumbers(t)
    ensures s == t
  {
    assert |t| == |multiset(t)| == |multiset(s)| == |s|;
    if s != [] {
      assert s[0] in multiset(t) && t[0] in multiset(s);
      SameFirst(s, t);
      TailOfOrdered(s);
      TailOfOrdered(t);
      assert DistinctNumbers(t[1..]);
      OrderOfDistinctNumbers(s[1..], t[1..]);
      assert s == [s[0]] + s[1..] && t == [t[0]] + t[1..];
    }
  }

  /** The order in which the directory lists its files does not matter. */
  lemma ListingOrderIsIrrelevant(listing: seq<File>, files: seq<File>, fromSequence: int)
    requires IsLog(files) && multiset(listing) == multiset(files)
    ensures Parsed(Sort(ByNumber, Select(listing, fromSequence)))
         == Readable(files)[Upto(Readable(files), fromSequence)..]
  {
    var s, t := Select(listing, fromSequence), Select(files, fromSequence);
    SelectPermuted(listing, files, fromSequence);
    SortPermutes(ByNumber, s);
    SortOrdered(ByNumber, s);
    SelectOrdered(files, fromSequence);
    OrderOfDistinctNumbers(Sort(ByNumber, s), t);
    SelectIsSuffix(files, fromSequence);
  }

  // ---------------------------------------------------------------------------
  // A read at which some files cannot be read
  // ---------------------------------------------------------------------------

  /** The files as a reader sees them that cannot read those with the given numbers. */
  function AsSeen(files: seq<File>, unreadable: set<int>): seq<File> {
    if files == [] then []
    else
      var last := files[|files| - 1];
      AsSeen(files[..|files| - 1], unreadable) + [if last.number in unreadable then last.(content := None) else last]
  }

  lemma AsSeenSnoc(front: seq<File>, f: File, unreadable: set<int>)
    ensures AsSeen(front + [f], unreadable)
         == AsSeen(front, unreadable) + [if f.number in unreadable then f.(content := None) else f]
  {
    assert (front + [f])[..|front|] == front;
  }

  lemma {:induction false} AsSeenAt(files: seq<File>, unreadable: set<int>)
    ensures |AsSeen(files, unreadable)| == |files|
    ensures forall i :: 0 <= i < |files| ==>
              AsSeen(files, unreadable)[i]
              == if files[i].number in unreadable then files[i].(content := None) else files[i]
  {
    if files != [] { AsSeenAt(files[..|files| - 1], unreadable); }
  }

  lemma AsSeenIsLog(files: seq<File>, unreadable: set<int>)
    requires IsLog(files)
    ensures IsLog(AsSeen(files, unreadable))
  {
    AsSeenAt(files, unreadable);
    hide AsSeen;
  }

  lemma OneMoreReadable(front: seq<File>, f: File, e: Event)
    ensures e in Readable(front + [f]) <==> e in Readable(front) || (f.content == Some(e) && f.number <= 999_999)
  {
    SelectSnoc(front, f, -1);
    hide Select, Parsed;
    assert e in Adds(f, -1) <==> f.content == Some(e) && f.number <= 999_999;
  }

  lemma OneMoreSeen(front: seq<File>, f: File, unreadable: set<int>, e: Event)
    requires f.content == Some(e) ==> e.sequence == f.number
    requires e in Readable(AsSeen(front, unreadable)) <==> e in Readable(front) && e.sequence !in unreadable
    ensures e in Readable(AsSeen(front + [f], unreadable)) <==> e in Readable(front + [f]) && e.sequence !in unreadable
  {
    hide Readable, AsSeen;
    AsSeenSnoc(front, f, unreadable);
    OneMoreReadable(front, f, e);
    OneMoreReadable(AsSeen(front, unreadable), if f.number in unreadable then f.(content := None) else f, e);
  }

  lemma NothingSeen(unreadable: set<int>)
    ensures Readable(AsSeen([], unreadable)) == [] && Readable([]) == []
  {
  }

  lemma {:induction false} ReadableAsSeen(files: seq<File>, unreadable: set<int>, e: Event)
    requires IsLog(files)
    ensures e in Readable(AsSeen(files, unreadable)) <==> e in Readable(files) && e.sequence !in unreadable
  {
    NothingSeen(unreadable);
    hide *;
    if files != [] {
      var front, f := files[..|files| - 1], files[|files| - 1];
      assert files == front + [f];
      LogFront(front, f);
      ReadableAsSeen(front, unreadable, e);
      OneMoreSeen(front, f, unreadable, e);
    }
  }

  lemma SuffixMembers(events: seq<Event>, x: int, e: Event)
    requires Increasing(events)
    ensures e in events[Upto(events, x)..] <==> e in events && e.sequence > x
  {
    var n := Upto(events, x);
    if e in events[n..] {
      var i :| 0 <= i < |events[n..]| && events[n..][i] == e;
      UptoSplits(events, x, n + i);
    }
    if e in events && e.sequence > x {
      var i :| 0 <= i < |events| && events[i] == e;
      UptoSplits(events, x, i);
      assert events[n..][i - n] == e;
    }
  }

  lemma SuffixIncreases(events: seq<Event>, n: nat)
    requires Increasing(events) && n <= |events|
    ensures Increasing(events[n..])
  {
  }

  /** Of the events after a sequence number, a read finds exactly those whose files it can read, in order. */
  lemma ReadFindsExactly(listing: seq<File>, files: seq<File>, unreadable: set<int>, fromSequence: int, e: Event)
    requires IsLog(files) && multiset(listing) == multiset(AsSeen(files, unreadable))
    ensures var found := Parsed(Sort(ByNumber, Select(listing, fromSequence)));
              && Increasing(found)
              && (e in found <==> e in Readable(files) && e.sequence > fromSequence && e.sequence !in unreadable)
  {
    var seen := AsSeen(files, unreadable);
    AsSeenIsLog(files, unreadable);
    hide AsSeen, IsLog, Parsed, Select, Sort, Increasing;
    ListingOrderIsIrrelevant(listing, seen, fromSequence);
    ReadableFacts(seen);
    SuffixMembers(Readable(seen), fromSequence, e);
    SuffixIncreases(Readable(seen), Upto(Readable(seen), fromSequence));
    ReadableAsSeen(files, unreadable, e);
  }

  /** The readable events are those that the files with numbers of six digits hold. */
  lemma {:induction false} ReadableMembers(files: seq<File>, e: Event)
    ensures e in Readable(files) <==> exists f :: f in files && f.content == Some(e) && f.number <= 999_999
  {
    hide *;
    if files == [] {
      NothingSeen({});
    } else {
      var front, f := files[..|files| - 1], files[|files| - 1];
      assert files == front + [f];
      ReadableMembers(front, e);
      OneMoreReadable(front, f, e);
    }
  }

  // ---------------------------------------------------------------------------
  // A restricted read
  // ---------------------------------------------------------------------------

  lemma {:induction false} FilteredMembers(events: seq<Event>, q: Query, e: Event)
    ensures e in Filtered(events, q)
            <==> && e in events
                 && (q.eventTypes.Some? ==> e.eventType in q.eventTypes.value)
                 && (q.afterTimestamp != "" ==> !Leq(e.timestamp, q.afterTimestamp))
  {
    if events != [] {
      var front, last := events[..|events| - 1], events[|events| - 1];
      assert events == front + [last];
      FilteredMembers(front, q, e);
      FilteredSnoc(front, last, q);
      hide Filtered, Leq;
    }
  }

  lemma {:induction false} FilteredIncreases(events: seq<Event>, q: Query)
    requires Increasing(events)
    ensures Increasing(Filtered(events, q))
  {
    if events != [] {
      var front, last := events[..|events| - 1], events[|events| - 1];
      assert events == front + [last];
      IncreasingFront(front, last);
      FilteredIncreases(front, q);
      FilteredSnoc(front, last, q);
      forall e | e in Filtered(front, q) ensures e.sequence < last.sequence {
        FilteredMembers(front, q, e);
        FrontBelow(front, last, e);
      }
      hide Filtered, Matches;
    }
  }

  lemma FrontBelow(front: seq<Event>, last: Event, e: Event)
    requires Increasing(front + [last]) && e in front
    ensures e.sequence < last.sequence
  {
    var all := front + [last];
    var i :| 0 <= i < |front| && front[i] == e;
    assert all[i] == e && all[|front|] == last;
  }

  /** A limit shows the first of the events. */
  lemma LimitedIsFirst(events: seq<Event>, limit: nat, e: Event)
    requires Increasing(events)
    ensures var shown := Limited(events, limit);
              && Increasing(shown) && (limit > 0 ==> |shown| <= limit)
              && (e in shown ==> e in events)
              && (e in events && e !in shown
                  ==> limit > 0 && |shown| == limit && forall f :: f in shown ==> f.sequence < e.sequence)
  {
    var shown := Limited(events, limit);
    assert events == shown + events[|shown|..];
    if e in events && e !in shown {
      var i :| |shown| <= i < |events| && events[i] == e;
    }
  }

  /** A read finds, in order, the events after the given sequence that can be read and pass each restriction, up to the
      limit: what it leaves out comes after all it has. */
  lemma RestrictedReadFinds(listing: seq<File>, files: seq<File>, unreadable: set<int>, q: Query, e: Event)
    requires IsLog(files) && multiset(listing) == multiset(AsSeen(files, unreadable))
    ensures var found := Limited(Filtered(Parsed(Sort(ByNumber, Select(listing, q.fromSequence))), q), q.limit);
            var asked := && (exists f :: f in files && f.content == Some(e) && f.number <= 999_999)
                         && e.sequence > q.fromSequence && e.sequence !in unreadable
                         && (q.eventTypes.Some? ==> e.eventType in q.eventTypes.value)
                         && (q.afterTimestamp != "" ==> !Leq(e.timestamp, q.afterTimestamp));
              && Increasing(found) && (q.limit > 0 ==> |found| <= q.limit)
              && (e in found ==> asked)
              && (asked && e !in found
                  ==> q.limit > 0 && |found| == q.limit && forall f :: f in found ==> f.sequence < e.sequence)
  {
    hide *;
    var all := Parsed(Sort(ByNumber, Select(listing, q.fromSequence)));
    ReadFindsExactly(listing, files, unreadable, q.fromSequence, e);
    ReadableMembers(files, e);
    FilteredMembers(all, q, e);
    FilteredIncreases(all, q);
    LimitedIsFirst(Filtered(all, q), q.limit, e);
  }
}
