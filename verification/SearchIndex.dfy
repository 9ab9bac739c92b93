/** The inverted search index, checked against a scan of everything that was indexed. */
module SearchIndexes {
  import opened Options
  import opened Seqs
  import opened Sorting
  import opened Tokenizing

  datatype ToolInput = ToolInput(filePath: Option<string>, command: Option<string>, pattern: Option<string>)

  /** The event data that can be searched; a field of another type than string counts as absent. */
  datatype Data = Data(prompt: Option<string>, toolName: Option<string>, toolInput: Option<ToolInput>,
                       toolResponse: Option<string>, error: Option<string>, cwd: Option<string>, model: Option<string>)

  /** Timestamps are kept as instants: ISO texts of one format compare like them. */
  datatype Event = Event(eventId: string, projectId: string, sessionId: string, sequence: int, eventType: string,
                         timestamp: int, data: Data)

  datatype Field = Field(name: string, text: string)

  datatype Location = Location(eventId: string, projectId: string, sessionId: string, sequence: int,
                               eventType: string, timestamp: int, field: Field)

  // ---------------------------------------------------------------------------
  // What is indexed
  // ---------------------------------------------------------------------------

  function One(name: string, text: Option<string>): seq<Field> {
    if text.Some? then [Field(name, text.value)] else []
  }

  /** The non-empty components of a path. */
  function Components(path: string, open: string): seq<Field> {
    if path == [] then (if open == "" then [] else [Field("file_path", open)])
    else if path[0] == '/' then (if open == "" then [] else [Field("file_path", open)]) + Components(path[1..], "")
    else Components(path[1..], open + [path[0]])
  }

  function InputFields(input: ToolInput): seq<Field> {
    One("file_path", input.filePath)
    + (if input.filePath.Some? then Components(input.filePath.value, "") else [])
    + One("command", input.command) + One("pattern", input.pattern)
  }

  function Truncated(text: Option<string>): Option<string> {
    if text.Some? && |text.value| > 500 then Some(text.value[..500]) else text
  }

  function SearchableFields(eventType: string, d: Data): seq<Field> {
    if eventType == "UserPromptReceived" then One("prompt", d.prompt)
    else if eventType == "ToolCallRequested" || eventType == "ToolCallCompleted" then
      One("tool_name", d.toolName)
      + (if d.toolInput.Some? then InputFields(d.toolInput.value) else [])
      + (if eventType == "ToolCallCompleted" then One("tool_response", Truncated(d.toolResponse)) else [])
    else if eventType == "ToolCallFailed" then One("tool_name", d.toolName) + One("error", d.error)
    else if eventType == "SessionStarted" then One("cwd", d.cwd) + One("model", d.model)
    else []
  }

  /** One occurrence of a term in a field of an event. */
  datatype Posting = Posting(term: string, location: Location)

  function LocationOf(e: Event, f: Field): Location {
    Location(e.eventId, e.projectId, e.sessionId, e.sequence, e.eventType, e.timestamp, f)
  }

  function TermPostings(terms: seq<string>, l: Location): seq<Posting> {
    if terms == [] then [] else TermPostings(terms[..|terms| - 1], l) + [Posting(terms[|terms| - 1], l)]
  }

  function FieldPostings(e: Event, fields: seq<Field>): seq<Posting> {
    if fields == [] then []
    else
      var f := fields[|fields| - 1];
      FieldPostings(e, fields[..|fields| - 1]) + TermPostings(Tokenize(f.text), LocationOf(e, f))
  }

  function EventPostings(e: Event): seq<Posting> {
    FieldPostings(e, SearchableFields(e.eventType, e.data))
  }

  /** Everything there is to find, in the order it was indexed. */
  function AllPostings(events: seq<Event>): seq<Posting> {
    if events == [] then [] else AllPostings(events[..|events| - 1]) + EventPostings(events[|events| - 1])
  }

  /** The locations of one term. */
  function LocationsOf(postings: seq<Posting>, term: string): seq<Location> {
    if postings == [] then []
    else
      var p := postings[|postings| - 1];
      LocationsOf(postings[..|postings| - 1], term) + if p.term == term then [p.location] else []
  }

  // ---------------------------------------------------------------------------
  // Queries
  // ---------------------------------------------------------------------------

  /** An empty project or session id filters nothing; a list of event types always filters. */
  datatype Query = Query(text: string, projectId: string, sessionId: string, eventTypes: Option<seq<string>>)

  predicate Passes(l: Location, q: Query) {
    && (q.projectId == "" || l.projectId == q.projectId)
    && (q.sessionId == "" || l.sessionId == q.sessionId)
    && (q.eventTypes.None? || l.eventType in q.eventTypes.value)
  }

  datatype Result = Result(eventId: string, location: Location, score: nat)

  /** Higher scores first, then later timestamps. */
  predicate ByRelevance(a: Result, b: Result) {
    a.score > b.score || (a.score == b.score && a.location.timestamp >= b.location.timestamp)
  }

  /** The match map of a search: per event id the count and the first location, ids in order of first match. */
  datatype Matches = Matches(order: seq<string>, count: map<string, nat>, first: map<string, Location>)

  const NO_MATCHES := Matches([], map[], map[])

  function AddMatch(m: Matches, l: Location): Matches {
    if l.eventId in m.count then m.(count := m.count[l.eventId := m.count[l.eventId] + 1])
    else Matches(m.order + [l.eventId], m.count[l.eventId := 1], m.first[l.eventId := l])
  }

  /** The locations that a list of query terms finds, with repetitions. */
  function Found(postings: seq<Posting>, terms: seq<string>, q: Query): seq<Location> {
    if terms == [] then []
    else Found(postings, terms[..|terms| - 1], q) + Passing(LocationsOf(postings, terms[|terms| - 1]), q)
  }

  function Passing(ls: seq<Location>, q: Query): seq<Location> {
    if ls == [] then []
    else Passing(ls[..|ls| - 1], q) + if Passes(ls[|ls| - 1], q) then [ls[|ls| - 1]] else []
  }

  function Collect(ls: seq<Location>): Matches {
    if ls == [] then NO_MATCHES else AddMatch(Collect(ls[..|ls| - 1]), ls[|ls| - 1])
  }

  function ResultsOf(m: Matches, ids: seq<string>): seq<Result>
    requires forall id :: id in ids ==> id in m.count && id in m.first
  {
    if ids == [] then []
    else
      var id := ids[|ids| - 1];
      ResultsOf(m, ids[..|ids| - 1]) + [Result(id, m.first[id], m.count[id])]
  }

  function Page<T>(s: seq<T>, offset: nat, limit: nat): seq<T> {
    if offset >= |s| then [] else if offset + limit >= |s| then s[offset..] else s[offset..offset + limit]
  }

  class SearchIndex {
    var invertedIndex: map<string, seq<Location>>
    var documentCount: nat
    ghost var events: seq<Event>

    /** Each term's list is its occurrences in everything indexed so far, in order. */
    ghost predicate Valid()
      reads this
    {
      Indexes(invertedIndex, AllPostings(events)) && documentCount == |events|
    }

    constructor ()
      ensures Valid() && events == []
    {
      invertedIndex, documentCount, events := map[], 0, [];
    }

    method IndexEvent(e: Event)
      requires Valid()
      modifies this
      ensures Valid() && events == old(events) + [e]
    {
      ghost var before := AllPostings(events);
      hide Tokenize, SearchableFields, AllPostings, Indexes, FieldPostings;
      var fields := SearchableFields(e.eventType, e.data);
      NoFields(e);
      assert before + [] == before;
      for n := 0 to |fields|
        invariant Indexes(invertedIndex, before + FieldPostings(e, fields[..n]))
        invariant events == old(events) && documentCount == old(documentCount)
      {
        ghost var done := before + FieldPostings(e, fields[..n]);
        AddTerms(Tokenize(fields[n].text), LocationOf(e, fields[n]), done);
        FieldPostingsSnoc(e, fields, n);
        Regroup(before, FieldPostings(e, fields[..n]),
                TermPostings(Tokenize(fields[n].text), LocationOf(e, fields[n])));
      }
      assert fields[..|fields|] == fields;
      documentCount := documentCount + 1;
      events := events + [e];
      AllPostingsSnoc(old(events), e);
    }

    /** The inner loop: one field's terms. */
    method AddTerms(tokens: seq<string>, l: Location, ghost done: seq<Posting>)
      requires Indexes(invertedIndex, done)
      modifies `invertedIndex
      ensures Indexes(invertedIndex, done + TermPostings(tokens, l))
    {
      hide Indexes;
      assert done + [] == done;
      for m := 0 to |tokens|
        invariant Indexes(invertedIndex, done + TermPostings(tokens[..m], l))
      {
        var token := tokens[m];
        IndexesSnoc(invertedIndex, done + TermPostings(tokens[..m], l), token, l);
        assert tokens[..m + 1][..m] == tokens[..m];
        Regroup(done, TermPostings(tokens[..m], l), [Posting(token, l)]);
        var locations := if token in invertedIndex then invertedIndex[token] else [];
        invertedIndex := invertedIndex[token := locations + [l]];
      }
      assert tokens[..|tokens|] == tokens;
    }

    /** The search loops over the query terms and their locations, then sorts and pages. */
    method Search(q: Query, offset: nat, limit: nat) returns (results: seq<Result>)
      requires Valid()
      ensures results == Page(FullResults(AllPostings(events), q), offset, limit)
    {
      ghost var postings := AllPostings(events);
      hide Tokenize, AllPostings, Found, Collect;
      var queryTokens := Tokenize(q.text);
      NothingFound(postings, q);
      if queryTokens == [] {
        return [];
      }
      var matches := NO_MATCHES;
      for n := 0 to |queryTokens|
        invariant matches == Collect(Found(postings, queryTokens[..n], q))
      {
        matches := MatchTerm(matches, queryTokens[n], q, Found(postings, queryTokens[..n], q));
        FoundSnoc(postings, queryTokens, n, q);
      }
      assert queryTokens[..|queryTokens|] == queryTokens;
      CollectFacts(Found(postings, queryTokens, q));
      results := Page(Sort(ByRelevance, ResultsOf(matches, matches.order)), offset, limit);
    }

    /** The inner loop: one query term's locations. */
    method MatchTerm(before: Matches, token: string, q: Query, ghost found: seq<Location>) returns (matches: Matches)
      requires Valid() && before == Collect(found)
      ensures matches == Collect(found + Passing(LocationsOf(AllPostings(events), token), q))
    {
      hide AllPostings, Collect, LocationsOf, Passing;
      var locations := if token in invertedIndex then invertedIndex[token] else [];
      matches := before;
      PassingNone(q);
      assert found + [] == found;
      for m := 0 to |locations|
        invariant matches == Collect(found + Passing(locations[..m], q))
      {
        var l := locations[m];
        assert locations[..m + 1] == locations[..m] + [l];
        PassingSnoc(locations[..m], l, q);
        assert Passing(locations[..m], q) + [] == Passing(locations[..m], q);
        if Passes(l, q) {
          Regroup(found, Passing(locations[..m], q), [l]);
          CollectSnoc(found + Passing(locations[..m], q), l);
          matches := AddMatch(matches, l);
        }
      }
      assert locations[..|locations|] == locations;
    }
  }

  lemma PassingNone(q: Query)
    ensures Passing([], q) == []
  {
  }

  lemma NoFields(e: Event)
    ensures FieldPostings(e, []) == []
  {
  }

  lemma FieldPostingsSnoc(e: Event, fields: seq<Field>, n: nat)
    requires n < |fields|
    ensures FieldPostings(e, fields[..n + 1])
         == FieldPostings(e, fields[..n]) + TermPostings(Tokenize(fields[n].text), LocationOf(e, fields[n]))
  {
    hide Tokenize;
    assert fields[..n + 1][..n] == fields[..n];
  }

  lemma NothingFound(postings: seq<Posting>, q: Query)
    ensures Found(postings, [], q) == [] && Collect([]) == NO_MATCHES
    ensures Tokenize(q.text) == [] ==> FullResults(postings, q) == []
  {
    hide Tokenize;
  }

  lemma FoundSnoc(postings: seq<Posting>, terms: seq<string>, n: nat, q: Query)
    requires n < |terms|
    ensures Found(postings, terms[..n + 1], q)
         == Found(postings, terms[..n], q) + Passing(LocationsOf(postings, terms[n]), q)
  {
    assert terms[..n + 1][..n] == terms[..n];
  }

  lemma CollectSnoc(ls: seq<Location>, l: Location)
    ensures Collect(ls + [l]) == AddMatch(Collect(ls), l)
  {
    assert (ls + [l])[..|ls|] == ls;
  }

  ghost predicate Indexes(index: map<string, seq<Location>>, postings: seq<Posting>) {
    forall t :: (if t in index then index[t] else []) == LocationsOf(postings, t)
  }

  lemma IndexesSnoc(index: map<string, seq<Location>>, postings: seq<Posting>, token: string, l: Location)
    requires Indexes(index, postings)
    ensures Indexes(index[token := (if token in index then index[token] else []) + [l]], postings + [Posting(token, l)])
  {
    assert (postings + [Posting(token, l)])[..|postings|] == postings;
  }

  lemma AllPostingsSnoc(events: seq<Event>, e: Event)
    ensures AllPostings(events + [e]) == AllPostings(events) + EventPostings(e)
  {
    assert (events + [e])[..|events|] == events;
  }

  /** The results in order of first match. */
  function Unsorted(postings: seq<Posting>, q: Query): seq<Result> {
    var m := Collect(Found(postings, Tokenize(q.text), q));
    CollectFacts(Found(postings, Tokenize(q.text), q));
    ResultsOf(m, m.order)
  }

  /** All results of a query, best first; a page is a slice of them. */
  function FullResults(postings: seq<Posting>, q: Query): seq<Result> {
    Sort(ByRelevance, Unsorted(postings, q))
  }

  function CountId(ls: seq<Location>, id: string): nat {
    if ls == [] then 0 else CountId(ls[..|ls| - 1], id) + if ls[|ls| - 1].eventId == id then 1 else 0
  }

  lemma {:induction false} CollectFact(ls: seq<Location>, id: string)
    ensures id in Collect(ls).order <==> CountId(ls, id) > 0
    ensures id in Collect(ls).order <==> id in Collect(ls).count
    ensures id in Collect(ls).order <==> id in Collect(ls).first
    ensures id in Collect(ls).order ==>
              && Collect(ls).count[id] == CountId(ls, id)
              && Collect(ls).first[id].eventId == id && Collect(ls).first[id] in ls
  {
    if ls != [] {
      CollectFact(ls[..|ls| - 1], id);
      CollectFact(ls[..|ls| - 1], ls[|ls| - 1].eventId);
    }
  }

  lemma {:induction false} CollectDistinct(ls: seq<Location>)
    ensures forall i, j :: 0 <= i < j < |Collect(ls).order| ==> Collect(ls).order[i] != Collect(ls).order[j]
  {
    if ls != [] {
      CollectDistinct(ls[..|ls| - 1]);
      CollectFact(ls[..|ls| - 1], ls[|ls| - 1].eventId);
    }
  }

  /** Collecting counts each id's matches, lists each id once, and keeps a location that matched. */
  lemma CollectFacts(ls: seq<Location>)
    ensures forall id :: id in Collect(ls).order <==> CountId(ls, id) > 0
    ensures forall id :: id in Collect(ls).order <==> id in Collect(ls).count
    ensures forall id :: id in Collect(ls).order <==> id in Collect(ls).first
    ensures forall id :: id in Collect(ls).order ==>
              && Collect(ls).count[id] == CountId(ls, id)
              && Collect(ls).first[id].eventId == id && Collect(ls).first[id] in ls
    ensures forall i, j :: 0 <= i < j < |Collect(ls).order| ==> Collect(ls).order[i] != Collect(ls).order[j]
  {
    CollectDistinct(ls);
    hide Collect, CountId;
    forall id
      ensures id in Collect(ls).order <==> CountId(ls, id) > 0
      ensures id in Collect(ls).order <==> id in Collect(ls).count
      ensures id in Collect(ls).order <==> id in Collect(ls).first
      ensures id in Collect(ls).order ==>
                && Collect(ls).count[id] == CountId(ls, id)
                && Collect(ls).first[id].eventId == id && Collect(ls).first[id] in ls
    {
      CollectFact(ls, id);
    }
  }

  lemma CollectHas(ls: seq<Location>, id: string)
    ensures id in Collect(ls).order <==> id in Collect(ls).count
    ensures id in Collect(ls).order <==> id in Collect(ls).first
    ensures id in Collect(ls).order <==> CountId(ls, id) > 0
  {
    CollectFacts(ls);
  }

  /** The location shown for an id is its first match. */
  lemma {:induction false} FirstMatchIsShown(ls: seq<Location>, id: string) returns (k: nat)
    requires CountId(ls, id) > 0
    ensures id in Collect(ls).first && k < |ls| && Collect(ls).first[id] == ls[k]
    ensures forall j :: 0 <= j < k ==> ls[j].eventId != id
  {
    var front, l := ls[..|ls| - 1], ls[|ls| - 1];
    assert ls == front + [l];
    CollectSnoc(front, l);
    CollectHas(front, id);
    if CountId(front, id) > 0 {
      CollectHas(front, l.eventId);
      k := FirstMatchIsShown(front, id);
    } else {
      k := |front|;
      NotCounted(front, id);
    }
  }

  lemma {:induction false} NotCounted(ls: seq<Location>, id: string)
    requires CountId(ls, id) == 0
    ensures forall j :: 0 <= j < |ls| ==> ls[j].eventId != id
  {
    if ls != [] { NotCounted(ls[..|ls| - 1], id); }
  }

  // ---------------------------------------------------------------------------
  // The naive scan
  // ---------------------------------------------------------------------------

  /** How often a term occurs in the fields of the event with this id that pass the filters. */
  function Occurrences(postings: seq<Posting>, term: string, q: Query, id: string): nat {
    if postings == [] then 0
    else
      var p := postings[|postings| - 1];
      Occurrences(postings[..|postings| - 1], term, q, id)
      + if p.term == term && Passes(p.location, q) && p.location.eventId == id then 1 else 0
  }

  /** The number of (query term, field term) matches, counted with multiplicity. */
  function Score(postings: seq<Posting>, terms: seq<string>, q: Query, id: string): nat {
    if terms == [] then 0
    else Score(postings, terms[..|terms| - 1], q, id) + Occurrences(postings, terms[|terms| - 1], q, id)
  }

  lemma {:induction false} CountIdConcat(a: seq<Location>, b: seq<Location>, id: string)
    ensures CountId(a + b, id) == CountId(a, id) + CountId(b, id)
  {
    if b == [] {
      assert a + b == a;
    } else {
      assert (a + b)[..|a + b| - 1] == a + b[..|b| - 1];
      CountIdConcat(a, b[..|b| - 1], id);
    }
  }

  lemma PassingSnoc(ls: seq<Location>, l: Location, q: Query)
    ensures Passing(ls + [l], q) == Passing(ls, q) + if Passes(l, q) then [l] else []
  {
    assert (ls + [l])[..|ls|] == ls;
  }

  lemma CountIdOne(l: Location, id: string)
    ensures CountId([l], id) == if l.eventId == id then 1 else 0
  {
    assert [l][..0] == [];
  }

  lemma {:induction false} CountLocations(postings: seq<Posting>, term: string, q: Query, id: string)
    ensures CountId(Passing(LocationsOf(postings, term), q), id) == Occurrences(postings, term, q, id)
  {
    if postings != [] {
      var front, p := postings[..|postings| - 1], postings[|postings| - 1];
      CountLocations(front, term, q, id);
      if p.term == term {
        PassingSnoc(LocationsOf(front, term), p.location, q);
        CountIdConcat(Passing(LocationsOf(front, term), q), [p.location], id);
        CountIdOne(p.location, id);
        assert Passing(LocationsOf(front, term), q) + [] == Passing(LocationsOf(front, term), q);
      } else {
        assert LocationsOf(postings, term) == LocationsOf(front, term);
      }
    }
  }

  /** What the index finds, per id, is what the scan counts. */
  lemma {:induction false} CountFound(postings: seq<Posting>, terms: seq<string>, q: Query, id: string)
    ensures CountId(Found(postings, terms, q), id) == Score(postings, terms, q, id)
  {
    if terms != [] {
      var front, t := terms[..|terms| - 1], terms[|terms| - 1];
      CountFound(postings, front, q, id);
      CountLocations(postings, t, q, id);
      CountIdConcat(Found(postings, front, q), Passing(LocationsOf(postings, t), q), id);
    }
  }

  lemma {:induction false} ResultsOfMembers(m: Matches, ids: seq<string>)
    requires forall id :: id in ids ==> id in m.count && id in m.first
    requires forall i, j :: 0 <= i < j < |ids| ==> ids[i] != ids[j]
    ensures |ResultsOf(m, ids)| == |ids|
    ensures forall k :: 0 <= k < |ids| ==> ResultsOf(m, ids)[k] == Result(ids[k], m.first[ids[k]], m.count[ids[k]])
  {
    if ids != [] { ResultsOfMembers(m, ids[..|ids| - 1]); }
  }

  lemma UnsortedFacts(postings: seq<Posting>, q: Query)
    ensures forall i, j :: 0 <= i < j < |Unsorted(postings, q)| ==>
              Unsorted(postings, q)[i].eventId != Unsorted(postings, q)[j].eventId
    ensures forall i :: 0 <= i < |Unsorted(postings, q)| ==>
              var r := Unsorted(postings, q)[i];
              && r.score == Score(postings, Tokenize(q.text), q, r.eventId) && r.score > 0
              && r.location.eventId == r.eventId
  {
    hide Tokenize;
    var terms := Tokenize(q.text);
    var m := Collect(Found(postings, terms, q));
    CollectFacts(Found(postings, terms, q));
    hide Found, Collect, Score;
    ResultsOfMembers(m, m.order);
    forall id { CountFound(postings, terms, q, id); }
  }

  lemma UnsortedHasAll(postings: seq<Posting>, q: Query, id: string)
    requires Score(postings, Tokenize(q.text), q, id) > 0
    ensures exists i :: 0 <= i < |Unsorted(postings, q)| && Unsorted(postings, q)[i].eventId == id
  {
    hide Tokenize;
    var terms := Tokenize(q.text);
    var m := Collect(Found(postings, terms, q));
    CollectFacts(Found(postings, terms, q));
    hide Found, Collect, Score;
    CountFound(postings, terms, q, id);
    ResultsOfMembers(m, m.order);
    var k :| 0 <= k < |m.order| && m.order[k] == id;
    assert Unsorted(postings, q)[k].eventId == id;
  }

  /** The results are exactly the ids with a positive score, each once, with its score and a location of
      its own, best first. */
  lemma SearchIsNaiveScan(postings: seq<Posting>, q: Query)
    ensures var full := FullResults(postings, q);
              && (forall i, j :: 0 <= i < j < |full| ==>
                    && full[i].eventId != full[j].eventId
                    && (full[i].score > full[j].score
                        || (full[i].score == full[j].score
                            && full[i].location.timestamp >= full[j].location.timestamp)))
              && (forall r :: r in full ==> r.location.eventId == r.eventId
                                            && 0 < r.score == Score(postings, Tokenize(q.text), q, r.eventId))
              && (forall id :: Score(postings, Tokenize(q.text), q, id) > 0 ==>
                    exists r :: r in full && r.eventId == id)
  {
    var rs := Unsorted(postings, q);
    var full := FullResults(postings, q);
    UnsortedFacts(postings, q);
    assert full == Sort(ByRelevance, rs);
    hide Tokenize, Unsorted, FullResults, Score;
    SortPermutes(ByRelevance, rs);
    SortOrdered(ByRelevance, rs);
    forall r ensures r in full <==> r in rs { MembersAgree(full, rs, r); }
    DistinctIdsPermute(rs, full);
    assert forall i, j :: 0 <= i < j < |full| ==> ByRelevance(full[i], full[j]);
    forall id | Score(postings, Tokenize(q.text), q, id) > 0 ensures exists r :: r in full && r.eventId == id {
      UnsortedHasAll(postings, q, id);
      var i :| 0 <= i < |rs| && rs[i].eventId == id;
      assert rs[i] in full;
    }
  }

  lemma DistinctIdsPermute(a: seq<Result>, b: seq<Result>)
    requires multiset(a) == multiset(b)
    requires forall i, j :: 0 <= i < j < |a| ==> a[i].eventId != a[j].eventId
    ensures forall i, j :: 0 <= i < j < |b| ==> b[i].eventId != b[j].eventId
  {
    forall i, j | 0 <= i < j < |b| ensures b[i].eventId != b[j].eventId {
      if b[i].eventId == b[j].eventId {
        MembersAgree(a, b, b[i]);
        MembersAgree(a, b, b[j]);
        assert b[i] == b[j];
        DistinctCounts(a, b[i]);
        RepeatCounts(b, i, j);
      }
    }
  }

  // ---------------------------------------------------------------------------
  // From postings back to events
  // ---------------------------------------------------------------------------

  ghost predicate Mentions(e: Event, f: Field, p: Posting) {
    && f in SearchableFields(e.eventType, e.data) && p.term in Tokenize(f.text)
    && p.location == Location(e.eventId, e.projectId, e.sessionId, e.sequence, e.eventType, e.timestamp, f)
  }

  lemma {:induction false} TermPostingsMembers(terms: seq<string>, l: Location, p: Posting)
    ensures p in TermPostings(terms, l) <==> p.term in terms && p.location == l
  {
    if terms != [] {
      assert terms == terms[..|terms| - 1] + [terms[|terms| - 1]];
      TermPostingsMembers(terms[..|terms| - 1], l, p);
    }
  }

  lemma {:induction false} FieldPostingsMembers(e: Event, fields: seq<Field>, p: Posting)
    ensures p in FieldPostings(e, fields)
            <==> exists f :: f in fields && p.location == LocationOf(e, f) && p.term in Tokenize(f.text)
  {
    hide Tokenize;
    if fields != [] {
      var front, f := fields[..|fields| - 1], fields[|fields| - 1];
      assert fields == front + [f];
      FieldPostingsMembers(e, front, p);
      TermPostingsMembers(Tokenize(f.text), LocationOf(e, f), p);
    }
  }

  /** A posting exists exactly for the terms of the searchable fields of the indexed events. */
  lemma {:induction false} PostingsAreFieldTerms(events: seq<Event>, p: Posting)
    ensures p in AllPostings(events) <==> exists e, f :: e in events && Mentions(e, f, p)
  {
    hide Tokenize, SearchableFields;
    if events != [] {
      var front, e := events[..|events| - 1], events[|events| - 1];
      assert events == front + [e];
      PostingsAreFieldTerms(front, p);
      FieldPostingsMembers(e, SearchableFields(e.eventType, e.data), p);
      if f :| f in SearchableFields(e.eventType, e.data) && p.location == LocationOf(e, f)
              && p.term in Tokenize(f.text) {
        assert Mentions(e, f, p);
      }
    }
  }

  lemma {:induction false} OccurrencesPositive(postings: seq<Posting>, term: string, q: Query, id: string)
    ensures Occurrences(postings, term, q, id) > 0
            <==> exists p :: p in postings && p.term == term && Passes(p.location, q) && p.location.eventId == id
  {
    hide Passes;
    if postings != [] {
      assert postings == postings[..|postings| - 1] + [postings[|postings| - 1]];
      OccurrencesPositive(postings[..|postings| - 1], term, q, id);
    }
  }

  lemma {:induction false} ScorePositive(postings: seq<Posting>, terms: seq<string>, q: Query, id: string)
    ensures Score(postings, terms, q, id) > 0
            <==> exists p :: p in postings && p.term in terms && Passes(p.location, q) && p.location.eventId == id
  {
    hide Passes, Occurrences;
    if terms != [] {
      var front, t := terms[..|terms| - 1], terms[|terms| - 1];
      assert terms == front + [t];
      ScorePositive(postings, front, q, id);
      OccurrencesPositive(postings, t, q, id);
    }
  }

  /** An event id is found exactly when some field that passes the filters has a term of the query. */
  lemma FoundExactlyWhenMentioned(events: seq<Event>, q: Query, id: string)
    ensures (exists r :: r in FullResults(AllPostings(events), q) && r.eventId == id)
            <==> exists e, f, t :: Contains(e, f, t) && t in Tokenize(q.text) && e in events && e.eventId == id
                   && (q.projectId == "" || e.projectId == q.projectId)
                   && (q.sessionId == "" || e.sessionId == q.sessionId)
                   && (q.eventTypes.None? || e.eventType in q.eventTypes.value)
  {
    FoundExactlyWhenPassing(events, q, id);
    hide Tokenize, AllPostings, FullResults, SearchableFields;
    if e, f, p :| e in events && Mentions(e, f, p) && p.term in Tokenize(q.text)
                  && Passes(p.location, q) && p.location.eventId == id {
      assert Contains(e, f, p.term);
    }
    if e, f, t :| Contains(e, f, t) && t in Tokenize(q.text) && e in events && e.eventId == id
                  && (q.projectId == "" || e.projectId == q.projectId)
                  && (q.sessionId == "" || e.sessionId == q.sessionId)
                  && (q.eventTypes.None? || e.eventType in q.eventTypes.value) {
      var p := Posting(t, LocationOf(e, f));
      assert Mentions(e, f, p) && Passes(p.location, q);
    }
  }

  /** A searchable field of the event has the term. */
  ghost predicate Contains(e: Event, f: Field, t: string) {
    f in SearchableFields(e.eventType, e.data) && t in Tokenize(f.text)
  }

  lemma FoundExactlyWhenPassing(events: seq<Event>, q: Query, id: string)
    ensures (exists r :: r in FullResults(AllPostings(events), q) && r.eventId == id)
            <==> exists e, f, p :: e in events && Mentions(e, f, p) && p.term in Tokenize(q.text)
                                   && Passes(p.location, q) && p.location.eventId == id
  {
    hide Tokenize, AllPostings, FullResults, Score, Passes, Mentions;
    var postings := AllPostings(events);
    SearchIsNaiveScan(postings, q);
    ScorePositive(postings, Tokenize(q.text), q, id);
    forall p ensures p in postings <==> exists e, f :: e in events && Mentions(e, f, p) {
      PostingsAreFieldTerms(events, p);
    }
  }

  /** Consecutive pages make up the page of both. */
  lemma PagesConcatenate<T>(s: seq<T>, offset: nat, a: nat, b: nat)
    ensures Page(s, offset, a) + Page(s, offset + a, b) == Page(s, offset, a + b)
    ensures Page(s, 0, |s|) == s
    ensures |Page(s, offset, a)| == if offset + a <= |s| then a else if offset <= |s| then |s| - offset else 0
    ensures forall i :: 0 <= i < |Page(s, offset, a)| ==> Page(s, offset, a)[i] == s[offset + i]
  {
  }

  // ---------------------------------------------------------------------------
  // The searchable fields
  // ---------------------------------------------------------------------------

  predicate Is(f: Field, name: string, text: Option<string>) {
    f.name == name && text == Some(f.text)
  }

  function Times(b: bool): nat { if b then 1 else 0 }

  lemma OneCounts(name: string, text: Option<string>, f: Field)
    ensures multiset(One(name, text))[f] == Times(Is(f, name, text))
  {
  }

  lemma InputCounts(input: ToolInput, f: Field)
    ensures multiset(InputFields(input))[f]
         == Times(Is(f, "command", input.command)) + Times(Is(f, "pattern", input.pattern))
            + Times(Is(f, "file_path", input.filePath))
            + if input.filePath.Some? then multiset(Components(input.filePath.value, ""))[f] else 0
  {
    OneCounts("command", input.command, f);
    OneCounts("pattern", input.pattern, f);
    OneCounts("file_path", input.filePath, f);
    hide One, Components, Is;
  }

  /** Which texts of an event are searched, and how often each, by the type of the event. */
  lemma SearchedFields(eventType: string, d: Data, f: Field)
    ensures var tool := eventType in ["ToolCallRequested", "ToolCallCompleted", "ToolCallFailed"];
            var input := eventType in ["ToolCallRequested", "ToolCallCompleted"] && d.toolInput.Some?;
              multiset(SearchableFields(eventType, d))[f]
              == Times(eventType == "UserPromptReceived" && Is(f, "prompt", d.prompt))
                 + Times(tool && Is(f, "tool_name", d.toolName))
                 + Times(eventType == "ToolCallFailed" && Is(f, "error", d.error))
                 + Times(eventType == "SessionStarted" && Is(f, "cwd", d.cwd))
                 + Times(eventType == "SessionStarted" && Is(f, "model", d.model))
                 + Times(eventType == "ToolCallCompleted" && f.name == "tool_response" && d.toolResponse.Some?
                         && f.text == if |d.toolResponse.value| > 500 then d.toolResponse.value[..500]
                                      else d.toolResponse.value)
                 + if input then multiset(InputFields(d.toolInput.value))[f] else 0
  {
    OneCounts("prompt", d.prompt, f);
    OneCounts("tool_name", d.toolName, f);
    OneCounts("error", d.error, f);
    OneCounts("cwd", d.cwd, f);
    OneCounts("model", d.model, f);
    OneCounts("tool_response", Truncated(d.toolResponse), f);
    hide One, InputFields;
  }

  /** Slashes split a path. */
  lemma {:induction false} ComponentsSplit(a: string, b: string, open: string)
    ensures Components(a + "/" + b, open) == Components(a, open) + Components(b, "")
  {
    if a == [] {
      assert ("" + "/" + b)[1..] == b && "" + "/" + b == "/" + b;
    } else {
      assert (a + "/" + b)[1..] == a[1..] + "/" + b;
      if a[0] == '/' {
        ComponentsSplit(a[1..], b, "");
      } else {
        ComponentsSplit(a[1..], b, open + [a[0]]);
      }
    }
  }

  /** A path without slashes is its own component, if it is not empty. */
  lemma {:induction false} ComponentOne(a: string, open: string)
    requires '/' !in a
    ensures Components(a, open) == if open + a == "" then [] else [Field("file_path", open + a)]
  {
    if a == [] {
      assert open + a == open;
    } else {
      assert a[0] in a && forall c :: c in a[1..] ==> c in a;
      ComponentOne(a[1..], open + [a[0]]);
      assert open + [a[0]] + a[1..] == open + a;
    }
  }

  // ---------------------------------------------------------------------------
  // The location shown
  // ---------------------------------------------------------------------------

  /** Occurrence `j` is one of the term that passes the filters, for this event id. */
  ghost predicate MatchedBy(postings: seq<Posting>, term: string, q: Query, id: string, j: int) {
    && 0 <= j < |postings| && postings[j].term == term
    && var l := postings[j].location;
       && l.eventId == id && (q.projectId == "" || l.projectId == q.projectId)
       && (q.sessionId == "" || l.sessionId == q.sessionId)
       && (q.eventTypes.None? || l.eventType in q.eventTypes.value)
  }

  ghost predicate FirstBy(postings: seq<Posting>, term: string, q: Query, id: string, j: int) {
    MatchedBy(postings, term, q, id, j) && forall k :: MatchedBy(postings, term, q, id, k) ==> j <= k
  }

  /** Query term `i` is the first that matches, and `j` is its first occurrence that does. */
  ghost predicate FirstMatched(postings: seq<Posting>, terms: seq<string>, q: Query, id: string, i: int, j: int) {
    && 0 <= i < |terms| && FirstBy(postings, terms[i], q, id, j)
    && forall h, k :: 0 <= h < i ==> !MatchedBy(postings, terms[h], q, id, k)
  }

  /** The first location with an id, if any. */
  function FirstFor(ls: seq<Location>, id: string): Option<Location> {
    if ls == [] then None
    else if ls[0].eventId == id then Some(ls[0]) else FirstFor(ls[1..], id)
  }

  lemma {:induction false} FirstForConcat(a: seq<Location>, b: seq<Location>, id: string)
    ensures FirstFor(a + b, id) == if FirstFor(a, id).Some? then FirstFor(a, id) else FirstFor(b, id)
  {
    if a == [] {
      assert a + b == b;
    } else {
      assert (a + b)[1..] == a[1..] + b;
      FirstForConcat(a[1..], b, id);
    }
  }

  lemma {:induction false} CollectShowsFirst(ls: seq<Location>, id: string)
    ensures id in Collect(ls).first <==> FirstFor(ls, id).Some?
    ensures id in Collect(ls).first ==> Collect(ls).first[id] == FirstFor(ls, id).value
  {
    if ls != [] {
      var front, l := ls[..|ls| - 1], ls[|ls| - 1];
      assert ls == front + [l];
      CollectShowsFirst(front, id);
      CollectHas(front, l.eventId);
      CollectSnoc(front, l);
      FirstForConcat(front, [l], id);
      assert FirstFor([l], id) == if l.eventId == id then Some(l) else None;
    }
  }

  lemma MatchedBySnoc(front: seq<Posting>, p: Posting, term: string, q: Query, id: string, j: int)
    ensures MatchedBy(front + [p], term, q, id, j)
            <==> MatchedBy(front, term, q, id, j)
                 || (j == |front| && p.term == term && Passes(p.location, q) && p.location.eventId == id)
  {
  }

  lemma PassingMore(front: seq<Posting>, p: Posting, term: string, q: Query)
    ensures Passing(LocationsOf(front + [p], term), q)
            == Passing(LocationsOf(front, term), q)
               + if p.term == term && Passes(p.location, q) then [p.location] else []
  {
    hide Passes;
    assert (front + [p])[..|front|] == front;
    var ls := LocationsOf(front, term);
    assert ls + [] == ls && Passing(ls, q) + [] == Passing(ls, q);
    PassingSnoc(ls, p.location, q);
  }

  ghost predicate ShowsFirst(first: Option<Location>, postings: seq<Posting>, term: string, q: Query, id: string) {
    && (first.None? ==> forall j :: !MatchedBy(postings, term, q, id, j))
    && (first.Some? ==> exists j :: FirstBy(postings, term, q, id, j) && postings[j].location == first.value)
  }

  lemma {:induction false} TermFirst(postings: seq<Posting>, term: string, q: Query, id: string)
    ensures ShowsFirst(FirstFor(Passing(LocationsOf(postings, term), q), id), postings, term, q, id)
  {
    if postings == [] {
      PassingNone(q);
    } else {
      var front, p := postings[..|postings| - 1], postings[|postings| - 1];
      assert postings == front + [p];
      TermFirst(front, term, q, id);
      PassingMore(front, p, term, q);
      var added := if p.term == term && Passes(p.location, q) then [p.location] else [];
      FirstForConcat(Passing(LocationsOf(front, term), q), added, id);
      assert FirstFor(added, id) == if added != [] && p.location.eventId == id then Some(p.location) else None;
      hide FirstFor, Passing, LocationsOf, Passes;
      TermFirstSnoc(FirstFor(Passing(LocationsOf(front, term), q), id), front, p, term, q, id);
    }
  }

  lemma TermFirstSnoc(first: Option<Location>, front: seq<Posting>, p: Posting, term: string, q: Query, id: string)
    requires ShowsFirst(first, front, term, q, id)
    ensures var last := if p.term == term && Passes(p.location, q) && p.location.eventId == id
                        then Some(p.location) else None;
              ShowsFirst(if first.Some? then first else last, front + [p], term, q, id)
  {
    forall j ensures MatchedBy(front + [p], term, q, id, j)
                     <==> MatchedBy(front, term, q, id, j)
                          || (j == |front| && p.term == term && Passes(p.location, q) && p.location.eventId == id) {
      MatchedBySnoc(front, p, term, q, id, j);
    }
    assert forall j :: MatchedBy(front, term, q, id, j) ==> j < |front|;
    hide MatchedBy, Passes;
    if first.Some? {
      var j :| FirstBy(front, term, q, id, j) && front[j].location == first.value;
      assert FirstBy(front + [p], term, q, id, j);
    } else if p.term == term && Passes(p.location, q) && p.location.eventId == id {
      assert FirstBy(front + [p], term, q, id, |front|);
    }
  }

  ghost predicate ShowsFirstOf(first: Option<Location>, postings: seq<Posting>, terms: seq<string>, q: Query,
                               id: string) {
    && (first.None? ==> forall h, k :: 0 <= h < |terms| ==> !MatchedBy(postings, terms[h], q, id, k))
    && (first.Some? ==>
          exists i, j :: FirstMatched(postings, terms, q, id, i, j) && postings[j].location == first.value)
  }

  lemma {:induction false} FoundFirst(postings: seq<Posting>, terms: seq<string>, q: Query, id: string)
    ensures ShowsFirstOf(FirstFor(Found(postings, terms, q), id), postings, terms, q, id)
  {
    if terms != [] {
      var front, t := terms[..|terms| - 1], terms[|terms| - 1];
      assert terms == front + [t];
      FoundFirst(postings, front, q, id);
      TermFirst(postings, t, q, id);
      FirstForConcat(Found(postings, front, q), Passing(LocationsOf(postings, t), q), id);
      hide FirstFor, Passing, LocationsOf, ShowsFirst, ShowsFirstOf;
      FoundFirstSnoc(FirstFor(Found(postings, front, q), id), FirstFor(Passing(LocationsOf(postings, t), q), id),
                     postings, front, t, q, id);
    }
  }

  lemma FoundFirstSnoc(first: Option<Location>, last: Option<Location>, postings: seq<Posting>, front: seq<string>,
                       t: string, q: Query, id: string)
    requires ShowsFirstOf(first, postings, front, q, id) && ShowsFirst(last, postings, t, q, id)
    ensures ShowsFirstOf(if first.Some? then first else last, postings, front + [t], q, id)
  {
    hide Passes;
    var terms := front + [t];
    if first.Some? {
      var i, j :| FirstMatched(postings, front, q, id, i, j) && postings[j].location == first.value;
      assert FirstMatched(postings, terms, q, id, i, j);
    } else if last.Some? {
      var j :| FirstBy(postings, t, q, id, j) && postings[j].location == last.value;
      assert FirstMatched(postings, terms, q, id, |front|, j);
    }
  }

  lemma ShownIsFirst(found: seq<Location>, r: Result)
    requires forall id :: id in Collect(found).order ==> id in Collect(found).count && id in Collect(found).first
    requires r in ResultsOf(Collect(found), Collect(found).order)
    ensures FirstFor(found, r.eventId) == Some(r.location)
  {
    var m := Collect(found);
    CollectFacts(found);
    ResultsOfMembers(m, m.order);
    CollectShowsFirst(found, r.eventId);
    hide Collect, ResultsOf, FirstFor, CountId;
    var k :| 0 <= k < |ResultsOf(m, m.order)| && ResultsOf(m, m.order)[k] == r;
  }

  lemma InUnsorted(postings: seq<Posting>, q: Query, r: Result)
    requires r in FullResults(postings, q)
    ensures r in Unsorted(postings, q)
  {
    hide Unsorted, Sort;
    SortPermutes(ByRelevance, Unsorted(postings, q));
    MembersAgree(FullResults(postings, q), Unsorted(postings, q), r);
  }

  /** The location that a result shows is that of its first match: of the first query term that matches, the first
      occurrence that does. */
  lemma ResultShowsFirstMatch(postings: seq<Posting>, q: Query, r: Result)
    requires r in FullResults(postings, q)
    ensures exists i, j :: FirstMatched(postings, Tokenize(q.text), q, r.eventId, i, j)
                           && postings[j].location == r.location
  {
    var terms := Tokenize(q.text);
    var found := Found(postings, terms, q);
    InUnsorted(postings, q, r);
    CollectFacts(found);
    hide Tokenize, Found, Collect, FirstMatched, FirstFor, CountId, FullResults;
    ShownIsFirst(found, r);
    FoundFirst(postings, terms, q, r.eventId);
  }
}
