/** When the start of a session comes out the same from merged files as from their concatenation. */
module UsageStarts {
  import opened Seqs
  import opened Sums
  import opened Texts
  import opened UsageFiles

  // ---------------------------------------------------------------------------
  // Runs of calls
  // ---------------------------------------------------------------------------

  ghost predicate NoneEmpty(runs: seq<seq<Call>>) {
    forall i :: 0 <= i < |runs| ==> runs[i] != []
  }

  /** The calls of a run leave the start found before them, if it is earlier. */
  ghost predicate KeepsStart(runs: seq<seq<Call>>, j: int) {
    0 < j < |runs| && Timed(runs[j]) && Started(runs[j - 1]) != ""
  }

  /** No later run makes the parser forget the start of this one. */
  ghost predicate Remembered(runs: seq<seq<Call>>, i: int) {
    0 <= i < |runs| && forall j :: i < j < |runs| ==> KeepsStart(runs, j)
  }

  ghost predicate StartOf(t: string, run: seq<Call>) {
    Started(run) == t
  }

  /** The earliest start of all runs. */
  ghost predicate Earliest(t: string, runs: seq<seq<Call>>) {
    && (exists i :: 0 <= i < |runs| && StartOf(t, runs[i]))
    && (forall i :: 0 <= i < |runs| ==> Leq(t, Started(runs[i])))
  }

  ghost predicate EarliestRemembered(t: string, runs: seq<seq<Call>>) {
    && (exists i :: Remembered(runs, i) && StartOf(t, runs[i]))
    && (forall i :: Remembered(runs, i) ==> Leq(t, Started(runs[i])))
  }

  /** Each start that is forgotten is no earlier than one that is remembered. */
  ghost predicate ForgottenAreLater(runs: seq<seq<Call>>) {
    forall i :: 0 <= i < |runs| && !Remembered(runs, i)
      ==> exists j :: Remembered(runs, j) && Leq(Started(runs[j]), Started(runs[i]))
  }

  lemma RememberedSnoc(runs: seq<seq<Call>>, b: seq<Call>, i: int)
    requires runs != []
    ensures Remembered(runs + [b], i)
            <==> i == |runs| || (Remembered(runs, i) && Timed(b) && Started(runs[|runs| - 1]) != "")
  {
    var all, n := runs + [b], |runs|;
    assert KeepsStart(all, n) <==> Timed(b) && Started(runs[n - 1]) != "" by {
      assert all[n] == b && all[n - 1] == runs[n - 1];
    }
    forall j | 0 < j < n ensures KeepsStart(all, j) <==> KeepsStart(runs, j) {
      assert all[j] == runs[j] && all[j - 1] == runs[j - 1];
    }
    hide KeepsStart, Timed, Started;
    if Remembered(all, i) && i < n {
      assert KeepsStart(all, n);
      assert forall j :: i < j < n ==> KeepsStart(all, j);
    }
  }

  lemma MinIsLeast(s: string, t: string)
    ensures Leq(Min(s, t), s) && Leq(Min(s, t), t) && (Min(s, t) == s || Min(s, t) == t)
  {
    LeqTotal(s, t);
    LeqTotal(t, s);
    hide Leq;
  }

  /** The concatenation starts with the earliest start that is remembered. */
  lemma {:induction false} ParsedStart(runs: seq<seq<Call>>)
    requires runs != [] && NoneEmpty(runs)
    ensures EarliestRemembered(Started(Flatten(runs)), runs)
    ensures Started(Flatten(runs)) == "" <==> Started(runs[|runs| - 1]) == ""
  {
    var front, b := runs[..|runs| - 1], runs[|runs| - 1];
    assert runs == front + [b];
    FlattenSnoc(front, b);
    hide Started, Leq, Timed, Min, Flatten, EarliestRemembered;
    if front == [] {
      assert Flatten(runs) == b by { assert Flatten<Call>([]) == []; }
      OneRun(runs, b);
    } else {
      ParsedStart(front);
      StartedConcat(Flatten(front), b);
      EmptyIsLeast(Started(Flatten(front)), Started(b));
      OneMoreRun(front, b, Started(Flatten(front)));
    }
  }

  lemma OneRun(runs: seq<seq<Call>>, b: seq<Call>)
    requires runs == [b]
    ensures EarliestRemembered(Started(b), runs)
  {
    LeqTotal(Started(b), Started(b));
    hide Started, Leq, Timed;
    assert Remembered(runs, 0) && StartOf(Started(b), runs[0]);
  }

  lemma OneMoreRun(runs: seq<seq<Call>>, b: seq<Call>, t: string)
    requires runs != [] && EarliestRemembered(t, runs) && (t == "" <==> Started(runs[|runs| - 1]) == "")
    ensures EarliestRemembered(Resumed(t, Timed(b), Started(b)), runs + [b])
  {
    var all, u := runs + [b], Resumed(t, Timed(b), Started(b));
    forall i ensures Remembered(all, i) <==> i == |runs| || (Timed(b) && t != "" && Remembered(runs, i)) {
      RememberedSnoc(runs, b, i);
    }
    MinIsLeast(t, Started(b));
    LeqTotal(Started(b), Started(b));
    hide Started, Leq, Timed, Min, Remembered;
    forall i | Remembered(all, i) ensures Leq(u, Started(all[i])) {
      if i < |runs| { LeqTransitive(u, t, Started(runs[i])); }
    }
    if u == Started(b) {
      assert Remembered(all, |runs|) && StartOf(u, all[|runs|]);
    } else {
      var i :| Remembered(runs, i) && StartOf(t, runs[i]);
      assert Remembered(all, i) && StartOf(u, all[i]);
    }
  }

  // ---------------------------------------------------------------------------
  // The runs of one session in the files
  // ---------------------------------------------------------------------------

  /** The calls of a session in each file that has any. */
  function RunsOf(files: seq<seq<Call>>, sid: string): seq<seq<Call>> {
    if files == [] then []
    else
      var calls := Those(BY_SESSION, files[|files| - 1], sid);
      RunsOf(files[..|files| - 1], sid) + if calls != [] then [calls] else []
  }

  lemma RunsOfSnoc(files: seq<seq<Call>>, last: seq<Call>, sid: string)
    ensures var calls := Those(BY_SESSION, last, sid);
              RunsOf(files + [last], sid) == if calls != [] then RunsOf(files, sid) + [calls] else RunsOf(files, sid)
  {
    hide Those;
    assert (files + [last])[..|files|] == files;
    assert RunsOf(files, sid) + [] == RunsOf(files, sid);
  }

  lemma {:induction false} RunsAreThose(files: seq<seq<Call>>, sid: string)
    ensures Flatten(RunsOf(files, sid)) == Those(BY_SESSION, Flatten(files), sid) && NoneEmpty(RunsOf(files, sid))
  {
    if files != [] {
      var front, last := files[..|files| - 1], files[|files| - 1];
      var runs, calls := RunsOf(front, sid), Those(BY_SESSION, last, sid);
      assert files == front + [last];
      RunsAreThose(front, sid);
      hide Flatten, Those, RunsOf;
      RunsOfSnoc(front, last, sid);
      FlattenSnoc(front, last);
      ThoseConcat(BY_SESSION, Flatten(front), last, sid);
      FlattenSnoc(runs, calls);
      assert Flatten(runs) + [] == Flatten(runs);
    }
  }

  lemma EarliestSnoc(t: string, runs: seq<seq<Call>>, b: seq<Call>)
    requires Earliest(t, runs)
    ensures Earliest(Min(t, Started(b)), runs + [b])
  {
    var all, u := runs + [b], Min(t, Started(b));
    MinIsLeast(t, Started(b));
    hide Started, Leq, Min;
    forall i | 0 <= i < |all| ensures Leq(u, Started(all[i])) {
      if i < |runs| { LeqTransitive(u, t, Started(runs[i])); }
    }
    if u == Started(b) {
      assert StartOf(u, all[|runs|]);
    } else {
      var i :| 0 <= i < |runs| && StartOf(t, runs[i]);
      assert StartOf(u, all[i]);
    }
  }

  lemma EarliestOne(b: seq<Call>)
    ensures Earliest(Started(b), [b])
  {
    LeqTotal(Started(b), Started(b));
    assert StartOf(Started(b), [b][0]);
  }

  /** The merge starts with the earliest start of all. */
  lemma {:induction false} MergedStart(files: seq<seq<Call>>, sid: string)
    ensures sid in AllSessions(files) <==> RunsOf(files, sid) != []
    ensures sid in AllSessions(files) ==> Earliest(AllSessions(files)[sid].startedAt, RunsOf(files, sid))
  {
    if files != [] {
      var front, last := files[..|files| - 1], files[|files| - 1];
      var calls := Those(BY_SESSION, last, sid);
      MergedStart(front, sid);
      SessionsAreExact(last, sid);
      EarliestOne(calls);
      assert RunsOf(front, sid) + [] == RunsOf(front, sid);
      hide Earliest, Leq, Started, Sessions, Those;
      if sid in AllSessions(front) { EarliestSnoc(AllSessions(front)[sid].startedAt, RunsOf(front, sid), calls); }
      assert [] + [calls] == [calls];
    }
  }

  lemma SameStart(t: string, u: string, runs: seq<seq<Call>>)
    requires Earliest(t, runs) && EarliestRemembered(u, runs)
    ensures t == u <==> ForgottenAreLater(runs)
  {
    hide Started, Leq, Timed;
    if t == u {
      var j :| Remembered(runs, j) && StartOf(t, runs[j]);
      assert forall i :: 0 <= i < |runs| ==> Leq(Started(runs[j]), Started(runs[i]));
    }
    if ForgottenAreLater(runs) {
      var i :| 0 <= i < |runs| && StartOf(t, runs[i]);
      var j := i;
      if !Remembered(runs, i) {
        j :| Remembered(runs, j) && Leq(Started(runs[j]), Started(runs[i]));
      } else {
        LeqTotal(t, t);
      }
      LeqTransitive(u, Started(runs[j]), t);
      var k :| Remembered(runs, k) && StartOf(u, runs[k]);
      LeqAntisymmetric(t, u);
    }
  }

  lemma CallsComposeExactly(files: seq<seq<Call>>, sid: string)
    ensures sid in AllSessions(files) <==> sid in Sessions(Flatten(files))
    ensures sid in AllSessions(files) ==>
              (AllSessions(files)[sid] == Sessions(Flatten(files))[sid] <==> ForgottenAreLater(RunsOf(files, sid)))
  {
    var runs := RunsOf(files, sid);
    CallsCompose(files);
    if sid in AllSessions(files) {
      MergedStart(files, sid);
      RunsAreThose(files, sid);
      SessionsAreExact(Flatten(files), sid);
      ParsedStart(runs);
      hide Sessions, AllSessions, Those, Earliest, EarliestRemembered, ForgottenAreLater, Flatten, Started, RunsOf;
      SameStart(AllSessions(files)[sid].startedAt, Started(Flatten(runs)), runs);
    }
  }

  /** Over any number of files, a session comes out of the merge as out of the concatenation exactly when each start
      that the parser of the concatenation forgets is no earlier than one that it remembers. */
  lemma FilesComposeExactly(files: seq<seq<Line>>, sid: string)
    ensures var merged, parsed := AllSessions(CallsOfEach(files)), Sessions(CallsOf(Flatten(files)));
              && (sid in merged <==> sid in parsed)
              && (sid in merged ==>
                    (merged[sid] == parsed[sid] <==> ForgottenAreLater(RunsOf(CallsOfEach(files), sid))))
  {
    CallsOfFlattened(files);
    hide AllSessions, Sessions, CallsOf, CallsOfEach, Flatten, RunsOf, ForgottenAreLater;
    CallsComposeExactly(CallsOfEach(files), sid);
  }
}
