/** Stable sorting by a comparison, the contract of ECMAScript 2019's Array.prototype.sort.

    Sort is an insertion sort. StableOrderIsUnique shows that nothing depends on that choice:
    a sequence that is ordered and keeps equivalent elements in their given order is this one. */
module Sorting {

  ghost predicate TotalPreorder<T(!new)>(le: (T, T) -> bool) {
    && (forall a, b :: le(a, b) || le(b, a))
    && (forall a, b, c :: le(a, b) && le(b, c) ==> le(a, c))
  }

  ghost predicate Ordered<T>(le: (T, T) -> bool, s: seq<T>) {
    forall i, j :: 0 <= i < j < |s| ==> le(s[i], s[j])
  }

  /** The elements of `s` that compare equal to `x`, in order. */
  function Ties<T>(le: (T, T) -> bool, s: seq<T>, x: T): seq<T> {
    if s == [] then []
    else (if le(s[0], x) && le(x, s[0]) then [s[0]] else []) + Ties(le, s[1..], x)
  }

  /** Places `x` after every element that is not greater. */
  function Insert<T>(le: (T, T) -> bool, s: seq<T>, x: T): seq<T> {
    if s == [] then [x]
    else if le(s[|s| - 1], x) then s + [x]
    else Insert(le, s[..|s| - 1], x) + [s[|s| - 1]]
  }

  function Sort<T>(le: (T, T) -> bool, s: seq<T>): seq<T> {
    if s == [] then [] else Insert(le, Sort(le, s[..|s| - 1]), s[|s| - 1])
  }

  lemma {:induction false} InsertPermutes<T(!new)>(le: (T, T) -> bool, s: seq<T>, x: T)
    ensures multiset(Insert(le, s, x)) == multiset(s) + multiset{x}
    ensures |Insert(le, s, x)| == |s| + 1
  {
    if s != [] {
      assert s == s[..|s| - 1] + [s[|s| - 1]];
      InsertPermutes(le, s[..|s| - 1], x);
    }
  }

  lemma {:induction false} SortPermutes<T(!new)>(le: (T, T) -> bool, s: seq<T>)
    ensures multiset(Sort(le, s)) == multiset(s)
    ensures |Sort(le, s)| == |s|
  {
    if s != [] {
      assert s == s[..|s| - 1] + [s[|s| - 1]];
      SortPermutes(le, s[..|s| - 1]);
      InsertPermutes(le, Sort(le, s[..|s| - 1]), s[|s| - 1]);
    }
  }

  lemma MembersAgree<T>(s: seq<T>, t: seq<T>, x: T)
    requires multiset(s) == multiset(t)
    ensures x in s <==> x in t
  {
    assert x in s <==> x in multiset(s);
    assert x in t <==> x in multiset(t);
  }

  lemma RepeatCounts<T>(s: seq<T>, i: int, j: int)
    requires 0 <= i < j < |s| && s[i] == s[j]
    ensures multiset(s)[s[i]] >= 2
  {
    assert s == s[..i] + [s[i]] + s[i + 1..j] + [s[j]] + s[j + 1..];
  }

  lemma {:induction false} DistinctCounts<T>(s: seq<T>, x: T)
    requires forall i, j :: 0 <= i < j < |s| ==> s[i] != s[j]
    ensures multiset(s)[x] <= 1
  {
    if s != [] {
      assert s == [s[0]] + s[1..];
      DistinctCounts(s[1..], x);
      assert s[0] == x ==> x !in s[1..];
    }
  }

  lemma {:induction false} InsertOrdered<T(!new)>(le: (T, T) -> bool, s: seq<T>, x: T)
    requires TotalPreorder(le) && Ordered(le, s)
    ensures Ordered(le, Insert(le, s, x))
  {
    if s != [] && !le(s[|s| - 1], x) {
      var front, last := s[..|s| - 1], s[|s| - 1];
      InsertOrdered(le, front, x);
      InsertPermutes(le, front, x);
      var r := Insert(le, front, x);
      forall i | 0 <= i < |r| ensures le(r[i], last) {
        assert r[i] in multiset(r);
        assert r[i] in front || r[i] == x;
      }
    }
  }

  lemma {:induction false} SortOrdered<T(!new)>(le: (T, T) -> bool, s: seq<T>)
    requires TotalPreorder(le)
    ensures Ordered(le, Sort(le, s))
  {
    if s != [] {
      SortOrdered(le, s[..|s| - 1]);
      InsertOrdered(le, Sort(le, s[..|s| - 1]), s[|s| - 1]);
    }
  }

  lemma {:induction false} TiesConcat<T(!new)>(le: (T, T) -> bool, s: seq<T>, t: seq<T>, x: T)
    ensures Ties(le, s + t, x) == Ties(le, s, x) + Ties(le, t, x)
  {
    if s == [] {
      assert s + t == t;
    } else {
      assert (s + t)[1..] == s[1..] + t;
      TiesConcat(le, s[1..], t, x);
    }
  }

  lemma {:induction false} InsertKeepsTies<T(!new)>(le: (T, T) -> bool, s: seq<T>, x: T, y: T)
    requires TotalPreorder(le) && Ordered(le, s)
    ensures Ties(le, Insert(le, s, x), y) == Ties(le, s + [x], y)
  {
    if s != [] && !le(s[|s| - 1], x) {
      var front, last := s[..|s| - 1], s[|s| - 1];
      assert s == front + [last];
      InsertKeepsTies(le, front, x, y);
      TiesConcat(le, Insert(le, front, x), [last], y);
      TiesConcat(le, front, [x], y);
      TiesConcat(le, s, [x], y);
      TiesConcat(le, front, [last], y);
      assert Ties(le, [x], y) == [] || Ties(le, [last], y) == [];
    }
  }

  /** Stability: equivalent elements come out in the order they went in. */
  lemma {:induction false} SortStable<T(!new)>(le: (T, T) -> bool, s: seq<T>, y: T)
    requires TotalPreorder(le)
    ensures Ties(le, Sort(le, s), y) == Ties(le, s, y)
  {
    if s != [] {
      var front, last := s[..|s| - 1], s[|s| - 1];
      assert s == front + [last];
      SortStable(le, front, y);
      SortOrdered(le, front);
      InsertKeepsTies(le, Sort(le, front), last, y);
      TiesConcat(le, Sort(le, front), [last], y);
      TiesConcat(le, front, [last], y);
    }
  }

  /** The ties of a nonempty sequence begin with its first element, if that is one of them. */
  lemma TiesOfFirst<T(!new)>(le: (T, T) -> bool, s: seq<T>, x: T)
    requires s != []
    ensures Ties(le, s, x) == if le(s[0], x) && le(x, s[0]) then [s[0]] + Ties(le, s[1..], x) else Ties(le, s[1..], x)
  {
  }

  lemma {:induction false} FirstTie<T(!new)>(le: (T, T) -> bool, s: seq<T>, x: T)
    ensures Ties(le, s, x) != [] ==> Ties(le, s, x)[0] in s && le(Ties(le, s, x)[0], x)
  {
    if s != [] {
      TiesOfFirst(le, s, x);
      FirstTie(le, s[1..], x);
      hide Ties;
    }
  }

  lemma FirstIsTie<T(!new)>(le: (T, T) -> bool, s: seq<T>)
    requires TotalPreorder(le) && s != []
    ensures Ties(le, s, s[0]) != [] && Ties(le, s, s[0])[0] == s[0]
  {
    TiesOfFirst(le, s, s[0]);
    hide Ties;
  }

  /** The first element of one is no greater than that of the other, whose ties it has. */
  lemma FirstIsNoGreater<T(!new)>(le: (T, T) -> bool, s: seq<T>, t: seq<T>)
    requires TotalPreorder(le) && Ordered(le, t) && s != []
    requires Ties(le, s, s[0]) == Ties(le, t, s[0])
    ensures t != [] && le(t[0], s[0])
  {
    FirstIsTie(le, s);
    FirstTie(le, t, s[0]);
    assert t != [] by { assert Ties(le, [], s[0]) == []; }
    hide Ties;
    var i :| 0 <= i < |t| && t[i] == s[0];
    assert le(t[0], t[i]);
  }

  lemma SameFirst<T(!new)>(le: (T, T) -> bool, s: seq<T>, t: seq<T>)
    requires TotalPreorder(le) && Ordered(le, s) && Ordered(le, t) && s != []
    requires forall x :: Ties(le, s, x) == Ties(le, t, x)
    ensures t != [] && s[0] == t[0]
  {
    hide Ties, Ordered;
    FirstIsNoGreater(le, s, t);
    assert Ties(le, s, t[0]) == Ties(le, t, t[0]);
    FirstIsNoGreater(le, t, s);
    FirstIsTie(le, t);
    TiesOfFirst(le, s, t[0]);
  }

  /** Two orderings of the same ties are the same sequence. */
  lemma {:induction false} StableOrderIsUnique<T(!new)>(le: (T, T) -> bool, s: seq<T>, t: seq<T>)
    requires TotalPreorder(le) && Ordered(le, s) && Ordered(le, t)
    requires forall x :: Ties(le, s, x) == Ties(le, t, x)
    ensures s == t
  {
    if s == [] {
      if t != [] { FirstIsNoGreater(le, t, s); }
    } else {
      SameFirst(le, s, t);
      forall x ensures Ties(le, s[1..], x) == Ties(le, t[1..], x) {
        assert Ties(le, s, x) == Ties(le, t, x);
        TiesOfFirst(le, s, x);
        TiesOfFirst(le, t, x);
        hide Ties;
        assert ([s[0]] + Ties(le, s[1..], x))[1..] == Ties(le, s[1..], x);
        assert ([t[0]] + Ties(le, t[1..], x))[1..] == Ties(le, t[1..], x);
      }
      hide Ties;
      StableOrderIsUnique(le, s[1..], t[1..]);
      assert s == [s[0]] + s[1..] && t == [t[0]] + t[1..];
    }
  }

  lemma SortOfOrdered<T(!new)>(le: (T, T) -> bool, s: seq<T>)
    requires TotalPreorder(le) && Ordered(le, s)
    ensures Sort(le, s) == s
  {
    SortOrdered(le, s);
    forall x ensures Ties(le, Sort(le, s), x) == Ties(le, s, x) { SortStable(le, s, x); }
    StableOrderIsUnique(le, Sort(le, s), s);
  }

  /** Sorting a prefix first changes nothing. */
  lemma SortPrefixFirst<T(!new)>(le: (T, T) -> bool, s: seq<T>, t: seq<T>)
    requires TotalPreorder(le)
    ensures Sort(le, Sort(le, s) + t) == Sort(le, s + t)
  {
    SortOrdered(le, Sort(le, s) + t);
    SortOrdered(le, s + t);
    forall x ensures Ties(le, Sort(le, Sort(le, s) + t), x) == Ties(le, Sort(le, s + t), x) {
      SortStable(le, Sort(le, s) + t, x);
      SortStable(le, s + t, x);
      SortStable(le, s, x);
      TiesConcat(le, Sort(le, s), t, x);
      TiesConcat(le, s, t, x);
    }
    StableOrderIsUnique(le, Sort(le, Sort(le, s) + t), Sort(le, s + t));
  }
}
