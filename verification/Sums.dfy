/** Grouping items by a text and adding up their shares, for any commutative addition. */
module Sums {
  import opened Sorting

  datatype Addition<!T> = Addition(zero: T, plus: (T, T) -> T)

  ghost predicate Lawful<T(!new)>(a: Addition<T>) {
    && (forall x :: a.plus(x, a.zero) == x)
    && (forall x, y :: a.plus(x, y) == a.plus(y, x))
    && (forall x, y, z :: a.plus(x, a.plus(y, z)) == a.plus(a.plus(x, y), z))
  }

  lemma Unit<T(!new)>(a: Addition<T>, x: T)
    requires Lawful(a)
    ensures a.plus(x, a.zero) == x && a.plus(a.zero, x) == x
  {
  }

  lemma Swap<T(!new)>(a: Addition<T>, x: T, y: T, z: T)
    requires Lawful(a)
    ensures a.plus(x, a.plus(y, z)) == a.plus(y, a.plus(x, z))
  {
  }

  lemma SwapLast<T(!new)>(a: Addition<T>, x: T, y: T, z: T)
    requires Lawful(a)
    ensures a.plus(a.plus(x, y), z) == a.plus(a.plus(x, z), y)
  {
    assert a.plus(a.plus(x, y), z) == a.plus(x, a.plus(y, z));
    assert a.plus(a.plus(x, z), y) == a.plus(x, a.plus(z, y));
  }

  lemma Assoc<T(!new)>(a: Addition<T>, x: T, y: T, z: T)
    requires Lawful(a)
    ensures a.plus(a.plus(x, y), z) == a.plus(x, a.plus(y, z))
  {
  }

  function Get<K(==), T>(a: Addition<T>, m: map<K, T>, k: K): T {
    if k in m then m[k] else a.zero
  }

  // ---------------------------------------------------------------------------
  // The sum of a map
  // ---------------------------------------------------------------------------

  ghost function Sum<K, T>(a: Addition<T>, m: map<K, T>): T {
    if m == map[] then a.zero
    else
      var k :| k in m;
      a.plus(m[k], Sum(a, m - {k}))
  }

  lemma {:induction false} SumWithout<K, T(!new)>(a: Addition<T>, m: map<K, T>, k: K)
    requires Lawful(a) && k in m
    ensures Sum(a, m) == a.plus(m[k], Sum(a, m - {k}))
    decreases |m|
  {
    hide Lawful;
    var j :| j in m && Sum(a, m) == a.plus(m[j], Sum(a, m - {j}));
    if j != k {
      SumWithout(a, m - {j}, k);
      SumWithout(a, m - {k}, j);
      assert m - {j} - {k} == m - {k} - {j};
      Swap(a, m[j], m[k], Sum(a, m - {j} - {k}));
    }
  }

  lemma SumAt<K, T(!new)>(a: Addition<T>, m: map<K, T>, k: K)
    requires Lawful(a)
    ensures Sum(a, m) == a.plus(Get(a, m, k), Sum(a, m - {k}))
  {
    hide Lawful, Sum;
    if k in m {
      SumWithout(a, m, k);
    } else {
      assert m - {k} == m;
      Unit(a, Sum(a, m));
    }
  }

  /** Adding to one value adds as much to the sum. */
  lemma SumUpdated<K, T(!new)>(a: Addition<T>, m: map<K, T>, k: K, x: T)
    requires Lawful(a)
    ensures Sum(a, m[k := a.plus(Get(a, m, k), x)]) == a.plus(Sum(a, m), x)
  {
    hide Lawful, Sum;
    var after := m[k := a.plus(Get(a, m, k), x)];
    SumAt(a, after, k);
    SumAt(a, m, k);
    assert after - {k} == m - {k};
    SwapLast(a, Get(a, m, k), x, Sum(a, m - {k}));
  }

  // ---------------------------------------------------------------------------
  // Groups
  // ---------------------------------------------------------------------------

  /** How items are grouped, and what each contributes to its group. */
  datatype Grouping<!S, !K(==), !T> = Grouping(add: Addition<T>, key: S -> K, share: S -> T)

  function AddShare<S, K(==), T>(g: Grouping<S, K, T>, m: map<K, T>, s: S): map<K, T> {
    m[g.key(s) := g.add.plus(Get(g.add, m, g.key(s)), g.share(s))]
  }

  /** The groups as a loop over the items builds them. */
  function Grouped<S, K(==), T>(g: Grouping<S, K, T>, ss: seq<S>): map<K, T> {
    if ss == [] then map[] else AddShare(g, Grouped(g, ss[..|ss| - 1]), ss[|ss| - 1])
  }

  function Total<S, K(==), T>(g: Grouping<S, K, T>, ss: seq<S>): T {
    if ss == [] then g.add.zero else g.add.plus(Total(g, ss[..|ss| - 1]), g.share(ss[|ss| - 1]))
  }

  /** The items of one group, in their order. */
  function Those<S, K(==), T>(g: Grouping<S, K, T>, ss: seq<S>, k: K): seq<S> {
    if ss == [] then []
    else Those(g, ss[..|ss| - 1], k) + if g.key(ss[|ss| - 1]) == k then [ss[|ss| - 1]] else []
  }

  lemma GroupedSnoc<S, K, T>(g: Grouping<S, K, T>, ss: seq<S>, s: S)
    ensures Grouped(g, ss + [s]) == AddShare(g, Grouped(g, ss), s)
  {
    assert (ss + [s])[..|ss|] == ss;
  }

  lemma TotalSnoc<S, K, T>(g: Grouping<S, K, T>, ss: seq<S>, s: S)
    ensures Total(g, ss + [s]) == g.add.plus(Total(g, ss), g.share(s))
  {
    assert (ss + [s])[..|ss|] == ss;
  }

  lemma ThoseSnoc<S, K, T>(g: Grouping<S, K, T>, ss: seq<S>, s: S, k: K)
    ensures Those(g, ss + [s], k) == if g.key(s) == k then Those(g, ss, k) + [s] else Those(g, ss, k)
  {
    assert (ss + [s])[..|ss|] == ss;
  }

  /** They are the items with the key, all of them. */
  lemma {:induction false} ThoseMembers<S, K, T>(g: Grouping<S, K, T>, ss: seq<S>, k: K, s: S)
    ensures s in Those(g, ss, k) <==> s in ss && g.key(s) == k
  {
    if ss != [] {
      var front, last := ss[..|ss| - 1], ss[|ss| - 1];
      assert ss == front + [last];
      ThoseMembers(g, front, k, s);
      ThoseSnoc(g, front, last, k);
      hide Those;
    }
  }

  function Places<S, K, T>(g: Grouping<S, K, T>, ss: seq<S>, k: K): set<int> {
    set i | 0 <= i < |ss| && g.key(ss[i]) == k
  }

  lemma PlacesSnoc<S, K, T>(g: Grouping<S, K, T>, ss: seq<S>, s: S, k: K)
    ensures |Places(g, ss + [s], k)| == |Places(g, ss, k)| + if g.key(s) == k then 1 else 0
  {
    var all := ss + [s];
    assert forall i :: 0 <= i < |ss| ==> all[i] == ss[i];
    assert Places(g, all, k) == Places(g, ss, k) + if g.key(s) == k then {|ss|} else {};
  }

  lemma {:induction false} ThoseCount<S, K, T>(g: Grouping<S, K, T>, ss: seq<S>, k: K)
    ensures |Those(g, ss, k)| == |Places(g, ss, k)|
  {
    if ss == [] {
      assert Places(g, ss, k) == {};
    } else {
      var front, last := ss[..|ss| - 1], ss[|ss| - 1];
      assert ss == front + [last];
      ThoseCount(g, front, k);
      ThoseSnoc(g, front, last, k);
      PlacesSnoc(g, front, last, k);
      hide Those, Places;
    }
  }

  /** However items are grouped, the groups add up to the whole. */
  lemma {:induction false} GroupsSumToTotal<S, K, T(!new)>(g: Grouping<S, K, T>, ss: seq<S>)
    requires Lawful(g.add)
    ensures Sum(g.add, Grouped(g, ss)) == Total(g, ss)
  {
    hide Lawful;
    if ss != [] {
      var front, s := ss[..|ss| - 1], ss[|ss| - 1];
      GroupsSumToTotal(g, front);
      SumUpdated(g.add, Grouped(g, front), g.key(s), g.share(s));
    }
  }

  /** A group is exactly the total of its items, and exists when it has any. */
  lemma {:induction false} GroupIsTotalOfThose<S, K, T>(g: Grouping<S, K, T>, ss: seq<S>, k: K)
    ensures k in Grouped(g, ss) <==> Those(g, ss, k) != []
    ensures Get(g.add, Grouped(g, ss), k) == Total(g, Those(g, ss, k))
  {
    if ss != [] {
      var front, s := ss[..|ss| - 1], ss[|ss| - 1];
      assert ss == front + [s];
      GroupIsTotalOfThose(g, front, k);
      hide Grouped, Those, Total;
      ThoseSnoc(g, front, s, k);
      GroupedSnoc(g, front, s);
      TotalSnoc(g, Those(g, front, k), s);
    }
  }

  lemma {:induction false} TotalConcat<S, K, T(!new)>(g: Grouping<S, K, T>, ss: seq<S>, tt: seq<S>)
    requires Lawful(g.add)
    ensures Total(g, ss + tt) == g.add.plus(Total(g, ss), Total(g, tt))
  {
    if tt == [] {
      assert ss + tt == ss;
      Unit(g.add, Total(g, ss));
    } else {
      var front, t := tt[..|tt| - 1], tt[|tt| - 1];
      assert tt == front + [t] && ss + tt == ss + front + [t];
      TotalConcat(g, ss, front);
      hide Total, Lawful;
      TotalSnoc(g, ss + front, t);
      TotalSnoc(g, front, t);
      Assoc(g.add, Total(g, ss), Total(g, front), g.share(t));
    }
  }

  lemma {:induction false} ThoseConcat<S, K, T>(g: Grouping<S, K, T>, ss: seq<S>, tt: seq<S>, k: K)
    ensures Those(g, ss + tt, k) == Those(g, ss, k) + Those(g, tt, k)
  {
    if tt == [] {
      assert ss + tt == ss;
    } else {
      var front, t := tt[..|tt| - 1], tt[|tt| - 1];
      assert tt == front + [t] && ss + tt == ss + front + [t];
      ThoseConcat(g, ss, front, k);
      hide Those;
      ThoseSnoc(g, ss + front, t, k);
      ThoseSnoc(g, front, t, k);
    }
  }

  // ---------------------------------------------------------------------------
  // Plain sums over some of a list's items
  // ---------------------------------------------------------------------------

  function SumWhere<S>(ss: seq<S>, of: S -> bool, part: S -> int): int {
    if ss == [] then 0
    else SumWhere(ss[..|ss| - 1], of, part) + if of(ss[|ss| - 1]) then part(ss[|ss| - 1]) else 0
  }

  lemma SumWhereSnoc<S>(ss: seq<S>, s: S, of: S -> bool, part: S -> int)
    ensures SumWhere(ss + [s], of, part) == SumWhere(ss, of, part) + if of(s) then part(s) else 0
  {
    assert (ss + [s])[..|ss|] == ss;
  }

  // ---------------------------------------------------------------------------
  // Sorting first
  // ---------------------------------------------------------------------------

  lemma SharesCommute<S, K, T(!new)>(g: Grouping<S, K, T>, m: map<K, T>, s: S, t: S)
    requires Lawful(g.add)
    ensures AddShare(g, AddShare(g, m, s), t) == AddShare(g, AddShare(g, m, t), s)
  {
    if g.key(s) == g.key(t) { SwapLast(g.add, Get(g.add, m, g.key(s)), g.share(s), g.share(t)); }
  }

  lemma {:induction false} InsertedGroups<S, K, T(!new)>(g: Grouping<S, K, T>, le: (S, S) -> bool, ss: seq<S>, s: S)
    requires Lawful(g.add)
    ensures Grouped(g, Insert(le, ss, s)) == AddShare(g, Grouped(g, ss), s)
  {
    if ss == [] {
      assert [] + [s] == [s];
      GroupedSnoc(g, [], s);
    } else if le(ss[|ss| - 1], s) {
      GroupedSnoc(g, ss, s);
    } else {
      var front, last := ss[..|ss| - 1], ss[|ss| - 1];
      assert ss == front + [last];
      InsertedGroups(g, le, front, s);
      hide Grouped, AddShare, Lawful;
      GroupedSnoc(g, Insert(le, front, s), last);
      GroupedSnoc(g, front, last);
      SharesCommute(g, Grouped(g, front), s, last);
    }
  }

  /** The groups do not depend on the order of the items. */
  lemma {:induction false} SortedGroups<S, K, T(!new)>(g: Grouping<S, K, T>, le: (S, S) -> bool, ss: seq<S>)
    requires Lawful(g.add)
    ensures Grouped(g, Sort(le, ss)) == Grouped(g, ss)
  {
    if ss != [] {
      var front, last := ss[..|ss| - 1], ss[|ss| - 1];
      SortedGroups(g, le, front);
      InsertedGroups(g, le, Sort(le, front), last);
    }
  }

  lemma SortedTotal<S, K, T(!new)>(g: Grouping<S, K, T>, le: (S, S) -> bool, ss: seq<S>)
    requires Lawful(g.add)
    ensures Total(g, Sort(le, ss)) == Total(g, ss)
  {
    SortedGroups(g, le, ss);
    GroupsSumToTotal(g, Sort(le, ss));
    GroupsSumToTotal(g, ss);
  }

  // ---------------------------------------------------------------------------
  // The sum of a map, in the order of a list of its keys
  // ---------------------------------------------------------------------------

  function SumList<K(==), T>(a: Addition<T>, keys: seq<K>, m: map<K, T>): T
    requires forall k :: k in keys ==> k in m
  {
    if keys == [] then a.zero else a.plus(SumList(a, keys[..|keys| - 1], m), m[keys[|keys| - 1]])
  }

  lemma {:induction false} SumListSame<K, T>(a: Addition<T>, keys: seq<K>, m: map<K, T>, k: K)
    requires k !in keys && forall x :: x in keys ==> x in m
    ensures SumList(a, keys, m) == SumList(a, keys, m - {k})
  {
    if keys != [] { SumListSame(a, keys[..|keys| - 1], m, k); }
  }

  lemma {:induction false} SumListIsSum<K, T(!new)>(a: Addition<T>, keys: seq<K>, m: map<K, T>)
    requires Lawful(a) && forall k :: k in keys <==> k in m
    requires forall i, j :: 0 <= i < j < |keys| ==> keys[i] != keys[j]
    ensures SumList(a, keys, m) == Sum(a, m)
  {
    if keys == [] {
      assert m == map[];
    } else {
      var front, k := keys[..|keys| - 1], keys[|keys| - 1];
      assert keys == front + [k] && k !in front;
      assert forall x :: x in front <==> x in m - {k};
      SumListSame(a, front, m, k);
      SumListIsSum(a, front, m - {k});
      SumWithout(a, m, k);
      hide Sum;
      assert a.plus(Sum(a, m - {k}), m[k]) == a.plus(m[k], Sum(a, m - {k}));
    }
  }
}
