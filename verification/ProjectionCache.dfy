/** The projection cache: a memory budget kept by evicting the least recently used entries. */
module ProjectionCaches {
  import opened Options
  import opened Sorting
  import opened Sums

  /** A cached projection; its content plays no part and is kept as text. */
  datatype Entry = Entry(data: string, expiresAt: int, accessOrder: nat, sizeBytes: nat, builtUpToSequence: int)

  /** What an unbounded cache would still hold for a key. */
  datatype Stored = Stored(data: string, expiresAt: int)

  type Entries = map<string, Entry>

  const SIZES: Addition<int> := Addition(0, (a: int, b: int) => a + b)

  function Sizes(m: Entries): map<string, int> {
    map k | k in m :: m[k].sizeBytes
  }

  /** The memory that the entries take. */
  ghost function Memory(m: Entries): int {
    Sum(SIZES, Sizes(m))
  }

  lemma MemoryWithout(m: Entries, k: string)
    requires k in m
    ensures Memory(m) == m[k].sizeBytes + Memory(m - {k})
  {
    assert Sizes(m) - {k} == Sizes(m - {k});
    SumWithout(SIZES, Sizes(m), k);
  }

  lemma MemoryWith(m: Entries, k: string, e: Entry)
    requires k !in m
    ensures Memory(m[k := e]) == Memory(m) + e.sizeBytes
  {
    MemoryWithout(m[k := e], k);
    assert m[k := e] - {k} == m;
  }

  lemma MemoryTouched(m: Entries, k: string, order: nat)
    requires k in m
    ensures Memory(m[k := m[k].(accessOrder := order)]) == Memory(m)
  {
    var e := m[k].(accessOrder := order);
    MemoryWithout(m, k);
    MemoryWith(m - {k}, k, e);
    assert (m - {k})[k := e] == m[k := e];
  }

  /** No access number is past the counter or shared by two entries. */
  ghost predicate AccessOk(m: Entries, counter: nat) {
    && (forall k :: k in m ==> m[k].accessOrder <= counter)
    && (forall k, j :: k in m && j in m && m[k].accessOrder == m[j].accessOrder ==> k == j)
  }

  lemma AccessKept(m: Entries, k: string, e: Entry, counter: nat)
    requires AccessOk(m, counter)
    ensures AccessOk(m - {k}, counter)
    ensures AccessOk(m[k := e.(accessOrder := counter + 1)], counter + 1)
  {
  }

  ghost predicate IsStored(m: Entries, stored: map<string, Stored>) {
    forall k :: k in m ==> k in stored && stored[k] == Stored(m[k].data, m[k].expiresAt)
  }

  ghost predicate WithinBudget(m: Entries, budget: nat) {
    Memory(m) <= budget || exists k :: m.Keys == {k}
  }

  lemma BudgetKept(m: Entries, k: string, budget: nat)
    requires WithinBudget(m, budget)
    ensures WithinBudget(m - {k}, budget)
  {
    if k in m {
      MemoryWithout(m, k);
      if j :| m.Keys == {j} {
        assert m - {k} == map[];
      }
    } else {
      assert m - {k} == m;
    }
  }

  lemma TouchKeepsBudget(m: Entries, k: string, order: nat, budget: nat)
    requires k in m && WithinBudget(m, budget)
    ensures WithinBudget(m[k := m[k].(accessOrder := order)], budget)
    ensures Memory(m[k := m[k].(accessOrder := order)]) == Memory(m)
  {
    MemoryTouched(m, k, order);
    assert m[k := m[k].(accessOrder := order)].Keys == m.Keys;
  }

  lemma MemoryOfOne(m: Entries, k: string)
    requires m.Keys == {k}
    ensures Memory(m) == m[k].sizeBytes
  {
    MemoryWithout(m, k);
    assert Sizes(m - {k}) == map[];
  }

  ghost predicate SubMap(a: Entries, b: Entries) {
    forall k :: k in a ==> k in b && a[k] == b[k]
  }

  /** Everything evicted was accessed before everything that stays. */
  ghost predicate OldestFirst(before: Entries, after: Entries) {
    forall k, j :: k in before && k !in after && j in after ==> before[k].accessOrder < after[j].accessOrder
  }

  /** The evicted entry accessed last. */
  ghost predicate LastEvicted(before: Entries, after: Entries, k: string) {
    && k in before && k !in after
    && forall j :: j in before && j !in after ==> before[j].accessOrder <= before[k].accessOrder
  }

  /** `after` is `before` less its least recently used entries, and no more of them than it takes. */
  ghost predicate EvictedTo(before: Entries, after: Entries, target: int) {
    && SubMap(after, before) && OldestFirst(before, after)
    && (Memory(after) <= target || after == map[])
    && (after == before || exists k :: LastEvicted(before, after, k) && Memory(after) + before[k].sizeBytes > target)
  }

  /** Nothing goes when the new entry fits; otherwise the least recently used, down to four fifths of the budget. */
  ghost predicate MadeRoom(before: Entries, after: Entries, newSize: nat, budget: nat) {
    if Memory(before) + newSize <= budget then after == before
    else EvictedTo(before, after, budget * 4 / 5 - newSize)
  }

  lemma FourFifths(x: int, budget: nat)
    ensures x <= budget * 4 / 5 <==> 5 * x <= 4 * budget
  {
  }

  /** In full: the entries that stay are as they were and accessed after all that go; with the new entry they fit four
      fifths of the budget, if any stay; and with the last that went they would not. */
  lemma MadeRoomExactly(before: Entries, after: Entries, newSize: nat, budget: nat)
    requires Memory(before) + newSize > budget
    ensures MadeRoom(before, after, newSize, budget)
            <==> && (forall k :: k in after ==> k in before && after[k] == before[k])
                 && (forall k, j :: k in before && k !in after && j in after ==>
                                      before[k].accessOrder < before[j].accessOrder)
                 && (5 * (Memory(after) + newSize) <= 4 * budget || after == map[])
                 && (after == before || exists k :: LastEvicted(before, after, k)
                                          && 5 * (Memory(after) + before[k].sizeBytes + newSize) > 4 * budget)
  {
    hide Memory, LastEvicted;
    FourFifths(Memory(after) + newSize, budget);
    forall k | k in before
      ensures Memory(after) + before[k].sizeBytes > budget * 4 / 5 - newSize
              <==> 5 * (Memory(after) + before[k].sizeBytes + newSize) > 4 * budget {
      FourFifths(Memory(after) + before[k].sizeBytes + newSize, budget);
    }
  }

  lemma EvictedFits(before: Entries, after: Entries, target: int, counter: nat)
    requires EvictedTo(before, after, target) && AccessOk(before, counter)
    ensures AccessOk(after, counter) && SubMap(after, before) && (Memory(after) <= target || after == map[])
  {
  }

  /** How many entries went. */
  ghost function Gone(before: Entries, after: Entries): int {
    |before| - |after|
  }

  lemma OneMoreGone(before: Entries, after: Entries, k: string)
    requires k in after
    ensures Gone(before, after - {k}) == Gone(before, after) + 1
  {
    assert (after - {k}).Keys == after.Keys - {k};
  }

  lemma {:induction false} MemoryMonotone(a: Entries, b: Entries)
    requires SubMap(a, b)
    ensures Memory(a) <= Memory(b)
    decreases |b|
  {
    if j :| j in b && j !in a {
      MemoryWithout(b, j);
      MemoryMonotone(a, b - {j});
    } else {
      assert a == b;
    }
  }

  /** The budget is kept exactly when each entry fits it on its own. */
  lemma WithinBudgetExactly(m: Entries, budget: nat)
    requires WithinBudget(m, budget)
    ensures Memory(m) <= budget <==> forall k :: k in m ==> m[k].sizeBytes <= budget
  {
    if Memory(m) <= budget {
      forall k | k in m ensures m[k].sizeBytes <= budget {
        MemoryWithout(m, k);
        MemoryMonotone(map[], m - {k});
      }
    } else {
      var k :| m.Keys == {k};
      MemoryOfOne(m, k);
    }
  }

  /** If `b` keeps something that `a` evicts, it keeps all of `a` and the last entry `a` evicts. */
  lemma KeepsLastEvicted(before: Entries, a: Entries, b: Entries, counter: nat, x: string, k: string)
    requires AccessOk(before, counter) && SubMap(a, before) && SubMap(b, before)
    requires OldestFirst(before, a) && OldestFirst(before, b)
    requires LastEvicted(before, a, k) && x in b && x !in a
    ensures k in b && SubMap(a, b - {k})
  {
    assert before[x].accessOrder <= before[k].accessOrder;
    assert k in b;
    forall j | j in a ensures j in b && b[j] == a[j] {
      assert before[k].accessOrder < a[j].accessOrder;
    }
  }

  /** Of two ways to evict, neither can keep an entry the other evicts: its eviction was needed. */
  lemma EvictedInOne(before: Entries, a: Entries, b: Entries, target: int, counter: nat, x: string)
    requires AccessOk(before, counter) && EvictedTo(before, a, target) && EvictedTo(before, b, target)
    requires x in b
    ensures x in a
  {
    if x !in a {
      var k :| LastEvicted(before, a, k) && Memory(a) + before[k].sizeBytes > target;
      KeepsLastEvicted(before, a, b, counter, x, k);
      hide AccessOk, OldestFirst, LastEvicted;
      MemoryWithout(b, k);
      MemoryMonotone(a, b - {k});
      assert false;
    }
  }

  /** The budget and the access order determine what is evicted. */
  lemma EvictionIsDetermined(before: Entries, a: Entries, b: Entries, target: int, counter: nat)
    requires AccessOk(before, counter) && EvictedTo(before, a, target) && EvictedTo(before, b, target)
    ensures a == b
  {
    forall x ensures x in a <==> x in b {
      if x in a { EvictedInOne(before, b, a, target, counter, x); }
      if x in b { EvictedInOne(before, a, b, target, counter, x); }
    }
  }

  predicate StartsAt(s: string, sub: string, i: nat) {
    i + |sub| <= |s| && s[i..i + |sub|] == sub
  }

  predicate Includes(s: string, sub: string) {
    exists i: nat | i <= |s| :: StartsAt(s, sub, i)
  }

  lemma IncludesExactly(s: string, sub: string)
    ensures Includes(s, sub) <==> exists before, after :: s == before + sub + after
  {
    if Includes(s, sub) {
      var i: nat :| i <= |s| && StartsAt(s, sub, i);
      assert s == s[..i] + sub + s[i + |sub|..];
    }
    if exists before, after :: s == before + sub + after {
      var before, after :| s == before + sub + after;
      assert StartsAt(s, sub, |before|);
    }
  }

  /** An empty session id counts as none. */
  predicate ForSession(key: string, projectId: string, sessionId: string) {
    if sessionId != "" then Includes(key, projectId) && Includes(key, sessionId) else Includes(key, projectId)
  }

  /** The keys of a session have its project's id within them, and its own, if any. */
  lemma ForSessionExactly(key: string, projectId: string, sessionId: string)
    ensures ForSession(key, projectId, sessionId)
            <==> && (exists before, after :: key == before + projectId + after)
                 && (sessionId != "" ==> exists before, after :: key == before + sessionId + after)
  {
    IncludesExactly(key, projectId);
    IncludesExactly(key, sessionId);
    hide Includes;
  }

  // ---------------------------------------------------------------------------
  // Listings by access
  // ---------------------------------------------------------------------------

  predicate ByAccess(a: (string, Entry), b: (string, Entry)) {
    a.1.accessOrder <= b.1.accessOrder
  }

  /** The entries with their keys, each once. */
  ghost predicate Lists(listed: seq<(string, Entry)>, m: Entries) {
    && (forall p :: p in multiset(listed) <==> p.0 in m && p.1 == m[p.0])
    && (forall i, j :: 0 <= i < j < |listed| ==> listed[i].0 != listed[j].0)
  }

  ghost predicate ListsByAccess(sorted: seq<(string, Entry)>, m: Entries) {
    && (forall i :: 0 <= i < |sorted| ==> sorted[i].0 in m && sorted[i].1 == m[sorted[i].0])
    && (forall k :: k in m ==> exists i :: 0 <= i < |sorted| && sorted[i].0 == k)
    && (forall i, j :: 0 <= i < j < |sorted| ==> sorted[i].1.accessOrder < sorted[j].1.accessOrder)
  }

  /** What is left once the first `n` of the listing are gone. */
  ghost function Remaining(sorted: seq<(string, Entry)>, m: Entries, n: nat): Entries
    requires n <= |sorted|
  {
    if n == 0 then m else Remaining(sorted, m, n - 1) - {sorted[n - 1].0}
  }

  lemma {:induction false} RemainingFacts(sorted: seq<(string, Entry)>, m: Entries, n: nat)
    requires n <= |sorted|
    ensures SubMap(Remaining(sorted, m, n), m)
    ensures forall k :: k in Remaining(sorted, m, n) <==> k in m && forall i :: 0 <= i < n ==> sorted[i].0 != k
  {
    if n > 0 { RemainingFacts(sorted, m, n - 1); }
  }

  /** Where a key is listed decides whether it remains. */
  lemma RemainsFrom(sorted: seq<(string, Entry)>, m: Entries, n: nat, i: nat)
    requires ListsByAccess(sorted, m) && n <= |sorted| && i < |sorted|
    ensures sorted[i].0 in Remaining(sorted, m, n) <==> i >= n
  {
    RemainingFacts(sorted, m, n);
    hide Remaining;
    if i >= n {
      forall j | 0 <= j < n ensures sorted[j].0 != sorted[i].0 {
        assert sorted[j].1.accessOrder < sorted[i].1.accessOrder;
      }
    }
  }

  lemma NoneGone(sorted: seq<(string, Entry)>, m: Entries)
    ensures Gone(m, Remaining(sorted, m, 0)) == 0
  {
  }

  lemma {:induction false} RemainingSize(sorted: seq<(string, Entry)>, m: Entries, n: nat)
    requires ListsByAccess(sorted, m) && n <= |sorted|
    ensures Gone(m, Remaining(sorted, m, n)) == n
  {
    NoneGone(sorted, m);
    hide *;
    if n > 0 {
      RemainingSize(sorted, m, n - 1);
      NextToEvict(sorted, m, n - 1);
      OneMoreGone(m, Remaining(sorted, m, n - 1), sorted[n - 1].0);
    }
  }

  lemma RemainingOldestFirst(sorted: seq<(string, Entry)>, m: Entries, n: nat)
    requires ListsByAccess(sorted, m) && n <= |sorted|
    ensures OldestFirst(m, Remaining(sorted, m, n))
  {
    RemainingFacts(sorted, m, n);
    hide Remaining;
    var after := Remaining(sorted, m, n);
    forall k, j | k in m && k !in after && j in after ensures m[k].accessOrder < after[j].accessOrder {
      var a :| 0 <= a < |sorted| && sorted[a].0 == k;
      var b :| 0 <= b < |sorted| && sorted[b].0 == j;
      RemainsFrom(sorted, m, n, a);
      RemainsFrom(sorted, m, n, b);
    }
  }

  lemma RemainingLastEvicted(sorted: seq<(string, Entry)>, m: Entries, n: nat)
    requires ListsByAccess(sorted, m) && 0 < n <= |sorted|
    ensures LastEvicted(m, Remaining(sorted, m, n), sorted[n - 1].0)
  {
    var after := Remaining(sorted, m, n);
    RemainsFrom(sorted, m, n, n - 1);
    hide Remaining;
    forall j | j in m && j !in after ensures m[j].accessOrder <= m[sorted[n - 1].0].accessOrder {
      var a :| 0 <= a < |sorted| && sorted[a].0 == j;
      RemainsFrom(sorted, m, n, a);
    }
  }

  lemma AllEvicted(sorted: seq<(string, Entry)>, m: Entries)
    requires ListsByAccess(sorted, m)
    ensures Remaining(sorted, m, |sorted|) == map[]
  {
    RemainingFacts(sorted, m, |sorted|);
  }

  lemma RemainingIsEvicted(sorted: seq<(string, Entry)>, m: Entries, n: nat, target: int)
    requires ListsByAccess(sorted, m) && n <= |sorted|
    requires Memory(Remaining(sorted, m, n)) <= target || n == |sorted|
    requires n > 0 ==> Memory(Remaining(sorted, m, n)) + sorted[n - 1].1.sizeBytes > target
    ensures EvictedTo(m, Remaining(sorted, m, n), target)
  {
    RemainingFacts(sorted, m, n);
    RemainingOldestFirst(sorted, m, n);
    AllEvicted(sorted, m);
    hide Remaining, ListsByAccess, OldestFirst, LastEvicted;
    if n > 0 {
      RemainingLastEvicted(sorted, m, n);
    }
  }

  lemma SortedListing(listed: seq<(string, Entry)>, m: Entries, counter: nat)
    requires Lists(listed, m) && AccessOk(m, counter)
    ensures ListsByAccess(Sort(ByAccess, listed), m)
  {
    var sorted := Sort(ByAccess, listed);
    SortPermutes(ByAccess, listed);
    SortOrdered(ByAccess, listed);
    forall i | 0 <= i < |sorted| ensures sorted[i].0 in m && sorted[i].1 == m[sorted[i].0] {
      assert sorted[i] in multiset(sorted);
    }
    forall k | k in m ensures exists i :: 0 <= i < |sorted| && sorted[i].0 == k {
      assert (k, m[k]) in multiset(listed);
      assert (k, m[k]) in sorted;
    }
    forall i, j | 0 <= i < j < |sorted| ensures sorted[i].1.accessOrder < sorted[j].1.accessOrder {
      assert ByAccess(sorted[i], sorted[j]);
      if sorted[i].0 == sorted[j].0 {
        assert sorted[i] == sorted[j];
        DistinctCounts(listed, sorted[i]);
        RepeatCounts(sorted, i, j);
      }
    }
  }

  /** Adding an entry to what is kept of the others. */
  lemma StoreNew(before: Entries, kept: Entries, stored: map<string, Stored>, key: string, e: Entry, counter: nat,
                 budget: nat)
    requires SubMap(kept, before - {key}) && AccessOk(kept, counter) && IsStored(before, stored)
    requires e.accessOrder == counter + 1
    requires Memory(kept) + e.sizeBytes <= budget || kept == map[]
    ensures var after := kept[key := e];
            && after - {key} == kept
            && Memory(after) == Memory(kept) + e.sizeBytes && AccessOk(after, counter + 1)
            && IsStored(after, stored[key := Stored(e.data, e.expiresAt)]) && WithinBudget(after, budget)
            && (Memory(after) <= budget || after.Keys == {key})
            && (Memory(after) <= budget <==> e.sizeBytes <= budget)
  {
    assert Memory(map[]) == 0;
    hide Memory, AccessOk;
    MemoryMonotone(map[], kept);
    AccessKept(kept, key, e, counter);
    MemoryWith(kept, key, e);
    assert kept == map[] ==> kept[key := e].Keys == {key};
  }

  // ---------------------------------------------------------------------------
  // The cache
  // ---------------------------------------------------------------------------

  class ProjectionCache {
    const maxMemoryBytes: nat
    const ttlSeconds: int
    var entries: Entries
    var memoryUsedBytes: int
    var hits: nat
    var misses: nat
    var evictionCount: nat
    var accessCounter: nat
    /** The last value set for each key and not invalidated since. */
    ghost var stored: map<string, Stored>

    ghost predicate Valid()
      reads this
    {
      && memoryUsedBytes == Memory(entries) && AccessOk(entries, accessCounter) && IsStored(entries, stored)
      && WithinBudget(entries, maxMemoryBytes)
    }

    constructor (maxMemoryBytes: nat, ttlSeconds: int)
      ensures Valid() && entries == map[] && stored == map[] && evictionCount == 0
      ensures this.maxMemoryBytes == maxMemoryBytes && this.ttlSeconds == ttlSeconds
    {
      this.maxMemoryBytes, this.ttlSeconds := maxMemoryBytes, ttlSeconds;
      entries, stored := map[], map[];
      memoryUsedBytes, hits, misses, evictionCount, accessCounter := 0, 0, 0, 0, 0;
    }

    /** Takes the key's entry out and its size off the total. */
    method Drop(key: string)
      requires key in entries && memoryUsedBytes == Memory(entries)
      modifies `entries, `memoryUsedBytes
      ensures entries == old(entries) - {key} && memoryUsedBytes == Memory(entries)
      ensures memoryUsedBytes == old(memoryUsedBytes) - old(entries)[key].sizeBytes
    {
      MemoryWithout(entries, key);
      memoryUsedBytes := memoryUsedBytes - entries[key].sizeBytes;
      entries := entries - {key};
    }

    /** A hit is the last value set for the key, not invalidated since and not expired. */
    method Get(key: string, now: int) returns (r: Option<string>)
      requires Valid()
      modifies this
      ensures Valid() && stored == old(stored)
      ensures r.Some? ==> key in stored && r.value == stored[key].data && now < stored[key].expiresAt
      ensures r.Some? <==> key in old(entries) && now < old(entries)[key].expiresAt
      ensures r.Some? ==> entries == old(entries)[key := old(entries)[key].(accessOrder := accessCounter)]
                          && accessCounter == old(accessCounter) + 1
      ensures r.None? ==> entries == old(entries) - {key} && accessCounter == old(accessCounter)
      ensures hits == old(hits) + (if r.Some? then 1 else 0) && misses == old(misses) + (if r.Some? then 0 else 1)
      ensures evictionCount == old(evictionCount)
    {
      hide AccessOk, Memory, WithinBudget;
      if key !in entries {
        misses := misses + 1;
        assert entries - {key} == entries;
        return None;
      }
      var entry := entries[key];
      BudgetKept(entries, key, maxMemoryBytes);
      AccessKept(entries, key, entry, accessCounter);
      if now >= entry.expiresAt {
        Drop(key);
        misses := misses + 1;
        return None;
      }
      TouchKeepsBudget(entries, key, accessCounter + 1, maxMemoryBytes);
      accessCounter := accessCounter + 1;
      entries := entries[key := entry.(accessOrder := accessCounter)];
      hits := hits + 1;
      r := Some(entry.data);
    }

    method Set(key: string, data: string, sizeBytes: nat, builtUpToSequence: int, now: int)
      requires Valid()
      modifies this
      ensures Valid()
      ensures stored == old(stored)[key := Stored(data, now + ttlSeconds * 1000)]
      ensures accessCounter == old(accessCounter) + 1
      ensures var others := old(entries) - {key};
              && entries == (entries - {key})[key := Entry(data, now + ttlSeconds * 1000, accessCounter, sizeBytes,
                                                           builtUpToSequence)]
              && MadeRoom(others, entries - {key}, sizeBytes, maxMemoryBytes)
      ensures memoryUsedBytes <= maxMemoryBytes || entries.Keys == {key}
      ensures memoryUsedBytes <= maxMemoryBytes <==> sizeBytes <= maxMemoryBytes
      ensures evictionCount == old(evictionCount) + Gone(old(entries) - {key}, entries - {key})
      ensures hits == old(hits) && misses == old(misses)
    {
      hide AccessOk, Memory, EvictedTo, WithinBudget, IsStored, SubMap, MadeRoom, Gone;
      var entry := Entry(data, now + ttlSeconds * 1000, accessCounter + 1, sizeBytes, builtUpToSequence);
      ghost var before, others := entries, entries - {key};
      AccessKept(entries, key, entry, accessCounter);
      if key in entries {
        Drop(key);
      }
      assert entries == others;
      EvictIfNeeded(sizeBytes);
      ghost var kept := entries;
      StoreNew(before, kept, stored, key, entry, accessCounter, maxMemoryBytes);
      accessCounter := accessCounter + 1;
      entries := entries[key := entry];
      memoryUsedBytes := memoryUsedBytes + sizeBytes;
      stored := stored[key := Stored(data, now + ttlSeconds * 1000)];
      assert entries - {key} == kept;
    }

    method EvictIfNeeded(newSizeBytes: nat)
      requires memoryUsedBytes == Memory(entries) && AccessOk(entries, accessCounter)
      modifies `entries, `memoryUsedBytes, `evictionCount
      ensures memoryUsedBytes == Memory(entries) && AccessOk(entries, accessCounter)
      ensures MadeRoom(old(entries), entries, newSizeBytes, maxMemoryBytes)
      ensures SubMap(entries, old(entries))
      ensures memoryUsedBytes + newSizeBytes <= maxMemoryBytes || entries == map[]
      ensures evictionCount == old(evictionCount) + Gone(old(entries), entries)
    {
      assert Gone(entries, entries) == 0 && SubMap(entries, entries);
      hide Memory, EvictedTo, AccessOk, ListsByAccess, Gone, SubMap;
      if memoryUsedBytes + newSizeBytes <= maxMemoryBytes {
        return;
      }
      var target := maxMemoryBytes * 4 / 5 - newSizeBytes;
      var sortedEntries := EntriesByAccess();
      var n := Evict(sortedEntries, target);
      RemainingIsEvicted(sortedEntries, old(entries), n, target);
      RemainingSize(sortedEntries, old(entries), n);
      EvictedFits(old(entries), entries, target, accessCounter);
    }

    /** The eviction loop; returns how many entries went. */
    method Evict(sortedEntries: seq<(string, Entry)>, target: int) returns (n: nat)
      requires memoryUsedBytes == Memory(entries) && ListsByAccess(sortedEntries, entries)
      modifies `entries, `memoryUsedBytes, `evictionCount
      ensures n <= |sortedEntries| && entries == Remaining(sortedEntries, old(entries), n)
      ensures memoryUsedBytes == Memory(entries) && evictionCount == old(evictionCount) + n
      ensures memoryUsedBytes <= target || n == |sortedEntries|
      ensures n > 0 ==> memoryUsedBytes + sortedEntries[n - 1].1.sizeBytes > target
    {
      hide Memory, ListsByAccess;
      n := 0;
      while n < |sortedEntries| && memoryUsedBytes > target
        invariant n <= |sortedEntries| && entries == Remaining(sortedEntries, old(entries), n)
        invariant memoryUsedBytes == Memory(entries) && evictionCount == old(evictionCount) + n
        invariant n > 0 ==> memoryUsedBytes + sortedEntries[n - 1].1.sizeBytes > target
      {
        var key := sortedEntries[n].0;
        NextToEvict(sortedEntries, old(entries), n);
        Drop(key);
        evictionCount := evictionCount + 1;
        n := n + 1;
      }
    }

    method EntriesByAccess() returns (sorted: seq<(string, Entry)>)
      requires AccessOk(entries, accessCounter)
      ensures ListsByAccess(sorted, entries)
    {
      hide AccessOk, ListsByAccess;
      var listed: seq<(string, Entry)> := [];
      var todo := entries.Keys;
      while todo != {}
        invariant todo <= entries.Keys
        invariant forall p :: p in multiset(listed) <==> p.0 in entries && p.0 !in todo && p.1 == entries[p.0]
        invariant forall i, j :: 0 <= i < j < |listed| ==> listed[i].0 != listed[j].0
      {
        var k :| k in todo;
        assert forall i :: 0 <= i < |listed| ==> listed[i] in multiset(listed);
        listed := listed + [(k, entries[k])];
        todo := todo - {k};
      }
      SortedListing(listed, entries, accessCounter);
      sorted := Sort(ByAccess, listed);
    }

    method Invalidate(key: string)
      requires Valid()
      modifies this
      ensures Valid() && entries == old(entries) - {key} && stored == old(stored) - {key}
      ensures accessCounter == old(accessCounter) && evictionCount == old(evictionCount)
    {
      hide Memory, AccessOk, WithinBudget;
      BudgetKept(entries, key, maxMemoryBytes);
      if key in entries {
        AccessKept(entries, key, entries[key], accessCounter);
        Drop(key);
      }
      stored := stored - {key};
    }

    method InvalidateForSession(projectId: string, sessionId: string)
      requires Valid()
      modifies this
      ensures Valid()
      ensures entries == map k | k in old(entries) && !ForSession(k, projectId, sessionId) :: old(entries)[k]
      ensures stored == map k | k in old(stored) && !ForSession(k, projectId, sessionId) :: old(stored)[k]
    {
      hide ForSession, AccessOk, WithinBudget, Memory;
      var keysToDelete := set k | k in entries && ForSession(k, projectId, sessionId);
      var todo := keysToDelete;
      while todo != {}
        invariant Valid() && todo <= keysToDelete
        invariant entries == old(entries) - (keysToDelete - todo)
        invariant stored == old(stored) - (keysToDelete - todo)
      {
        var key :| key in todo;
        Invalidate(key);
        assert keysToDelete - (todo - {key}) == (keysToDelete - todo) + {key};
        todo := todo - {key};
      }
      assert keysToDelete - todo == keysToDelete;
      stored := map k | k in stored && !ForSession(k, projectId, sessionId) :: stored[k];
    }

    method Clear()
      requires Valid()
      modifies this
      ensures Valid() && entries == map[] && stored == map[] && memoryUsedBytes == 0
    {
      entries, stored := map[], map[];
      memoryUsedBytes := 0;
    }
  }

  lemma NextToEvict(sorted: seq<(string, Entry)>, m: Entries, n: nat)
    requires ListsByAccess(sorted, m) && n < |sorted|
    ensures sorted[n].0 in Remaining(sorted, m, n) && Remaining(sorted, m, n)[sorted[n].0] == sorted[n].1
    ensures Remaining(sorted, m, n + 1) == Remaining(sorted, m, n) - {sorted[n].0}
  {
    RemainingFacts(sorted, m, n);
    RemainsFrom(sorted, m, n, n);
  }

  /** In every reachable state, the cache is within its budget exactly when no entry is larger than all of it. */
  lemma BudgetKeptExactly(c: ProjectionCache)
    requires c.Valid()
    ensures c.memoryUsedBytes <= c.maxMemoryBytes
            <==> forall k :: k in c.entries ==> c.entries[k].sizeBytes <= c.maxMemoryBytes
    ensures c.memoryUsedBytes > c.maxMemoryBytes ==> exists k :: c.entries.Keys == {k}
  {
    WithinBudgetExactly(c.entries, c.maxMemoryBytes);
  }

  /** The budget can be exceeded: an entry larger than all of it is stored, and read back. */
  method OversizeIsStored() returns (c: ProjectionCache, hit: Option<string>)
    ensures fresh(c) && c.Valid() && c.memoryUsedBytes > c.maxMemoryBytes
    ensures c.entries.Keys == {"k"} && hit == Some("large")
  {
    hide Memory, AccessOk, IsStored, WithinBudget;
    c := new ProjectionCache(10, 60);
    c.Set("k", "large", 20, 0, 0);
    assert c.entries - {"k"} == map[];
    assert c.entries.Keys == {"k"} && c.entries["k"].sizeBytes == 20;
    hit := c.Get("k", 1);
    MemoryOfOne(c.entries, "k");
  }
}
