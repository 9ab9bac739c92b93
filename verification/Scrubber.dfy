/** The session scrubber: the item nearest to a position, and the density of events over time. */
module Scrubber {
  import opened Numbers
  import opened Options
  import opened Sums

  datatype Item = Item(id: string, time: int, kind: string)

  ghost predicate SortedByTime(timeline: seq<Item>) {
    forall i, j :: 0 <= i < j < |timeline| ==> timeline[i].time <= timeline[j].time
  }

  function Duration(timeline: seq<Item>): int
    requires timeline != []
  {
    timeline[|timeline| - 1].time - timeline[0].time
  }

  // ---------------------------------------------------------------------------
  // The nearest item
  // ---------------------------------------------------------------------------

  function Clamp(position: real): real {
    if position < 0.0 then 0.0 else if position > 1.0 then 1.0 else position
  }

  /** The time at a position of the bar. */
  function Target(timeline: seq<Item>, position: real): real
    requires timeline != []
  {
    timeline[0].time as real + Clamp(position) * Duration(timeline) as real
  }

  function Distance(time: int, target: real): real {
    if time as real >= target then time as real - target else target - time as real
  }

  lemma TargetIsWithin(timeline: seq<Item>, position: real)
    requires timeline != [] && SortedByTime(timeline)
    ensures timeline[0].time as real <= Target(timeline, position) <= timeline[|timeline| - 1].time as real
  {
    var c, d := Clamp(position), Duration(timeline) as real;
    assert 0.0 <= d;
    assert 0.0 <= c * d && c * d <= 1.0 * d;
  }

  /** Positions 0 and below are the first time, 1 and above the last, and the time grows evenly between them. */
  lemma TargetIsLinear(timeline: seq<Item>, position: real)
    requires timeline != []
    ensures var first, last := timeline[0].time as real, timeline[|timeline| - 1].time as real;
              && (position <= 0.0 ==> Target(timeline, position) == first)
              && (position >= 1.0 ==> Target(timeline, position) == last)
              && (0.0 <= position <= 1.0 ==> Target(timeline, position) == first + position * (last - first))
  {
    assert Duration(timeline) as real == timeline[|timeline| - 1].time as real - timeline[0].time as real;
  }

  lemma DistanceIsAbsolute(time: int, target: real)
    ensures Distance(time, target) >= 0.0
    ensures Distance(time, target) == time as real - target || Distance(time, target) == target - time as real
  {
  }

  /** The index of the first item at or after a time, when there is one. */
  method FirstAtOrAfter(timeline: seq<Item>, target: real) returns (lo: nat)
    requires timeline != [] && SortedByTime(timeline)
    requires target <= timeline[|timeline| - 1].time as real
    ensures lo < |timeline| && target <= timeline[lo].time as real
    ensures forall j :: 0 <= j < lo ==> (timeline[j].time as real) < target
  {
    lo := 0;
    var hi := |timeline| - 1;
    while lo < hi
      invariant 0 <= lo <= hi < |timeline|
      invariant target <= timeline[hi].time as real
      invariant forall j :: 0 <= j < lo ==> (timeline[j].time as real) < target
    {
      var mid := (lo + hi) / 2;
      if (timeline[mid].time as real) < target {
        lo := mid + 1;
      } else {
        hi := mid;
      }
    }
  }

  /** No item is nearer to the time. */
  ghost predicate NoneNearer(timeline: seq<Item>, target: real, at: nat)
    requires at < |timeline|
  {
    forall j :: 0 <= j < |timeline| ==> Distance(timeline[at].time, target) <= Distance(timeline[j].time, target)
  }

  /** Of two items equally near, the later time wins; of items at one time at or after the target, the first is meant,
      and of items at one time before it, the last. */
  ghost predicate TieBroken(timeline: seq<Item>, target: real, at: nat)
    requires at < |timeline|
  {
    forall j :: 0 <= j < |timeline| ==>
      && (Distance(timeline[j].time, target) == Distance(timeline[at].time, target) ==>
            timeline[j].time <= timeline[at].time)
      && (timeline[j].time == timeline[at].time ==> if timeline[at].time as real >= target then at <= j else j <= at)
  }

  /** There is only one such item, so these conditions determine the search. */
  lemma NearestIsUnique(timeline: seq<Item>, target: real, a: nat, b: nat)
    requires a < |timeline| && NoneNearer(timeline, target, a) && TieBroken(timeline, target, a)
    requires b < |timeline| && NoneNearer(timeline, target, b) && TieBroken(timeline, target, b)
    ensures a == b
  {
    assert Distance(timeline[a].time, target) == Distance(timeline[b].time, target);
    assert timeline[a].time == timeline[b].time;
  }

  /** The index of the item nearest to a position; when all items are at the same time, that of the proportional one. */
  method FindItemAtPosition(timeline: seq<Item>, position: real) returns (at: Option<nat>)
    requires SortedByTime(timeline)
    ensures at.None? <==> timeline == []
    ensures at.Some? ==> at.value < |timeline| && NoneNearer(timeline, Target(timeline, position), at.value)
    ensures at.Some? && Duration(timeline) != 0 ==> TieBroken(timeline, Target(timeline, position), at.value)
    ensures at.Some? && Duration(timeline) == 0 ==> at.value == ProportionalIndex(timeline, position)
  {
    if timeline == [] {
      return None;
    }
    hide Clamp, Round, Distance, NoneNearer, TieBroken, SortedByTime;
    if |timeline| == 1 {
      AllAtOnce(timeline, position);
      return Some(0);
    }
    var duration := Duration(timeline);
    if duration == 0 {
      AllAtOnce(timeline, position);
      return Some(ProportionalIndex(timeline, position));
    }
    var targetTime := Target(timeline, position);
    TargetIsWithin(timeline, position);
    hide Target;
    var lo := FirstAtOrAfter(timeline, targetTime);
    if lo == 0 {
      FirstIsNearest(timeline, targetTime);
      return Some(0);
    }
    OneOfTwoIsNearest(timeline, targetTime, lo);
    if Distance(timeline[lo].time, targetTime) <= Distance(timeline[lo - 1].time, targetTime) {
      return Some(lo);
    }
    at := Some(lo - 1);
  }

  function ProportionalIndex(timeline: seq<Item>, position: real): int
    requires timeline != []
  {
    Round(Clamp(position) * (|timeline| - 1) as real)
  }

  /** The index nearest to the position's share of them all, the first and the last at the ends. */
  lemma ProportionalIsNear(timeline: seq<Item>, position: real)
    requires timeline != []
    ensures var at, n := ProportionalIndex(timeline, position), (|timeline| - 1) as real;
              && (position <= 0.0 ==> at == 0) && (position >= 1.0 ==> at == |timeline| - 1)
              && (0.0 <= position <= 1.0 ==> position * n - 0.5 < at as real <= position * n + 0.5)
  {
    RoundIsNear(Clamp(position) * (|timeline| - 1) as real);
  }

  lemma AllAtOnce(timeline: seq<Item>, position: real)
    requires timeline != [] && SortedByTime(timeline) && Duration(timeline) == 0
    ensures 0 <= ProportionalIndex(timeline, position) < |timeline|
    ensures NoneNearer(timeline, Target(timeline, position), ProportionalIndex(timeline, position))
  {
    var c, n := Clamp(position), (|timeline| - 1) as real;
    assert 0.0 <= c * n && c * n <= 1.0 * n;
    assert 0 <= ProportionalIndex(timeline, position) < |timeline|;
    hide Clamp, Round, Target, Distance;
    forall i | 0 <= i < |timeline| ensures timeline[i].time == timeline[0].time {
      assert timeline[0].time <= timeline[i].time <= timeline[|timeline| - 1].time;
    }
  }

  lemma FirstIsNearest(timeline: seq<Item>, target: real)
    requires timeline != [] && SortedByTime(timeline) && timeline[0].time as real == target
    ensures NoneNearer(timeline, target, 0) && TieBroken(timeline, target, 0)
  {
  }

  lemma OneOfTwoIsNearest(timeline: seq<Item>, target: real, lo: nat)
    requires 0 < lo < |timeline| && SortedByTime(timeline)
    requires target <= timeline[lo].time as real
    requires forall j :: 0 <= j < lo ==> (timeline[j].time as real) < target
    ensures var at := if Distance(timeline[lo].time, target) <= Distance(timeline[lo - 1].time, target)
                      then lo else lo - 1;
              NoneNearer(timeline, target, at) && TieBroken(timeline, target, at)
  {
    assert forall j :: 0 <= j < lo ==> timeline[j].time <= timeline[lo - 1].time;
    assert forall j :: lo <= j < |timeline| ==> timeline[lo].time <= timeline[j].time;
  }

  datatype Tick = Tick(itemId: string, position: real, isSignificant: bool)

  function Away(tick: Tick, position: real): real {
    if tick.position >= position then tick.position - position else position - tick.position
  }

  lemma AwayIsAbsolute(tick: Tick, position: real)
    ensures Away(tick, position) >= 0.0
    ensures tick.position == position + Away(tick, position) || tick.position == position - Away(tick, position)
  {
  }

  /** The nearest tick within the threshold; a significant one if there is one that near, and the first of those. */
  method FindNearestTick(ticks: seq<Tick>, position: real, threshold: real) returns (at: Option<nat>)
    ensures at.None? <==> forall j :: 0 <= j < |ticks| ==> Away(ticks[j], position) > threshold
    ensures at.Some? ==> at.value < |ticks| && Away(ticks[at.value], position) <= threshold
    ensures at.Some? ==> forall j :: 0 <= j < |ticks| ==>
              && Away(ticks[at.value], position) <= Away(ticks[j], position)
              && (Away(ticks[at.value], position) == Away(ticks[j], position) ==>
                    (ticks[j].isSignificant ==> ticks[at.value].isSignificant)
                    && (ticks[j].isSignificant == ticks[at.value].isSignificant ==> at.value <= j))
  {
    at := None;
    for n := 0 to |ticks|
      invariant at.None? <==> forall j :: 0 <= j < n ==> Away(ticks[j], position) > threshold
      invariant at.Some? ==> at.value < n && Away(ticks[at.value], position) <= threshold
      invariant at.Some? ==> forall j :: 0 <= j < n ==>
                  && Away(ticks[at.value], position) <= Away(ticks[j], position)
                  && (Away(ticks[at.value], position) == Away(ticks[j], position) ==>
                        (ticks[j].isSignificant ==> ticks[at.value].isSignificant)
                        && (ticks[j].isSignificant == ticks[at.value].isSignificant ==> at.value <= j))
    {
      var dist := Away(ticks[n], position);
      if dist > threshold {
        continue;
      }
      if at.None? || dist < Away(ticks[at.value], position) {
        at := Some(n);
      } else if dist == Away(ticks[at.value], position) {
        if ticks[n].isSignificant && !ticks[at.value].isSignificant {
          at := Some(n);
        }
      }
    }
  }

  // ---------------------------------------------------------------------------
  // The minimap
  // ---------------------------------------------------------------------------

  /** How many of `count` equal parts of a duration are over at a time. */
  function Parts(time: int, duration: int, count: int): int
    requires duration != 0
  {
    (((time as real) / (duration as real)) * count as real).Floor
  }

  /** The bucket of an item: its share of the duration, the last bucket also holding the end. */
  function BucketOf(timeline: seq<Item>, count: int, item: Item): int
    requires timeline != []
  {
    var duration := Duration(timeline);
    if duration == 0 then 0
    else
      var i := Parts(item.time - timeline[0].time, duration, count);
      if i < count - 1 then i else count - 1
  }

  const COUNT: Addition<int> := Addition(0, (a: int, b: int) => a + b)

  const BY_KIND: Grouping<Item, string, int> := Grouping(COUNT, (i: Item) => i.kind, (i: Item) => 1)

  function ByBucket(timeline: seq<Item>, count: int): Grouping<Item, int, int>
    requires timeline != []
  {
    Grouping(COUNT, (i: Item) => BucketOf(timeline, count, i), (i: Item) => 1)
  }

  /** The items of a bucket. */
  function ItemsOf(timeline: seq<Item>, count: int, bucket: int, items: seq<Item>): seq<Item>
    requires timeline != []
  {
    Those(ByBucket(timeline, count), items, bucket)
  }

  /** What a bucket counts: its events, and how many of each kind, the kinds in the order they came up. */
  datatype Tally = Tally(events: int, kinds: seq<string>, counts: map<string, int>)

  const NO_TALLY := Tally(0, [], map[])

  function Kinds(items: seq<Item>): seq<string> {
    if items == [] then []
    else
      var front, kind := Kinds(items[..|items| - 1]), items[|items| - 1].kind;
      if kind in front then front else front + [kind]
  }

  function TallyOf(items: seq<Item>): Tally {
    Tally(|items|, Kinds(items), Grouped(BY_KIND, items))
  }

  function AddToTally(y: Tally, item: Item): Tally {
    Tally(y.events + 1, if item.kind in y.counts then y.kinds else y.kinds + [item.kind],
          y.counts[item.kind := 1 + if item.kind in y.counts then y.counts[item.kind] else 0])
  }

  lemma {:induction false} KindsAreCounted(items: seq<Item>, kind: string)
    ensures kind in Kinds(items) <==> kind in Grouped(BY_KIND, items)
  {
    if items != [] { KindsAreCounted(items[..|items| - 1], kind); }
  }

  lemma TallySnoc(items: seq<Item>, item: Item)
    ensures TallyOf(items + [item]) == AddToTally(TallyOf(items), item)
  {
    assert (items + [item])[..|items|] == items;
    KindsAreCounted(items, item.kind);
    hide Grouped;
    GroupedSnoc(BY_KIND, items, item);
  }

  datatype Bucket = Bucket(eventCount: int, density: real, dominantKind: string)

  datatype Minimap = OutOfBuckets | Buckets(buckets: seq<Bucket>)

  lemma PartsOfDuration(t: int, d: int, count: int)
    requires 0 <= t <= d && d > 0 && count >= 0
    ensures 0 <= Parts(t, d, count)
  {
    var r := (t as real) / (d as real);
    assert 0.0 <= r;
    assert 0.0 <= r * count as real;
  }

  lemma BucketIsWithin(timeline: seq<Item>, count: int, n: nat)
    requires SortedByTime(timeline) && count > 0 && n < |timeline|
    ensures 0 <= BucketOf(timeline, count, timeline[n]) < count
  {
    if Duration(timeline) != 0 {
      assert timeline[0].time <= timeline[n].time <= timeline[|timeline| - 1].time;
      hide Parts;
      PartsOfDuration(timeline[n].time - timeline[0].time, Duration(timeline), count);
    }
  }

  lemma Scaled(x: real, y: real, d: real)
    requires d > 0.0
    ensures x <= y ==> x * d <= y * d
    ensures x < y ==> x * d < y * d
  {
    if x <= y { assert (y - x) * d >= 0.0; }
    if x < y { assert (y - x) * d > 0.0; }
  }

  lemma ShareScaled(t: real, d: real, count: real)
    requires d > 0.0
    ensures ((t / d) * count) * d == t * count
  {
    var share := t / d;
    assert share * d == t;
    assert (share * count) * d == (share * d) * count;
  }

  lemma PartsAre(t: int, d: int, count: int)
    requires d > 0
    ensures Parts(t, d, count) * d <= t * count < (Parts(t, d, count) + 1) * d
  {
    var b := Parts(t, d, count);
    var x := ((t as real) / (d as real)) * count as real;
    assert b as real <= x < (b + 1) as real;
    ShareScaled(t as real, d as real, count as real);
    hide Parts;
    Scaled(b as real, x, d as real);
    Scaled(x, (b + 1) as real, d as real);
    Products(b, d);
    Products(b + 1, d);
    Products(t, count);
  }

  lemma Products(a: int, b: int)
    ensures (a as real) * (b as real) == (a * b) as real
  {
  }

  /** The buckets are equal parts of the duration in order, the last one also holding the end; without a duration, the
      first bucket holds everything. */
  lemma BucketIsItsPart(timeline: seq<Item>, count: int, n: nat)
    requires SortedByTime(timeline) && count > 0 && n < |timeline|
    ensures var b, d := BucketOf(timeline, count, timeline[n]), Duration(timeline);
            var t := timeline[n].time - timeline[0].time;
              && 0 <= b < count && b * d <= t * count
              && (d == 0 ==> b == 0) && (b < count - 1 && d != 0 ==> t * count < (b + 1) * d)
  {
    var t, d := timeline[n].time - timeline[0].time, Duration(timeline);
    BucketIsWithin(timeline, count, n);
    assert timeline[0].time <= timeline[n].time <= timeline[|timeline| - 1].time;
    if d != 0 {
      hide Parts;
      PartsAre(t, d, count);
      LastPart(t, d, count);
    }
  }

  lemma LastPart(t: int, d: int, count: int)
    requires d > 0
    ensures Parts(t, d, count) >= count - 1 ==> (count - 1) * d <= t * count
  {
    hide Parts;
    PartsAre(t, d, count);
    if Parts(t, d, count) >= count - 1 { Grows(count - 1, Parts(t, d, count), d); }
  }

  lemma Grows(a: int, b: int, d: int)
    requires a <= b && d > 0
    ensures a * d <= b * d
  {
    assert (b - a) * d >= 0;
  }

  lemma PartsKeepOrder(s: int, t: int, d: int, count: int)
    requires s <= t && d > 0 && count >= 0
    ensures Parts(s, d, count) <= Parts(t, d, count)
  {
    var r, q := (s as real) / (d as real), (t as real) / (d as real);
    assert r <= q;
    assert r * count as real <= q * count as real;
  }

  /** Later items are in later buckets. */
  lemma BucketsKeepOrder(timeline: seq<Item>, count: int, a: Item, b: Item)
    requires timeline != [] && count > 0 && Duration(timeline) >= 0 && a.time <= b.time
    ensures BucketOf(timeline, count, a) <= BucketOf(timeline, count, b)
  {
    if Duration(timeline) != 0 {
      hide Parts;
      PartsKeepOrder(a.time - timeline[0].time, b.time - timeline[0].time, Duration(timeline), count);
    }
  }

  /** Counts the items into the buckets of an array. */
  method FillBuckets(timeline: seq<Item>, tallies: array<Tally>)
    requires timeline != [] && SortedByTime(timeline) && tallies.Length > 0
    requires forall i :: 0 <= i < tallies.Length ==> tallies[i] == NO_TALLY
    modifies tallies
    ensures forall i :: 0 <= i < tallies.Length ==>
              tallies[i] == TallyOf(ItemsOf(timeline, tallies.Length, i, timeline))
  {
    var count := tallies.Length;
    var g := ByBucket(timeline, count);
    assert TallyOf([]) == NO_TALLY && timeline[..0] == [];
    for n := 0 to |timeline|
      invariant forall i :: 0 <= i < count ==> tallies[i] == TallyOf(ItemsOf(timeline, count, i, timeline[..n]))
    {
      hide Those, TallyOf, AddToTally, SortedByTime;
      var item := timeline[n];
      BucketIsWithin(timeline, count, n);
      var at := BucketOf(timeline, count, item);
      assert timeline[..n + 1] == timeline[..n] + [item];
      ghost var was := tallies[..];
      forall i | 0 <= i < count
        ensures ItemsOf(timeline, count, i, timeline[..n + 1])
                == if i == at then ItemsOf(timeline, count, i, timeline[..n]) + [item]
                   else ItemsOf(timeline, count, i, timeline[..n])
      {
        ThoseSnoc(g, timeline[..n], item, i);
      }
      TallySnoc(ItemsOf(timeline, count, at, timeline[..n]), item);
      tallies[at] := AddToTally(tallies[at], item);
    }
    assert timeline[..|timeline|] == timeline;
  }

  /** The kind at `n` is the first of the greatest count. */
  ghost predicate DominantAt(y: Tally, n: nat)
    requires forall k :: k in y.kinds ==> k in y.counts
  {
    && n < |y.kinds|
    && (forall j :: 0 <= j < |y.kinds| ==> y.counts[y.kinds[j]] <= y.counts[y.kinds[n]])
    && (forall j :: 0 <= j < n ==> y.counts[y.kinds[j]] < y.counts[y.kinds[n]])
  }

  /** The first kind of the greatest count, or the notification kind when there is none. */
  ghost predicate IsDominant(y: Tally, kind: string)
    requires forall k :: k in y.kinds ==> k in y.counts
  {
    if y.kinds == [] then kind == "system_notification" else exists n: nat :: DominantAt(y, n) && y.kinds[n] == kind
  }

  method Dominant(y: Tally) returns (kind: string)
    requires forall k :: k in y.kinds ==> k in y.counts && y.counts[k] > 0
    ensures IsDominant(y, kind)
  {
    kind := "system_notification";
    var best, at := 0, -1;
    for n := 0 to |y.kinds|
      invariant n == 0 <==> at == -1
      invariant n == 0 ==> best == 0 && kind == "system_notification"
      invariant n > 0 ==> 0 <= at < n && kind == y.kinds[at] && best == y.counts[y.kinds[at]] > 0
      invariant n > 0 ==> forall j :: 0 <= j < n ==> y.counts[y.kinds[j]] <= best
      invariant n > 0 ==> forall j :: 0 <= j < at ==> y.counts[y.kinds[j]] < best
    {
      assert y.kinds[n] in y.kinds;
      var c := y.counts[y.kinds[n]];
      if c > best {
        kind, best, at := y.kinds[n], c, n;
      }
    }
    assert y.kinds != [] ==> DominantAt(y, at);
  }

  lemma {:induction false} TotalCounts<K>(g: Grouping<Item, K, int>, items: seq<Item>)
    requires g.add == COUNT && forall i :: g.share(i) == 1
    ensures Total(g, items) == |items|
  {
    if items != [] { TotalCounts(g, items[..|items| - 1]); }
  }

  /** A tally counts each kind as often as it occurs. */
  lemma TallyCounts(items: seq<Item>, kind: string)
    ensures kind in TallyOf(items).kinds <==> Those(BY_KIND, items, kind) != []
    ensures kind in TallyOf(items).kinds ==>
              kind in TallyOf(items).counts && TallyOf(items).counts[kind] == |Those(BY_KIND, items, kind)| > 0
  {
    KindsAreCounted(items, kind);
    GroupIsTotalOfThose(BY_KIND, items, kind);
    TotalCounts(BY_KIND, Those(BY_KIND, items, kind));
  }

  /** How often a kind occurs, and the order of the kinds: as they come up. */
  lemma KindsAreThose(items: seq<Item>, kind: string)
    ensures |Those(BY_KIND, items, kind)| == |set i | 0 <= i < |items| && items[i].kind == kind|
  {
    ThoseCount(BY_KIND, items, kind);
    assert Places(BY_KIND, items, kind) == set i | 0 <= i < |items| && items[i].kind == kind;
  }

  ghost predicate FirstOf(items: seq<Item>, kind: string, i: int) {
    0 <= i < |items| && items[i].kind == kind && forall j :: 0 <= j < i ==> items[j].kind != kind
  }

  lemma {:induction false} KindsInOrder(items: seq<Item>, a: nat, b: nat, i: int, j: int)
    requires a < b < |Kinds(items)| && FirstOf(items, Kinds(items)[a], i) && FirstOf(items, Kinds(items)[b], j)
    ensures i < j
  {
    var front, last := items[..|items| - 1], items[|items| - 1];
    assert Kinds(items) == if last.kind in Kinds(front) then Kinds(front) else Kinds(front) + [last.kind];
    FirstInFront(items, Kinds(front)[a], i);
    if b < |Kinds(front)| {
      FirstInFront(items, Kinds(front)[b], j);
      KindsInOrder(front, a, b, i, j);
    } else {
      NewKind(front, last.kind);
      assert forall k :: 0 <= k < |front| ==> items[k] == front[k];
    }
  }

  lemma FirstInFront(items: seq<Item>, kind: string, i: int)
    requires items != [] && kind in Kinds(items[..|items| - 1]) && FirstOf(items, kind, i)
    ensures FirstOf(items[..|items| - 1], kind, i)
  {
    var front := items[..|items| - 1];
    KindOccurs(front, kind);
    var j :| 0 <= j < |front| && front[j].kind == kind;
    assert items[j].kind == kind;
    assert i <= j;
  }

  lemma {:induction false} KindOccurs(items: seq<Item>, kind: string)
    ensures kind in Kinds(items) <==> exists i :: 0 <= i < |items| && items[i].kind == kind
  {
    if items != [] {
      var front := items[..|items| - 1];
      KindOccurs(front, kind);
      assert forall i :: 0 <= i < |front| ==> items[i] == front[i];
      if i :| 0 <= i < |front| && front[i].kind == kind { assert items[i].kind == kind; }
    }
  }

  lemma NewKind(items: seq<Item>, kind: string)
    requires kind !in Kinds(items)
    ensures forall i :: 0 <= i < |items| ==> items[i].kind != kind
  {
    KindOccurs(items, kind);
  }

  /** The events in the first `k` buckets. */
  function EventsBelow(timeline: seq<Item>, count: int, items: seq<Item>, k: nat): int
    requires timeline != []
  {
    if k == 0 then 0
    else EventsBelow(timeline, count, items, k - 1) + |ItemsOf(timeline, count, k - 1, items)|
  }

  lemma {:induction false} EventsBelowSnoc(timeline: seq<Item>, count: int, items: seq<Item>, item: Item, k: nat)
    requires timeline != []
    ensures EventsBelow(timeline, count, items + [item], k)
            == EventsBelow(timeline, count, items, k) + if 0 <= BucketOf(timeline, count, item) < k then 1 else 0
  {
    if k > 0 {
      EventsBelowSnoc(timeline, count, items, item, k - 1);
      ThoseSnoc(ByBucket(timeline, count), items, item, k - 1);
      hide Those, BucketOf;
    }
  }

  lemma {:induction false} NoEvents(timeline: seq<Item>, count: int, k: nat)
    requires timeline != []
    ensures EventsBelow(timeline, count, [], k) == 0
  {
    if k > 0 { NoEvents(timeline, count, k - 1); }
  }

  /** No event is lost or counted twice: the buckets' counts add up to the number of items. */
  lemma {:induction false} EventsAddUp(timeline: seq<Item>, count: nat, n: nat)
    requires SortedByTime(timeline) && timeline != [] && count > 0 && n <= |timeline|
    ensures EventsBelow(timeline, count, timeline[..n], count) == n
  {
    if n == 0 {
      assert timeline[..0] == [];
      NoEvents(timeline, count, count);
    } else {
      assert timeline[..n] == timeline[..n - 1] + [timeline[n - 1]];
      EventsAddUp(timeline, count, n - 1);
      EventsBelowSnoc(timeline, count, timeline[..n - 1], timeline[n - 1], count);
      BucketIsWithin(timeline, count, n - 1);
    }
  }

  /** The greatest event count, or 1. */
  method MaxCount(tallies: array<Tally>) returns (max: int)
    ensures max >= 1 && forall i :: 0 <= i < tallies.Length ==> tallies[i].events <= max
    ensures max == 1 || exists i :: 0 <= i < tallies.Length && tallies[i].events == max
  {
    max := 1;
    for n := 0 to tallies.Length
      invariant max >= 1 && forall i :: 0 <= i < n ==> tallies[i].events <= max
      invariant max == 1 || exists i :: 0 <= i < n && tallies[i].events == max
    {
      if tallies[n].events > max {
        max := tallies[n].events;
      }
    }
  }

  /** What a bucket shows of its items. */
  ghost predicate Shows(b: Bucket, items: seq<Item>, max: int)
    requires max > 0
  {
    TallyKindsAreCounted(items);
    b.eventCount == |items| && b.density == |items| as real / max as real && IsDominant(TallyOf(items), b.dominantKind)
  }

  lemma TallyKindsAreCounted(items: seq<Item>)
    ensures forall k :: k in TallyOf(items).kinds ==> k in TallyOf(items).counts && TallyOf(items).counts[k] > 0
  {
    forall k | k in TallyOf(items).kinds ensures k in TallyOf(items).counts && TallyOf(items).counts[k] > 0 {
      TallyCounts(items, k);
    }
  }

  method ShowTallies(tallies: seq<Tally>, max: int, ghost items: seq<seq<Item>>) returns (buckets: seq<Bucket>)
    requires max > 0 && |tallies| == |items| && forall i :: 0 <= i < |tallies| ==> tallies[i] == TallyOf(items[i])
    ensures |buckets| == |tallies| && forall i :: 0 <= i < |tallies| ==> Shows(buckets[i], items[i], max)
  {
    buckets := [];
    for n := 0 to |tallies|
      invariant |buckets| == n && forall i :: 0 <= i < n ==> Shows(buckets[i], items[i], max)
    {
      TallyKindsAreCounted(items[n]);
      var kind := Dominant(tallies[n]);
      buckets := buckets + [Bucket(tallies[n].events, tallies[n].events as real / max as real, kind)];
    }
  }

  /** One entry per bucket, relative to the fullest. Without buckets there is nowhere to count an item. */
  method ComputeMinimap(timeline: seq<Item>, bucketCount: int) returns (m: Minimap, max: int)
    requires SortedByTime(timeline)
    ensures timeline == [] ==> m == Buckets([])
    ensures m.OutOfBuckets? <==> timeline != [] && bucketCount <= 0
    ensures max >= 1
    ensures timeline != [] && bucketCount > 0 ==> |m.buckets| == bucketCount
    ensures timeline != [] && bucketCount > 0 ==> forall i :: 0 <= i < bucketCount ==>
              Shows(m.buckets[i], ItemsOf(timeline, bucketCount, i, timeline), max) && m.buckets[i].eventCount <= max
    ensures timeline != [] && bucketCount > 0 ==> forall i :: 0 <= i < bucketCount ==>
              && m.buckets[i].eventCount == |ItemsOf(timeline, bucketCount, i, timeline)|
              && m.buckets[i].density == m.buckets[i].eventCount as real / max as real
    ensures timeline != [] && bucketCount > 0 && max > 1 ==>
              exists i :: 0 <= i < bucketCount && m.buckets[i].eventCount == max
  {
    if timeline == [] {
      return Buckets([]), 1;
    }
    if bucketCount <= 0 {
      return OutOfBuckets, 1;
    }
    var tallies := new Tally[bucketCount](_ => NO_TALLY);
    FillBuckets(timeline, tallies);
    max := MaxCount(tallies);
    hide IsDominant, ItemsOf, SortedByTime;
    ghost var items := seq(bucketCount, i => ItemsOf(timeline, bucketCount, i, timeline));
    var buckets := ShowTallies(tallies[..], max, items);
    assert forall i :: 0 <= i < bucketCount ==>
             Shows(buckets[i], items[i], max) && buckets[i].eventCount == tallies[i].events;
    m := Buckets(buckets);
  }
}
