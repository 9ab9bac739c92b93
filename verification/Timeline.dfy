/** Merging new items into a session timeline: tool calls are correlated by toolUseId. */
module Timeline {
  import opened Options
  import opened Seqs
  import opened Sorting

  datatype Source = GcHook | SdkStream | Pty

  datatype Base = Base(id: string, timestamp: string, sequence: int, source: Source, read: bool)

  datatype Status = Pending | Running | Completed | Failed

  /** A tool call, or any other kind of item (its own fields kept as one opaque body). */
  datatype Item =
    | ToolCall(base: Base, toolUseId: string, toolName: string, input: string, status: Status,
               durationMs: Option<int>, error: Option<string>, output: Option<string>)
    | Other(base: Base, kind: string, body: string)

  predicate IsCall(item: Item, id: string) {
    item.ToolCall? && item.toolUseId == id
  }

  predicate BySequence(a: Item, b: Item) {
    a.base.sequence <= b.base.sequence
  }

  function MergeToolCall(existing: Item, incoming: Item): Item
    requires existing.ToolCall? && incoming.ToolCall?
  {
    existing.(status := incoming.status,
              durationMs := Either(incoming.durationMs, existing.durationMs),
              error := Either(incoming.error, existing.error),
              output := Either(incoming.output, existing.output))
  }

  /** The last position holding a call with this id, or -1. */
  function LastIndex(items: seq<Item>, id: string): (r: int)
    ensures -1 <= r < |items|
    ensures r >= 0 ==> IsCall(items[r], id)
    ensures forall i :: r < i < |items| ==> !IsCall(items[i], id)
  {
    if items == [] then -1
    else if IsCall(items[|items| - 1], id) then |items| - 1
    else LastIndex(items[..|items| - 1], id)
  }

  /** One new item: updates the call it belongs to, or goes to the end. */
  function Absorb(items: seq<Item>, x: Item): seq<Item> {
    var i := if x.ToolCall? then LastIndex(items, x.toolUseId) else -1;
    if i >= 0 then items[i := MergeToolCall(items[i], x)] else items + [x]
  }

  function AbsorbAll(items: seq<Item>, new_: seq<Item>): seq<Item> {
    if new_ == [] then items
    else Absorb(AbsorbAll(items, new_[..|new_| - 1]), new_[|new_| - 1])
  }

  function Merge(timeline: seq<Item>, newItems: seq<Item>): seq<Item> {
    Sort(BySequence, AbsorbAll(timeline, newItems))
  }

  ghost predicate IndexOf(index: map<string, int>, items: seq<Item>) {
    && (forall id :: id in index <==> LastIndex(items, id) >= 0)
    && (forall id :: id in index ==> index[id] == LastIndex(items, id))
  }

  /** The implementation: a position index into a list that is patched in place, then sorted. */
  method MergeIntoTimeline(timeline: seq<Item>, newItems: seq<Item>) returns (result: seq<Item>)
    ensures result == Merge(timeline, newItems)
  {
    hide Absorb, AbsorbAll, MergeToolCall;
    result := timeline;
    var toolCallIndex: map<string, int> := map[];
    for i := 0 to |result|
      invariant result == timeline
      invariant IndexOf(toolCallIndex, result[..i])
    {
      hide IndexOf;
      var item := result[i];
      assert result[..i + 1] == result[..i] + [item];
      IndexAppend(toolCallIndex, result[..i], item);
      if item.ToolCall? {
        toolCallIndex := toolCallIndex[item.toolUseId := i];
      }
    }
    assert result[..|result|] == result;
    NoneAbsorbed(timeline);
    for n := 0 to |newItems|
      invariant result == AbsorbAll(timeline, newItems[..n])
      invariant IndexOf(toolCallIndex, result)
    {
      hide IndexOf;
      var newItem := newItems[n];
      AbsorbAllSnoc(timeline, newItems, n);
      AbsorbByIndex(toolCallIndex, result, newItem);
      if newItem.ToolCall? && newItem.toolUseId in toolCallIndex {
        var existingIdx := toolCallIndex[newItem.toolUseId];
        var merged := MergeToolCall(result[existingIdx], newItem);
        IndexPatch(toolCallIndex, result, existingIdx, newItem);
        result := result[existingIdx := merged];
      } else {
        IndexAppend(toolCallIndex, result, newItem);
        result := result + [newItem];
        if newItem.ToolCall? {
          toolCallIndex := toolCallIndex[newItem.toolUseId := |result| - 1];
        }
      }
    }
    assert newItems[..|newItems|] == newItems;
    result := Sort(BySequence, result);
  }

  lemma NoneAbsorbed(items: seq<Item>)
    ensures AbsorbAll(items, []) == items
  {
  }

  lemma AbsorbAllSnoc(items: seq<Item>, new_: seq<Item>, n: nat)
    requires n < |new_|
    ensures AbsorbAll(items, new_[..n + 1]) == Absorb(AbsorbAll(items, new_[..n]), new_[n])
  {
    assert new_[..n + 1][..n] == new_[..n];
  }

  /** The index finds what the search from the back finds. */
  lemma AbsorbByIndex(index: map<string, int>, items: seq<Item>, x: Item)
    requires IndexOf(index, items)
    ensures if x.ToolCall? && x.toolUseId in index then
              && 0 <= index[x.toolUseId] < |items| && items[index[x.toolUseId]].ToolCall?
              && Absorb(items, x) == items[index[x.toolUseId] := MergeToolCall(items[index[x.toolUseId]], x)]
            else Absorb(items, x) == items + [x]
  {
    hide LastIndex;
  }

  lemma IndexAppend(index: map<string, int>, items: seq<Item>, x: Item)
    requires IndexOf(index, items)
    ensures IndexOf(if x.ToolCall? then index[x.toolUseId := |items|] else index, items + [x])
  {
    hide LastIndex;
    forall id { LastIndexSnoc(items, x, id); }
  }

  lemma IndexPatch(index: map<string, int>, items: seq<Item>, i: int, x: Item)
    requires IndexOf(index, items) && 0 <= i < |items| && items[i].ToolCall? && x.ToolCall?
    ensures IndexOf(index, items[i := MergeToolCall(items[i], x)])
  {
    hide LastIndex;
    var merged := MergeToolCall(items[i], x);
    forall id { PatchKeepsIndex(items, i, merged, id); }
  }

  lemma LastIndexSnoc(items: seq<Item>, x: Item, id: string)
    ensures LastIndex(items + [x], id) == if IsCall(x, id) then |items| else LastIndex(items, id)
  {
    assert (items + [x])[..|items|] == items;
  }

  lemma LastIndexUnique(items: seq<Item>, id: string, r: int)
    requires -1 <= r < |items|
    requires r >= 0 ==> IsCall(items[r], id)
    requires forall i :: r < i < |items| ==> !IsCall(items[i], id)
    ensures LastIndex(items, id) == r
  {
    var l := LastIndex(items, id);
    assert l >= 0 ==> IsCall(items[l], id);
  }

  lemma PatchKeepsIndex(items: seq<Item>, i: int, x: Item, id: string)
    requires 0 <= i < |items|
    requires forall k :: IsCall(items[i], k) <==> IsCall(x, k)
    ensures LastIndex(items[i := x], id) == LastIndex(items, id)
  {
    var patched := items[i := x];
    assert forall k :: 0 <= k < |items| ==> (IsCall(items[k], id) <==> IsCall(patched[k], id));
    LastIndexUnique(patched, id, LastIndex(items, id));
  }

  // ---------------------------------------------------------------------------
  // Batches may be merged one at a time or all at once
  // ---------------------------------------------------------------------------

  /** No two calls share a toolUseId. */
  ghost predicate Distinct(items: seq<Item>) {
    forall i, j :: 0 <= i < j < |items| && items[i].ToolCall? && items[j].ToolCall?
                   ==> items[i].toolUseId != items[j].toolUseId
  }

  function Patch(item: Item, x: Item): Item {
    if x.ToolCall? && IsCall(item, x.toolUseId) then MergeToolCall(item, x) else item
  }

  function PatchEach(items: seq<Item>, x: Item): (r: seq<Item>)
    requires x.ToolCall?
    ensures |r| == |items|
    ensures forall i :: 0 <= i < |r| ==> r[i] == Patch(items[i], x)
  {
    if items == [] then [] else PatchEach(items[..|items| - 1], x) + [Patch(items[|items| - 1], x)]
  }

  /** With distinct ids, patching the one position is patching every report on that call. */
  lemma PatchOnePosition(items: seq<Item>, x: Item, i: nat)
    requires Distinct(items) && x.ToolCall? && i < |items| && IsCall(items[i], x.toolUseId)
    ensures items[i := MergeToolCall(items[i], x)] == PatchEach(items, x)
  {
    var patched := PatchEach(items, x);
    forall k | 0 <= k < |items| ensures items[i := MergeToolCall(items[i], x)][k] == patched[k] {
      assert k != i ==> !IsCall(items[k], x.toolUseId);
    }
  }

  lemma PatchEachKeepsDistinct(items: seq<Item>, x: Item)
    requires Distinct(items) && x.ToolCall?
    ensures Distinct(PatchEach(items, x))
  {
    var patched := PatchEach(items, x);
    assert forall k :: 0 <= k < |items| && patched[k].ToolCall? ==>
             items[k].ToolCall? && items[k].toolUseId == patched[k].toolUseId;
  }

  lemma AbsorbOfDistinct(items: seq<Item>, x: Item)
    requires Distinct(items)
    ensures Absorb(items, x) == if x.ToolCall? && LastIndex(items, x.toolUseId) >= 0
                                then PatchEach(items, x) else items + [x]
    ensures Distinct(Absorb(items, x))
  {
    if x.ToolCall? {
      var i := LastIndex(items, x.toolUseId);
      if i >= 0 {
        PatchOnePosition(items, x, i);
        PatchEachKeepsDistinct(items, x);
      } else {
        assert forall k :: 0 <= k < |items| ==> !IsCall(items[k], x.toolUseId);
      }
    }
  }

  lemma {:induction false} AbsorbAllKeepsDistinct(items: seq<Item>, new_: seq<Item>)
    requires Distinct(items)
    ensures Distinct(AbsorbAll(items, new_))
  {
    if new_ != [] {
      AbsorbAllKeepsDistinct(items, new_[..|new_| - 1]);
      AbsorbOfDistinct(AbsorbAll(items, new_[..|new_| - 1]), new_[|new_| - 1]);
    }
  }

  lemma InsertSnoc(front: seq<Item>, last: Item, y: Item)
    ensures Insert(BySequence, front + [last], y)
         == if BySequence(last, y) then front + [last] + [y] else Insert(BySequence, front, y) + [last]
  {
    assert (front + [last])[..|front|] == front;
  }

  lemma SortSnoc(front: seq<Item>, last: Item)
    ensures Sort(BySequence, front + [last]) == Insert(BySequence, Sort(BySequence, front), last)
  {
    assert (front + [last])[..|front|] == front;
  }

  /** The call with this id that is searched from the back, brought up to date. */
  function PatchLast(items: seq<Item>, x: Item): seq<Item>
    requires x.ToolCall?
  {
    if items == [] then []
    else
      var front, last := items[..|items| - 1], items[|items| - 1];
      if IsCall(last, x.toolUseId) then front + [MergeToolCall(last, x)] else PatchLast(front, x) + [last]
  }

  lemma PatchLastSnoc(front: seq<Item>, last: Item, x: Item)
    requires x.ToolCall?
    ensures PatchLast(front + [last], x)
            == if IsCall(last, x.toolUseId) then front + [Patch(last, x)] else PatchLast(front, x) + [last]
  {
    assert (front + [last])[..|front|] == front;
  }

  lemma {:induction false} PatchLastAt(items: seq<Item>, x: Item)
    requires x.ToolCall?
    ensures var i := LastIndex(items, x.toolUseId);
              PatchLast(items, x) == if i >= 0 then items[i := MergeToolCall(items[i], x)] else items
  {
    if items != [] {
      var front, last := items[..|items| - 1], items[|items| - 1];
      assert items == front + [last];
      PatchLastAt(front, x);
    }
  }

  /** No call with this id is past a sequence number. */
  ghost predicate CallsUpTo(items: seq<Item>, id: string, sequence: int) {
    forall y :: y in items && IsCall(y, id) ==> y.base.sequence <= sequence
  }

  lemma {:induction false} InsertOther(items: seq<Item>, y: Item, x: Item)
    requires x.ToolCall? && !IsCall(y, x.toolUseId)
    ensures PatchLast(Insert(BySequence, items, y), x) == Insert(BySequence, PatchLast(items, x), y)
  {
    if items == [] {
      PatchLastSnoc([], y, x);
      assert [] + [y] == [y];
    } else {
      var front, last := items[..|items| - 1], items[|items| - 1];
      assert items == front + [last];
      hide Insert, PatchLast;
      InsertSnoc(front, last, y);
      PatchLastSnoc(front, last, x);
      InsertSnoc(front, Patch(last, x), y);
      InsertSnoc(PatchLast(front, x), last, y);
      PatchLastSnoc(front + [last], y, x);
      PatchLastSnoc(Insert(BySequence, front, y), last, x);
      InsertOther(front, y, x);
    }
  }

  lemma {:induction false} InsertReported(items: seq<Item>, y: Item, x: Item)
    requires x.ToolCall? && IsCall(y, x.toolUseId) && CallsUpTo(items, x.toolUseId, y.base.sequence)
    ensures PatchLast(Insert(BySequence, items, y), x) == Insert(BySequence, items, Patch(y, x))
  {
    if items == [] {
      PatchLastSnoc([], y, x);
      assert [] + [y] == [y] && [] + [Patch(y, x)] == [Patch(y, x)];
    } else {
      var front, last := items[..|items| - 1], items[|items| - 1];
      assert items == front + [last];
      CallsUpToFront(front, last, y, x);
      hide *;
      InsertSnoc(front, last, y);
      InsertSnoc(front, last, Patch(y, x));
      PatchLastSnoc(front + [last], y, x);
      PatchLastSnoc(Insert(BySequence, front, y), last, x);
      InsertReported(front, y, x);
    }
  }

  lemma CallsUpToFront(front: seq<Item>, last: Item, y: Item, x: Item)
    requires x.ToolCall? && IsCall(y, x.toolUseId) && CallsUpTo(front + [last], x.toolUseId, y.base.sequence)
    ensures CallsUpTo(front, x.toolUseId, y.base.sequence)
    ensures IsCall(last, x.toolUseId) ==> BySequence(last, y)
    ensures BySequence(last, Patch(y, x)) == BySequence(last, y)
  {
    assert last in front + [last] && forall z :: z in front ==> z in front + [last];
  }

  /** Of the calls with this id, the last one has the greatest sequence number. */
  ghost predicate InOrderFor(items: seq<Item>, id: string) {
    LastIndex(items, id) >= 0 ==> CallsUpTo(items, id, items[LastIndex(items, id)].base.sequence)
  }

  ghost predicate RepeatsInOrder(items: seq<Item>) {
    forall id :: InOrderFor(items, id)
  }

  lemma {:induction false} SortPatchesLast(items: seq<Item>, x: Item)
    requires x.ToolCall? && InOrderFor(items, x.toolUseId)
    ensures Sort(BySequence, PatchLast(items, x)) == PatchLast(Sort(BySequence, items), x)
  {
    if items != [] {
      var front, last := items[..|items| - 1], items[|items| - 1];
      assert items == front + [last] && last in items && forall z :: z in front ==> z in items;
      LastIndexSnoc(front, last, x.toolUseId);
      hide Sort, Insert, PatchLast, LastIndex;
      SortSnoc(front, last);
      PatchLastSnoc(front, last, x);
      SortPermutes(BySequence, front);
      if IsCall(last, x.toolUseId) {
        SortSnoc(front, Patch(last, x));
        forall z | z in Sort(BySequence, front) ensures z in front {
          MembersAgree(Sort(BySequence, front), front, z);
        }
        InsertReported(Sort(BySequence, front), last, x);
      } else {
        SortPatchesLast(front, x);
        SortSnoc(PatchLast(front, x), last);
        InsertOther(Sort(BySequence, front), last, x);
      }
    }
  }

  lemma OrderedIsInOrder(items: seq<Item>)
    requires Ordered(BySequence, items)
    ensures RepeatsInOrder(items)
  {
  }

  lemma DistinctIsInOrder(items: seq<Item>)
    requires Distinct(items)
    ensures RepeatsInOrder(items)
  {
  }

  lemma AbsorbKeepsInOrder(items: seq<Item>, x: Item)
    requires RepeatsInOrder(items)
    ensures RepeatsInOrder(Absorb(items, x))
  {
    hide LastIndex;
    var i := if x.ToolCall? then LastIndex(items, x.toolUseId) else -1;
    forall id ensures InOrderFor(Absorb(items, x), id) {
      assert InOrderFor(items, id);
      if i >= 0 {
        PatchKeepsIndex(items, i, MergeToolCall(items[i], x), id);
      } else {
        LastIndexSnoc(items, x, id);
      }
    }
  }

  lemma {:induction false} AbsorbAllKeepsInOrder(items: seq<Item>, new_: seq<Item>)
    requires RepeatsInOrder(items)
    ensures RepeatsInOrder(AbsorbAll(items, new_))
  {
    if new_ != [] {
      AbsorbAllKeepsInOrder(items, new_[..|new_| - 1]);
      AbsorbKeepsInOrder(AbsorbAll(items, new_[..|new_| - 1]), new_[|new_| - 1]);
    }
  }

  lemma DistinctBySet(s: seq<Item>, t: seq<Item>)
    requires Distinct(s) && multiset(s) == multiset(t)
    ensures Distinct(t)
  {
    forall i, j | 0 <= i < j < |t| && t[i].ToolCall? && t[j].ToolCall?
      ensures t[i].toolUseId != t[j].toolUseId
    {
      if t[i].toolUseId == t[j].toolUseId {
        assert t[i] in multiset(t) && t[j] in multiset(t);
        assert t[i] in s && t[j] in s;
        if t[i] == t[j] {
          RepeatCounts(t, i, j);
          OnceInDistinct(s, t[i]);
        }
      }
    }
  }

  lemma {:induction false} OnceInDistinct(s: seq<Item>, x: Item)
    requires Distinct(s) && x.ToolCall?
    ensures multiset(s)[x] <= 1
  {
    if s != [] {
      assert s == [s[0]] + s[1..];
      OnceInDistinct(s[1..], x);
      assert s[0] == x ==> x !in s[1..];
      assert multiset(s) == multiset{s[0]} + multiset(s[1..]);
    }
  }

  lemma SameCalls(s: seq<Item>, t: seq<Item>, id: string)
    requires multiset(s) == multiset(t)
    ensures LastIndex(s, id) >= 0 <==> LastIndex(t, id) >= 0
  {
    if LastIndex(s, id) >= 0 {
      assert s[LastIndex(s, id)] in multiset(s);
      assert s[LastIndex(s, id)] in t;
    }
    if LastIndex(t, id) >= 0 {
      assert t[LastIndex(t, id)] in multiset(t);
      assert t[LastIndex(t, id)] in s;
    }
  }

  /** Sorting before an item is absorbed is invisible once the result is sorted. */
  lemma SortThenAbsorb(items: seq<Item>, x: Item)
    requires RepeatsInOrder(items)
    ensures Sort(BySequence, Absorb(Sort(BySequence, items), x)) == Sort(BySequence, Absorb(items, x))
  {
    var sorted := Sort(BySequence, items);
    SortPermutes(BySequence, items);
    if x.ToolCall? {
      SameCalls(items, sorted, x.toolUseId);
    }
    if x.ToolCall? && LastIndex(items, x.toolUseId) >= 0 {
      assert InOrderFor(items, x.toolUseId);
      PatchLastAt(items, x);
      PatchLastAt(sorted, x);
      SortPatchesLast(items, x);
      SortOrdered(BySequence, PatchLast(items, x));
      SortOfOrdered(BySequence, Sort(BySequence, PatchLast(items, x)));
    } else {
      SortPrefixFirst(BySequence, items, [x]);
    }
  }

  lemma {:induction false} SortThenAbsorbAll(items: seq<Item>, new_: seq<Item>)
    requires RepeatsInOrder(items)
    ensures Merge(Sort(BySequence, items), new_) == Merge(items, new_)
  {
    var sorted := Sort(BySequence, items);
    SortOrdered(BySequence, items);
    OrderedIsInOrder(sorted);
    if new_ == [] {
      SortOfOrdered(BySequence, sorted);
    } else {
      var front, x := new_[..|new_| - 1], new_[|new_| - 1];
      hide RepeatsInOrder, Ordered, Absorb;
      SortThenAbsorbAll(items, front);
      AbsorbAllKeepsInOrder(items, front);
      AbsorbAllKeepsInOrder(sorted, front);
      SortThenAbsorb(AbsorbAll(sorted, front), x);
      SortThenAbsorb(AbsorbAll(items, front), x);
    }
  }

  lemma {:induction false} AbsorbAllConcat(items: seq<Item>, a: seq<Item>, b: seq<Item>)
    ensures AbsorbAll(items, a + b) == AbsorbAll(AbsorbAll(items, a), b)
  {
    if b == [] {
      assert a + b == a;
    } else {
      assert (a + b)[..|a + b| - 1] == a + b[..|b| - 1];
      AbsorbAllConcat(items, a, b[..|b| - 1]);
    }
  }

  /** Merging two batches in turn is merging their concatenation. */
  lemma IncrementalMergeIsBatchMerge(timeline: seq<Item>, a: seq<Item>, b: seq<Item>)
    requires RepeatsInOrder(timeline)
    ensures Merge(Merge(timeline, a), b) == Merge(timeline, a + b)
    ensures Distinct(timeline) ==> Distinct(Merge(timeline, a))
  {
    if Distinct(timeline) { MergeKeepsDistinct(timeline, a); }
    AbsorbAllKeepsInOrder(timeline, a);
    SortThenAbsorbAll(AbsorbAll(timeline, a), b);
    AbsorbAllConcat(timeline, a, b);
  }

  lemma MergeKeepsDistinct(timeline: seq<Item>, newItems: seq<Item>)
    requires Distinct(timeline)
    ensures Distinct(Merge(timeline, newItems)) && RepeatsInOrder(Merge(timeline, newItems))
  {
    AbsorbAllKeepsDistinct(timeline, newItems);
    SortPermutes(BySequence, AbsorbAll(timeline, newItems));
    DistinctBySet(AbsorbAll(timeline, newItems), Merge(timeline, newItems));
    DistinctIsInOrder(Merge(timeline, newItems));
  }

  /** A report that sets a status and nothing else. */
  function StatusReport(id: string, status: Status): Item {
    ToolCall(Base("", "", 0, GcHook, false), id, "", "", status, None, None, None)
  }

  lemma MergeOne(items: seq<Item>, x: Item)
    ensures Merge(items, [x]) == Sort(BySequence, Absorb(items, x)) && Merge(items, []) == Sort(BySequence, items)
  {
    assert [x][..0] == [];
    assert AbsorbAll(items, [x]) == Absorb(AbsorbAll(items, []), x);
  }

  lemma UpdatesDiffer(s: seq<Item>, i: int, v: Item, t: seq<Item>, j: int, w: Item)
    requires 0 <= i < |s| && 0 <= j < |t| && multiset(s) == multiset(t)
    requires v != s[i] && v != w
    ensures multiset(s[i := v]) != multiset(t[j := w])
  {
    assert multiset(s[i := v]) == multiset(s) - multiset{s[i]} + multiset{v};
    assert multiset(t[j := w]) == multiset(t) - multiset{t[j]} + multiset{w};
    assert multiset(s[i := v])[v] == multiset(s)[v] + 1;
    assert multiset(t[j := w])[v] <= multiset(t)[v];
  }

  lemma LastIsGreatest(s: seq<Item>, id: string, y: Item)
    requires Ordered(BySequence, s) && y in s && IsCall(y, id)
    ensures LastIndex(s, id) >= 0 && y.base.sequence <= s[LastIndex(s, id)].base.sequence
  {
  }

  lemma GreatestIsPatched(timeline: seq<Item>, id: string)
    requires LastIndex(timeline, id) >= 0 && !InOrderFor(timeline, id)
    ensures var s, q := Sort(BySequence, timeline), timeline[LastIndex(timeline, id)];
              LastIndex(s, id) >= 0 && s[LastIndex(s, id)].base.sequence > q.base.sequence
  {
    var sorted, q := Sort(BySequence, timeline), timeline[LastIndex(timeline, id)];
    var y :| y in timeline && IsCall(y, id) && y.base.sequence > q.base.sequence;
    hide Sort, LastIndex, Ordered, CallsUpTo;
    SortPermutes(BySequence, timeline);
    MembersAgree(sorted, timeline, y);
    SortOrdered(BySequence, timeline);
    LastIsGreatest(sorted, id, y);
  }

  /** When the last call with an id is not its greatest, there is a report that goes to another call once sorted. */
  lemma OutOfOrderBreaksBatching(timeline: seq<Item>, id: string) returns (x: Item)
    requires !InOrderFor(timeline, id)
    ensures Merge(Merge(timeline, []), [x]) != Merge(timeline, [] + [x])
  {
    var sorted, i := Sort(BySequence, timeline), LastIndex(timeline, id);
    var j := LastIndex(sorted, id);
    GreatestIsPatched(timeline, id);
    var p, q := sorted[j], timeline[i];
    x := StatusReport(id, if p.status.Completed? then Failed else Completed);
    var p', q' := MergeToolCall(p, x), MergeToolCall(q, x);
    assert p' != p && p' != q';
    assert Absorb(sorted, x) == sorted[j := p'] && Absorb(timeline, x) == timeline[i := q'];
    assert [] + [x] == [x];
    MergeOne(timeline, x);
    MergeOne(sorted, x);
    hide LastIndex, Absorb, Sort, CallsUpTo, MergeToolCall;
    SortPermutes(BySequence, timeline);
    UpdatesDiffer(sorted, j, p', timeline, i, q');
    SortPermutes(BySequence, sorted[j := p']);
    SortPermutes(BySequence, timeline[i := q']);
  }

  /** Batches may be merged one at a time or all at once exactly when, of the calls of the timeline that share an id,
      the last one has the greatest sequence number. */
  lemma BatchingIsExact(timeline: seq<Item>)
    ensures (forall a, b :: Merge(Merge(timeline, a), b) == Merge(timeline, a + b)) <==> RepeatsInOrder(timeline)
  {
    if RepeatsInOrder(timeline) {
      forall a, b ensures Merge(Merge(timeline, a), b) == Merge(timeline, a + b) {
        IncrementalMergeIsBatchMerge(timeline, a, b);
      }
    } else {
      var id :| !InOrderFor(timeline, id);
      var x := OutOfOrderBreaksBatching(timeline, id);
    }
  }

  function MergeBatches(timeline: seq<Item>, batches: seq<seq<Item>>): seq<Item> {
    if batches == [] then timeline
    else Merge(MergeBatches(timeline, batches[..|batches| - 1]), batches[|batches| - 1])
  }

  /** However a session's items are cut into batches, the timeline built up from nothing is the same. */
  lemma {:induction false} TimelineIgnoresBatching(batches: seq<seq<Item>>)
    ensures MergeBatches([], batches) == Merge([], Flatten(batches))
  {
    if batches != [] {
      TimelineIgnoresBatching(batches[..|batches| - 1]);
      DistinctIsInOrder([]);
      IncrementalMergeIsBatchMerge([], Flatten(batches[..|batches| - 1]), batches[|batches| - 1]);
    }
  }

  function Call(id: string, sequence: int, status: Status): Item {
    ToolCall(Base(id, "", sequence, GcHook, false), "t", "Bash", "", status, None, None, None)
  }

  /** Distinct ids are needed: with a repeated id the two ways of merging update different calls. */
  lemma RepeatedIdsBreakBatching()
    ensures var t := [Call("a", 2, Running), Call("b", 1, Running)];
            var done := [Call("c", 3, Completed)];
            Merge(Merge(t, []), done) != Merge(t, [] + done)
  {
    var x, y, z := Call("a", 2, Running), Call("b", 1, Running), Call("c", 3, Completed);
    var t := [x, y];
    SortPair(x, y);
    assert Merge(t, []) == [y, x];
    assert AbsorbAll([y, x], [z]) == Absorb(AbsorbAll([y, x], []), z) by { assert [z][..0] == []; }
    assert Absorb([y, x], z) == [y, MergeToolCall(x, z)];
    assert Absorb(t, z) == [x, MergeToolCall(y, z)];
    assert AbsorbAll(t, [] + [z]) == Absorb(AbsorbAll(t, []), z) by { assert [] + [z] == [z] && [z][..0] == []; }
    SortPair(y, MergeToolCall(x, z));
    SortPair(x, MergeToolCall(y, z));
  }

  lemma SortPair(x: Item, y: Item)
    ensures Sort(BySequence, [x, y]) == if BySequence(x, y) then [x, y] else [y, x]
  {
    assert [x, y][..1] == [x] && [x][..0] == [];
    assert Sort(BySequence, []) == [];
    assert Sort(BySequence, [x]) == [x];
    assert Sort(BySequence, [x, y]) == Insert(BySequence, Sort(BySequence, [x, y][..1]), y);
    assert Insert(BySequence, [], y) == [y];
  }

  // ---------------------------------------------------------------------------
  // What a merged timeline holds, without an index or positions
  // ---------------------------------------------------------------------------

  /** `first` brought up to date by every later report on the same call, in order. */
  function Fused(first: Item, later: seq<Item>): Item
    decreases |later|
  {
    if later == [] || !first.ToolCall? then first
    else Fused(Patch(first, later[0]), later[1..])
  }

  function FuseEach(items: seq<Item>, later: seq<Item>): seq<Item> {
    if items == [] then [] else [Fused(items[0], later)] + FuseEach(items[1..], later)
  }

  function Ids(items: seq<Item>): set<string> {
    set x | x in items && x.ToolCall? :: x.toolUseId
  }

  /** Each call once, at its first report and fused with all later ones; every other item as it is.
      Reports on `known` calls are left out. */
  function History(items: seq<Item>, known: set<string>): seq<Item> {
    if items == [] then []
    else
      var x, rest := items[0], items[1..];
      if !x.ToolCall? then [x] + History(rest, known)
      else if x.toolUseId in known then History(rest, known)
      else [Fused(x, rest)] + History(rest, known + {x.toolUseId})
  }

  lemma InIds(items: seq<Item>, id: string)
    ensures id in Ids(items) <==> LastIndex(items, id) >= 0
  {
    if id in Ids(items) {
      var x :| x in items && x.ToolCall? && x.toolUseId == id;
      assert IsCall(x, id);
    }
  }

  lemma {:induction false} FuseEachPatched(items: seq<Item>, x: Item, later: seq<Item>)
    requires x.ToolCall?
    ensures FuseEach(PatchEach(items, x), later) == FuseEach(items, [x] + later)
  {
    if items != [] {
      FuseEachPatched(items[1..], x, later);
      assert PatchEach(items, x)[1..] == PatchEach(items[1..], x);
      assert ([x] + later)[0] == x && ([x] + later)[1..] == later;
    }
  }

  lemma {:induction false} FuseEachUnrelated(items: seq<Item>, x: Item, later: seq<Item>)
    requires x.ToolCall? ==> x.toolUseId !in Ids(items)
    ensures FuseEach(items, [x] + later) == FuseEach(items, later)
  {
    if items != [] {
      assert items[0].ToolCall? ==> items[0].toolUseId in Ids(items);
      assert Ids(items[1..]) <= Ids(items);
      FuseEachUnrelated(items[1..], x, later);
      assert ([x] + later)[0] == x && ([x] + later)[1..] == later;
    }
  }

  lemma {:induction false} FuseEachSnoc(items: seq<Item>, x: Item, later: seq<Item>)
    ensures FuseEach(items + [x], later) == FuseEach(items, later) + [Fused(x, later)]
  {
    if items == [] {
      assert [] + [x] == [x];
    } else {
      assert (items + [x])[1..] == items[1..] + [x];
      FuseEachSnoc(items[1..], x, later);
    }
  }

  lemma PatchKeepsIds(items: seq<Item>, x: Item)
    requires x.ToolCall?
    ensures Ids(PatchEach(items, x)) == Ids(items)
  {
    var patched := PatchEach(items, x);
    forall id ensures id in Ids(patched) <==> id in Ids(items) {
      if id in Ids(items) {
        var i :| 0 <= i < |items| && items[i].ToolCall? && items[i].toolUseId == id;
        assert patched[i] in patched;
      }
      if id in Ids(patched) {
        var i :| 0 <= i < |items| && patched[i].ToolCall? && patched[i].toolUseId == id;
        assert items[i] in items;
      }
    }
  }

  lemma AbsorbAllCons(timeline: seq<Item>, x: Item, rest: seq<Item>)
    ensures AbsorbAll(timeline, [x] + rest) == AbsorbAll(Absorb(timeline, x), rest)
  {
    AbsorbAllConcat(timeline, [x], rest);
    assert [x][..0] == [];
    assert AbsorbAll(timeline, [x]) == Absorb(AbsorbAll(timeline, []), x);
  }

  /** One more report: either on a known call, or a new entry. */
  lemma HistoryCons(x: Item, rest: seq<Item>, known: set<string>)
    ensures History([x] + rest, known)
         == if x.ToolCall? && x.toolUseId in known then History(rest, known)
            else [Fused(x, rest)] + History(rest, if x.ToolCall? then known + {x.toolUseId} else known)
  {
    assert ([x] + rest)[1..] == rest;
  }

  lemma IdsSnoc(items: seq<Item>, x: Item)
    ensures Ids(items + [x]) == if x.ToolCall? then Ids(items) + {x.toolUseId} else Ids(items)
  {
  }

  lemma {:induction false} AbsorbAllIsHistory(timeline: seq<Item>, items: seq<Item>)
    requires Distinct(timeline)
    ensures AbsorbAll(timeline, items) == FuseEach(timeline, items) + History(items, Ids(timeline))
    decreases |items|
  {
    if items == [] {
      FuseEachNothing(timeline);
    } else {
      var x, rest := items[0], items[1..];
      assert items == [x] + rest;
      hide AbsorbAll, FuseEach, History, Fused, Ids, Absorb;
      AbsorbAllCons(timeline, x, rest);
      HistoryCons(x, rest, Ids(timeline));
      AbsorbOfDistinct(timeline, x);
      if x.ToolCall? { InIds(timeline, x.toolUseId); }
      AbsorbAllIsHistory(Absorb(timeline, x), rest);
      if x.ToolCall? && x.toolUseId in Ids(timeline) {
        FuseEachPatched(timeline, x, rest);
        PatchKeepsIds(timeline, x);
      } else {
        FuseEachSnoc(timeline, x, rest);
        FuseEachUnrelated(timeline, x, rest);
        IdsSnoc(timeline, x);
        assert Absorb(timeline, x) == timeline + [x];
        Regroup(FuseEach(timeline, rest), [Fused(x, rest)], History(rest, Ids(timeline + [x])));
      }
    }
  }

  lemma {:induction false} FuseEachNothing(items: seq<Item>)
    ensures FuseEach(items, []) == items
  {
    if items != [] { FuseEachNothing(items[1..]); }
  }

  /** The merged timeline is the sorted history: one entry per call, where it was first reported. */
  lemma MergeIsSortedHistory(timeline: seq<Item>, newItems: seq<Item>)
    requires Distinct(timeline)
    ensures Merge(timeline, newItems)
         == Sort(BySequence, FuseEach(timeline, newItems) + History(newItems, Ids(timeline)))
    ensures var r := Merge(timeline, newItems);
              Distinct(r) && forall i, j :: 0 <= i < j < |r| ==> r[i].base.sequence <= r[j].base.sequence
  {
    hide Sort, History, FuseEach, Distinct, AbsorbAll;
    AbsorbAllIsHistory(timeline, newItems);
    SortOrdered(BySequence, AbsorbAll(timeline, newItems));
    MergeKeepsDistinct(timeline, newItems);
    SequencesInOrder(Merge(timeline, newItems));
  }

  lemma SequencesInOrder(items: seq<Item>)
    requires Ordered(BySequence, items)
    ensures forall i, j :: 0 <= i < j < |items| ==> items[i].base.sequence <= items[j].base.sequence
  {
    assert forall i, j :: 0 <= i < j < |items| ==> BySequence(items[i], items[j]);
  }

  lemma TimelineIsSortedHistory(batches: seq<seq<Item>>)
    ensures MergeBatches([], batches) == Sort(BySequence, History(Flatten(batches), {}))
  {
    TimelineIgnoresBatching(batches);
    MergeIsSortedHistory([], Flatten(batches));
    assert Ids([]) == {};
    assert FuseEach([], Flatten(batches)) + History(Flatten(batches), {}) == History(Flatten(batches), {});
  }

  predicate HasOutput(x: Item) { x.ToolCall? && x.output.Some? }

  predicate HasError(x: Item) { x.ToolCall? && x.error.Some? }

  predicate HasDuration(x: Item) { x.ToolCall? && x.durationMs.Some? }

  /** The last report on a call that has something, or -1. */
  function LastWith(reports: seq<Item>, id: string, has: Item -> bool): (r: int)
    ensures -1 <= r < |reports|
    ensures r >= 0 ==> IsCall(reports[r], id) && has(reports[r])
    ensures forall i :: r < i < |reports| ==> !(IsCall(reports[i], id) && has(reports[i]))
  {
    if reports == [] then -1
    else if IsCall(reports[|reports| - 1], id) && has(reports[|reports| - 1]) then |reports| - 1
    else LastWith(reports[..|reports| - 1], id, has)
  }

  lemma LastWithIs(reports: seq<Item>, id: string, has: Item -> bool, r: int)
    requires -1 <= r < |reports|
    requires r >= 0 ==> IsCall(reports[r], id) && has(reports[r])
    requires forall i :: r < i < |reports| ==> !(IsCall(reports[i], id) && has(reports[i]))
    ensures LastWith(reports, id, has) == r
  {
    var k := LastWith(reports, id, has);
    assert k >= 0 ==> IsCall(reports[k], id) && has(reports[k]);
  }

  lemma LastWithCons(x: Item, rest: seq<Item>, id: string, has: Item -> bool)
    ensures LastWith([x] + rest, id, has)
            == if LastWith(rest, id, has) >= 0 then LastWith(rest, id, has) + 1
               else if IsCall(x, id) && has(x) then 0 else -1
  {
    var k := LastWith(rest, id, has);
    var r := if k >= 0 then k + 1 else if IsCall(x, id) && has(x) then 0 else -1;
    var all := [x] + rest;
    forall i | r < i < |all| ensures !(IsCall(all[i], id) && has(all[i])) {
      if i > 0 { assert all[i] == rest[i - 1]; }
    }
    assert r > 0 ==> all[r] == rest[k];
    LastWithIs(all, id, has, r);
  }

  lemma LastIndexCons(x: Item, rest: seq<Item>, id: string)
    ensures LastIndex([x] + rest, id)
            == if LastIndex(rest, id) >= 0 then LastIndex(rest, id) + 1 else if IsCall(x, id) then 0 else -1
  {
    var i := LastIndex(rest, id);
    LastIndexUnique([x] + rest, id, if i >= 0 then i + 1 else if IsCall(x, id) then 0 else -1);
  }

  function LastStatus(first: Item, later: seq<Item>): Status
    requires first.ToolCall?
  {
    var i := LastIndex(later, first.toolUseId);
    if i >= 0 then later[i].status else first.status
  }

  function LastOutput(first: Item, later: seq<Item>): Option<string>
    requires first.ToolCall?
  {
    var i := LastWith(later, first.toolUseId, HasOutput);
    if i >= 0 then later[i].output else first.output
  }

  function LastError(first: Item, later: seq<Item>): Option<string>
    requires first.ToolCall?
  {
    var i := LastWith(later, first.toolUseId, HasError);
    if i >= 0 then later[i].error else first.error
  }

  function LastDuration(first: Item, later: seq<Item>): Option<int>
    requires first.ToolCall?
  {
    var i := LastWith(later, first.toolUseId, HasDuration);
    if i >= 0 then later[i].durationMs else first.durationMs
  }

  lemma StatusCons(first: Item, x: Item, rest: seq<Item>)
    requires first.ToolCall?
    ensures LastStatus(first, [x] + rest) == LastStatus(Patch(first, x), rest)
  {
    hide LastIndex;
    LastIndexCons(x, rest, first.toolUseId);
  }

  lemma OutputCons(first: Item, x: Item, rest: seq<Item>)
    requires first.ToolCall?
    ensures LastOutput(first, [x] + rest) == LastOutput(Patch(first, x), rest)
  {
    hide LastWith;
    LastWithCons(x, rest, first.toolUseId, HasOutput);
  }

  lemma ErrorCons(first: Item, x: Item, rest: seq<Item>)
    requires first.ToolCall?
    ensures LastError(first, [x] + rest) == LastError(Patch(first, x), rest)
  {
    hide LastWith;
    LastWithCons(x, rest, first.toolUseId, HasError);
  }

  lemma DurationCons(first: Item, x: Item, rest: seq<Item>)
    requires first.ToolCall?
    ensures LastDuration(first, [x] + rest) == LastDuration(Patch(first, x), rest)
  {
    hide LastWith;
    LastWithCons(x, rest, first.toolUseId, HasDuration);
  }

  /** Fusing keeps a call's position and input and takes the status of the last report; its output, error and duration
      are each that of the last report that has one, or else its own. */
  lemma {:induction false} FusedKeepsCall(first: Item, later: seq<Item>)
    requires first.ToolCall?
    ensures var r := Fused(first, later);
              && r.ToolCall? && r.base == first.base && r.toolUseId == first.toolUseId
              && r.toolName == first.toolName && r.input == first.input
              && r.status == LastStatus(first, later) && r.output == LastOutput(first, later)
              && r.error == LastError(first, later) && r.durationMs == LastDuration(first, later)
    decreases |later|
  {
    if later != [] {
      var x, rest := later[0], later[1..];
      assert later == [x] + rest;
      hide LastStatus, LastOutput, LastError, LastDuration;
      FusedKeepsCall(Patch(first, x), rest);
      StatusCons(first, x, rest);
      OutputCons(first, x, rest);
      ErrorCons(first, x, rest);
      DurationCons(first, x, rest);
    }
  }
}
