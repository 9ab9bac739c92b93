/** The sliding-window request limiter of the security middleware. */
module RateLimiters {

  const MAX_RATE_LIMIT_ENTRIES := 10000

  /** The timestamps after `cut`, in order. */
  function Recent(ts: seq<int>, cut: int): (r: seq<int>)
    ensures |r| <= |ts|
    ensures forall k :: 0 <= k < |r| ==> r[k] > cut
  {
    if ts == [] then []
    else Recent(ts[..|ts| - 1], cut) + if ts[|ts| - 1] > cut then [ts[|ts| - 1]] else []
  }

  function Get(m: map<string, seq<int>>, ip: string): seq<int> {
    if ip in m then m[ip] else []
  }

  lemma RecentSnoc(ts: seq<int>, t: int, cut: int)
    ensures Recent(ts + [t], cut) == Recent(ts, cut) + if t > cut then [t] else []
  {
    assert (ts + [t])[..|ts|] == ts;
  }

  lemma {:induction false} RecentTwice(ts: seq<int>, a: int, b: int)
    requires a <= b
    ensures Recent(Recent(ts, a), b) == Recent(ts, b)
  {
    if ts != [] {
      var front, t := ts[..|ts| - 1], ts[|ts| - 1];
      assert ts == front + [t];
      hide Recent;
      RecentTwice(front, a, b);
      RecentSnoc(front, t, a);
      RecentSnoc(front, t, b);
      RecentSnoc(Recent(front, a), t, b);
      assert Recent(front, a) + [] == Recent(front, a) && Recent(front, b) + [] == Recent(front, b);
    }
  }

  /** Whether the full history of admitted requests leaves no room at `now`. */
  predicate Limited(history: seq<int>, now: int, windowMs: int, maxRequests: int) {
    |Recent(history, now - windowMs)| >= maxRequests
  }

  /** Every request in the history was admitted for want of enough others in its window. */
  ghost predicate Fair(history: seq<int>, windowMs: int, maxRequests: int) {
    && (forall i :: 0 <= i < |history| ==> !Limited(history[..i], history[i], windowMs, maxRequests))
    && (forall i, j :: 0 <= i < j < |history| ==> history[i] <= history[j])
  }

  ghost predicate Agree(a: seq<int>, b: seq<int>, cut: int) {
    forall c :: c >= cut ==> Recent(a, c) == Recent(b, c)
  }

  /** What is kept of a client's history serves every decision from `clock` on. */
  ghost predicate EntryOk(kept: seq<int>, history: seq<int>, clock: int, windowMs: int, maxRequests: int) {
    && Agree(kept, history, clock - windowMs)
    && Fair(history, windowMs, maxRequests)
    && (history != [] ==> history[|history| - 1] <= clock)
  }

  class RateLimiter {
    const maxRequests: int
    const windowMs: int
    var entries: map<string, seq<int>>
    /** Every admission there has been. */
    ghost var history: map<string, seq<int>>
    ghost var clock: int

    ghost predicate Valid()
      reads this
    {
      forall ip :: EntryOk(Get(entries, ip), Get(history, ip), clock, windowMs, maxRequests)
    }

    constructor (maxRequests: int, windowMs: int, ghost start: int)
      ensures Valid() && clock == start && history == map[]
      ensures this.maxRequests == maxRequests && this.windowMs == windowMs
    {
      this.maxRequests, this.windowMs := maxRequests, windowMs;
      entries, history, clock := map[], map[], start;
    }

    /** The clock does not run backwards. The decision is the one the full history dictates,
        whatever has been pruned and whether or not the map was cleaned up. */
    method IsRateLimited(ip: string, now: int) returns (limited: bool)
      requires Valid() && now >= clock
      modifies this
      ensures Valid() && clock == now
      ensures limited <==> CountIn(Get(old(history), ip), now - windowMs, now) >= maxRequests
      ensures history == if limited then old(history) else old(history)[ip := Get(old(history), ip) + [now]]
    {
      hide EntryOk, Limited, CountIn, Recent, Get;
      LimitedExactly(Get(entries, ip), Get(history, ip), clock, now, windowMs, maxRequests);
      CleanUpIfLarge(now);
      limited := Decide(ip, now);
    }

    method CleanUpIfLarge(now: int)
      requires Valid() && now >= clock
      modifies `entries, `clock
      ensures Valid() && clock == now
    {
      hide Recent, Fair, Agree;
      forall i { AgreeItself(Get(entries, i), now - windowMs); }
      if |entries| > MAX_RATE_LIMIT_ENTRIES {
        CleanUp(now - windowMs);
      }
      clock := now;
      forall i ensures EntryOk(Get(entries, i), Get(history, i), now, windowMs, maxRequests) {
        PruneKeepsEntry(Get(old(entries), i), Get(entries, i), Get(history, i), old(clock), now, windowMs, maxRequests);
      }
    }

    method Decide(ip: string, now: int) returns (limited: bool)
      requires Valid() && now == clock
      modifies `entries, `history
      ensures Valid()
      ensures limited <==> Limited(Get(old(history), ip), now, windowMs, maxRequests)
      ensures history == if limited then old(history) else old(history)[ip := Get(old(history), ip) + [now]]
    {
      hide Recent, EntryOk;
      var windowStart := now - windowMs;
      var entry := if ip in entries then entries[ip] else [];
      ghost var past := Get(history, ip);
      assert EntryOk(entry, past, now, windowMs, maxRequests) by { assert entry == Get(entries, ip); }
      PrunedDecides(entry, past, now, windowMs, maxRequests);
      entry := Recent(entry, windowStart);
      limited := |entry| >= maxRequests;
      if !limited {
        AdmitKeepsEntry(entry, past, now, windowMs, maxRequests);
        entry := entry + [now];
        history := history[ip := past + [now]];
      }
      entries := entries[ip := entry];
      forall i ensures EntryOk(Get(entries, i), Get(history, i), now, windowMs, maxRequests) {
        assert i != ip ==> EntryOk(Get(old(entries), i), Get(old(history), i), now, windowMs, maxRequests);
      }
    }

    /** Prunes every entry and drops those that become empty. */
    method CleanUp(windowStart: int)
      modifies `entries
      ensures forall ip :: Agree(Get(entries, ip), Get(old(entries), ip), windowStart)
    {
      hide Recent;
      var todo := entries.Keys;
      while todo != {}
        invariant todo <= entries.Keys
        invariant forall ip :: ip in todo ==> ip in old(entries) && entries[ip] == old(entries)[ip]
        invariant forall ip :: Agree(Get(entries, ip), Get(old(entries), ip), windowStart)
      {
        var ip :| ip in todo;
        RecentTwiceAll(entries[ip], windowStart);
        var kept := Recent(entries[ip], windowStart);
        if kept == [] {
          entries := entries - {ip};
        } else {
          entries := entries[ip := kept];
        }
        todo := todo - {ip};
      }
    }

    /** Room is reported exactly when a request at that instant would be admitted. */
    method GetRateLimitStatus(ip: string, now: int) returns (remaining: int, resetIn: int)
      requires Valid() && now >= clock
      ensures var count := CountIn(Get(history, ip), now - windowMs, now);
                && (remaining > 0 <==> count < maxRequests)
                && (count < maxRequests ==> remaining == maxRequests - count)
                && (count == 0 ==> resetIn == windowMs)
      ensures resetIn == ResetIn(Get(history, ip), now, windowMs)
    {
      hide CountIn, Limited, EntryOk;
      LimitedExactly(Get(entries, ip), Get(history, ip), clock, now, windowMs, maxRequests);
      KeptServes(Get(entries, ip), Get(history, ip), clock, now, windowMs, maxRequests);
      assert Recent([], now - windowMs) == [];
      hide Recent;
      if ip !in entries {
        return maxRequests, windowMs;
      }
      var windowStart := now - windowMs;
      var recent := Recent(entries[ip], windowStart);
      var oldestInWindow := if recent == [] then 0 else recent[0];
      resetIn := if recent != [] && oldestInWindow != 0 then oldestInWindow + windowMs - now else windowMs;
      remaining := if maxRequests - |recent| > 0 then maxRequests - |recent| else 0;
    }
  }

  lemma KeptServes(kept: seq<int>, history: seq<int>, clock: int, now: int, windowMs: int, maxRequests: int)
    requires EntryOk(kept, history, clock, windowMs, maxRequests) && clock <= now
    ensures Recent(kept, now - windowMs) == Recent(history, now - windowMs)
  {
    hide Recent, Fair;
  }

  lemma PruneKeepsEntry(before: seq<int>, after: seq<int>, history: seq<int>, clock: int, now: int,
                        windowMs: int, maxRequests: int)
    requires EntryOk(before, history, clock, windowMs, maxRequests) && clock <= now
    requires Agree(after, before, now - windowMs)
    ensures EntryOk(after, history, now, windowMs, maxRequests)
  {
    hide Recent, Fair;
  }

  /** Pruning to the window leaves exactly what the decision counts. */
  lemma PrunedDecides(kept: seq<int>, history: seq<int>, now: int, windowMs: int, maxRequests: int)
    requires EntryOk(kept, history, now, windowMs, maxRequests)
    ensures Recent(kept, now - windowMs) == Recent(history, now - windowMs)
    ensures EntryOk(Recent(kept, now - windowMs), history, now, windowMs, maxRequests)
  {
    hide Fair;
    RecentTwiceAll(kept, now - windowMs);
  }

  lemma AdmitKeepsEntry(kept: seq<int>, history: seq<int>, now: int, windowMs: int, maxRequests: int)
    requires EntryOk(kept, history, now, windowMs, maxRequests) && !Limited(history, now, windowMs, maxRequests)
    ensures EntryOk(kept + [now], history + [now], now, windowMs, maxRequests)
  {
    AgreeSnoc(kept, history, now, now - windowMs);
    FairSnoc(history, now, windowMs, maxRequests);
  }

  lemma AgreeItself(ts: seq<int>, cut: int)
    ensures Agree(ts, ts, cut)
  {
  }

  lemma RecentTwiceAll(ts: seq<int>, cut: int)
    ensures Agree(Recent(ts, cut), ts, cut)
  {
    forall c | c >= cut ensures Recent(Recent(ts, cut), c) == Recent(ts, c) { RecentTwice(ts, cut, c); }
  }

  lemma AgreeSnoc(a: seq<int>, b: seq<int>, t: int, cut: int)
    requires Agree(a, b, cut)
    ensures Agree(a + [t], b + [t], cut)
  {
    forall c | c >= cut ensures Recent(a + [t], c) == Recent(b + [t], c) {
      RecentSnoc(a, t, c);
      RecentSnoc(b, t, c);
    }
  }

  lemma FairSnoc(history: seq<int>, now: int, windowMs: int, maxRequests: int)
    requires Fair(history, windowMs, maxRequests) && !Limited(history, now, windowMs, maxRequests)
    requires history != [] ==> history[|history| - 1] <= now
    ensures Fair(history + [now], windowMs, maxRequests)
  {
    var after := history + [now];
    hide Limited;
    forall i | 0 <= i < |after| ensures !Limited(after[..i], after[i], windowMs, maxRequests) {
      if i < |history| {
        assert after[..i] == history[..i] && after[i] == history[i];
      } else {
        assert after[..i] == history && after[i] == now;
      }
    }
  }

  // ---------------------------------------------------------------------------
  // What the window holds
  // ---------------------------------------------------------------------------

  /** How many timestamps lie after `a` and no later than `b`. */
  function CountIn(ts: seq<int>, a: int, b: int): nat {
    if ts == [] then 0
    else CountIn(ts[..|ts| - 1], a, b) + if a < ts[|ts| - 1] <= b then 1 else 0
  }

  lemma {:induction false} CountInCounts(ts: seq<int>, a: int, b: int)
    ensures CountIn(ts, a, b) == |set i | 0 <= i < |ts| && a < ts[i] <= b|
  {
    if ts != [] {
      var front, n := ts[..|ts| - 1], |ts| - 1;
      CountInCounts(front, a, b);
      var before := set i | 0 <= i < |front| && a < front[i] <= b;
      assert (set i | 0 <= i < |ts| && a < ts[i] <= b) == before + if a < ts[n] <= b then {n} else {};
    }
  }

  lemma {:induction false} RecentIsCounted(ts: seq<int>, cut: int, now: int)
    requires forall i :: 0 <= i < |ts| ==> ts[i] <= now
    ensures |Recent(ts, cut)| == CountIn(ts, cut, now)
  {
    if ts != [] { RecentIsCounted(ts[..|ts| - 1], cut, now); }
  }

  /** A request is turned away exactly when its window holds as many admissions as are permitted. */
  lemma LimitedExactly(kept: seq<int>, history: seq<int>, clock: int, now: int, windowMs: int, maxRequests: int)
    requires EntryOk(kept, history, clock, windowMs, maxRequests) && clock <= now
    ensures |Recent(history, now - windowMs)| == CountIn(history, now - windowMs, now)
    ensures Limited(history, now, windowMs, maxRequests) <==> CountIn(history, now - windowMs, now) >= maxRequests
  {
    hide Recent, Agree, CountIn, Limited;
    NoneLater(history, windowMs, maxRequests);
    RecentIsCounted(history, now - windowMs, now);
    LimitedByRecent(history, now, windowMs, maxRequests);
  }

  lemma LimitedByRecent(history: seq<int>, now: int, windowMs: int, maxRequests: int)
    ensures Limited(history, now, windowMs, maxRequests) <==> |Recent(history, now - windowMs)| >= maxRequests
  {
  }

  lemma NoneLater(history: seq<int>, windowMs: int, maxRequests: int)
    requires Fair(history, windowMs, maxRequests)
    ensures forall i :: 0 <= i < |history| ==> history[i] <= history[|history| - 1]
  {
    hide Limited;
  }

  // ---------------------------------------------------------------------------
  // The bound on any window
  // ---------------------------------------------------------------------------

  lemma {:induction false} CountInBelowRecent(ts: seq<int>, a: int, b: int, cut: int)
    requires cut <= a
    ensures CountIn(ts, a, b) <= |Recent(ts, cut)|
  {
    if ts != [] { CountInBelowRecent(ts[..|ts| - 1], a, b, cut); }
  }

  /** Wherever a window of this length is placed, it holds no more than the permitted number of admissions. */
  lemma {:induction false} NoWindowHoldsMore(history: seq<int>, windowMs: int, maxRequests: int, a: int)
    requires Fair(history, windowMs, maxRequests)
    ensures CountIn(history, a, a + windowMs) <= if maxRequests > 0 then maxRequests else 0
  {
    if history != [] {
      var front, t := history[..|history| - 1], history[|history| - 1];
      assert !Limited(front, t, windowMs, maxRequests);
      FairFront(history, windowMs, maxRequests);
      if a < t <= a + windowMs {
        CountInBelowRecent(front, a, a + windowMs, t - windowMs);
      } else {
        NoWindowHoldsMore(front, windowMs, maxRequests, a);
      }
    }
  }

  lemma FairFront(history: seq<int>, windowMs: int, maxRequests: int)
    requires Fair(history, windowMs, maxRequests) && history != []
    ensures Fair(history[..|history| - 1], windowMs, maxRequests)
  {
    var front := history[..|history| - 1];
    assert forall i :: 0 <= i < |front| ==> front[..i] == history[..i] && front[i] == history[i];
  }

  /** In every state of the limiter, for every client. */
  lemma AdmissionsAreBounded(l: RateLimiter, ip: string, a: int)
    requires l.Valid() && l.maxRequests >= 0
    ensures CountIn(Get(l.history, ip), a, a + l.windowMs) <= l.maxRequests
  {
    assert EntryOk(Get(l.entries, ip), Get(l.history, ip), l.clock, l.windowMs, l.maxRequests);
    NoWindowHoldsMore(Get(l.history, ip), l.windowMs, l.maxRequests, a);
  }

  // ---------------------------------------------------------------------------
  // The reported reset time
  // ---------------------------------------------------------------------------

  /** A time stamp of 0 counts as "none" in the source's truth test. */
  function ResetIn(history: seq<int>, now: int, windowMs: int): int {
    var recent := Recent(history, now - windowMs);
    if recent != [] && recent[0] != 0 then recent[0] + windowMs - now else windowMs
  }

  ghost predicate Sorted(ts: seq<int>) {
    forall i, j :: 0 <= i < j < |ts| ==> ts[i] <= ts[j]
  }

  lemma {:induction false} RecentSorted(ts: seq<int>, cut: int)
    requires Sorted(ts)
    ensures Sorted(Recent(ts, cut))
    ensures forall k :: 0 <= k < |Recent(ts, cut)| ==> Recent(ts, cut)[k] <= ts[|ts| - 1]
  {
    if ts != [] {
      var front, t := ts[..|ts| - 1], ts[|ts| - 1];
      RecentSorted(front, cut);
      assert front != [] ==> front[|front| - 1] <= t;
    }
  }

  lemma {:induction false} AllRecent(ts: seq<int>, cut: int)
    requires forall i :: 0 <= i < |ts| ==> ts[i] > cut
    ensures Recent(ts, cut) == ts
  {
    if ts != [] { AllRecent(ts[..|ts| - 1], cut); }
  }

  lemma {:induction false} FirstNotRecent(ts: seq<int>, cut: int)
    requires ts != [] && ts[0] <= cut
    ensures |Recent(ts, cut)| < |ts|
  {
    if |ts| > 1 { FirstNotRecent(ts[..|ts| - 1], cut); }
  }

  /** After `wait` more milliseconds, with no further request, the window holds fewer requests. */
  ghost predicate Freed(history: seq<int>, now: int, wait: nat, windowMs: int) {
    |Recent(history, now + wait - windowMs)| < |Recent(history, now - windowMs)|
  }

  lemma FreedWhenOldestLeaves(history: seq<int>, now: int, wait: nat, windowMs: int)
    requires Sorted(history) && Recent(history, now - windowMs) != []
    ensures Freed(history, now, wait, windowMs) <==> Recent(history, now - windowMs)[0] <= now + wait - windowMs
  {
    var recent, cut := Recent(history, now - windowMs), now + wait - windowMs;
    hide Recent;
    RecentTwice(history, now - windowMs, cut);
    RecentSorted(history, now - windowMs);
    if recent[0] <= cut {
      FirstNotRecent(recent, cut);
    } else {
      AllRecent(recent, cut);
    }
  }

  /** Waiting for the reported reset always frees a slot. No shorter wait does, except that an oldest
      request at time 0 is reported as a whole window away. */
  lemma ResetFreesASlot(history: seq<int>, now: int, windowMs: int)
    requires Sorted(history) && (history != [] ==> history[|history| - 1] <= now)
    requires Recent(history, now - windowMs) != []
    ensures forall wait: nat :: wait >= ResetIn(history, now, windowMs) ==> Freed(history, now, wait, windowMs)
    ensures (forall wait: nat :: wait < ResetIn(history, now, windowMs) ==> !Freed(history, now, wait, windowMs))
            <==> Recent(history, now - windowMs)[0] != 0 || now == 0
  {
    var recent := Recent(history, now - windowMs);
    RecentSorted(history, now - windowMs);
    hide Recent, Freed, Sorted;
    forall wait: nat ensures Freed(history, now, wait, windowMs) <==> recent[0] <= now + wait - windowMs {
      FreedWhenOldestLeaves(history, now, wait, windowMs);
    }
    if recent[0] == 0 && now > 0 {
      assert recent[0] > now - windowMs;
      assert Freed(history, now, windowMs - now, windowMs);
    }
  }

  /** The reset can be reported late: a request at time 0 leaves the window a millisecond before it. */
  lemma ResetCanBeLate()
    ensures ResetIn([0], 1, 60000) == 60000 && Freed([0], 1, 59999, 60000)
  {
    assert Recent([0], -59999) == [0];
    FreedWhenOldestLeaves([0], 1, 59999, 60000);
  }
}
