/** Server-sent events: overlapping polls that deliver a session's log to its clients.

    A client object is shared by the manager's list and by every poll that grouped it, so the
    model keeps the objects in a table and lets lists and groups hold their ids. */
module SsePolling {
  import opened EventStore

  datatype Client = Client(projectId: string, sessionId: string, start: int, lastSeq: int, alive: bool,
                           received: seq<Event>)

  function GroupKey(projectId: string, sessionId: string): string {
    projectId + ":" + sessionId
  }

  function KeyOf(c: Client): string {
    GroupKey(c.projectId, c.sessionId)
  }

  /** A key with valid ids names one session: no other pair of ids, valid or not, yields it. */
  lemma GroupKeyNamesOneSession(p: string, s: string, q: string, t: string)
    requires IsValidPathId(p) && IsValidPathId(s) && GroupKey(p, s) == GroupKey(q, t)
    ensures p == q && s == t
  {
    var key := GroupKey(p, s);
    assert forall i :: 0 <= i < |p| ==> key[i] == p[i] && SafeChar(p[i]);
    assert forall i :: 0 <= i < |s| ==> key[|p| + 1 + i] == s[i] && SafeChar(s[i]);
    assert key == q + ":" + t;
    assert key[|q|] == ':';
    assert |q| <= |p| by {
      forall j | |p| < j < |key| ensures key[j] != ':' {
        assert key[j] == s[j - |p| - 1] && SafeChar(s[j - |p| - 1]);
      }
    }
    assert |q| == |p|;
    assert p == key[..|p|] == q;
    assert s == key[|p| + 1..] == t;
  }

  /** One write to one client: skipped when dead or already past the event; a failing write kills the client. */
  function Offer(c: Client, e: Event, fails: bool): Client {
    if !c.alive || e.sequence <= c.lastSeq then c
    else if fails then c.(alive := false)
    else c.(lastSeq := e.sequence, received := c.received + [e])
  }

  /** `broken` says which writes (client id, event sequence) throw. */
  function OfferAll(c: Client, id: nat, events: seq<Event>, broken: set<(nat, int)>): Client {
    if events == [] then c
    else
      var e := events[|events| - 1];
      Offer(OfferAll(c, id, events[..|events| - 1], broken), e, (id, e.sequence) in broken)
  }

  function DeliverTo(table: map<nat, Client>, group: seq<nat>, events: seq<Event>, broken: set<(nat, int)>)
    : map<nat, Client>
  {
    map id | id in table :: if id in group then OfferAll(table[id], id, events, broken) else table[id]
  }

  ghost predicate NoDup(ids: seq<nat>) {
    forall i, j :: 0 <= i < j < |ids| ==> ids[i] != ids[j]
  }

  /** The alive clients watching the session of this key, in the order of the list. */
  function Members(ids: seq<nat>, table: map<nat, Client>, key: string): seq<nat>
    requires forall id :: id in ids ==> id in table
  {
    if ids == [] then []
    else
      var last := ids[|ids| - 1];
      Members(ids[..|ids| - 1], table, key)
      + if table[last].alive && KeyOf(table[last]) == key then [last] else []
  }

  lemma {:induction false} MembersFacts(ids: seq<nat>, table: map<nat, Client>, key: string)
    requires NoDup(ids) && forall id :: id in ids ==> id in table
    ensures NoDup(Members(ids, table, key))
    ensures forall id :: id in Members(ids, table, key) <==> id in ids && table[id].alive && KeyOf(table[id]) == key
  {
    if ids != [] {
      var front, last := ids[..|ids| - 1], ids[|ids| - 1];
      assert ids == front + [last] && last !in front;
      MembersFacts(front, table, key);
    }
  }

  /** The groups of a poll: one per key that an alive client watches. */
  ghost predicate IsGrouping(grouped: map<string, seq<nat>>, clients: seq<nat>, table: map<nat, Client>)
    requires forall id :: id in clients ==> id in table
  {
    forall k :: if k in grouped then grouped[k] == Members(clients, table, k) != []
                else Members(clients, table, k) == []
  }

  function MinLast(group: seq<nat>, table: map<nat, Client>): (m: int)
    requires group != [] && forall id :: id in group ==> id in table
    ensures forall id :: id in group ==> m <= table[id].lastSeq
    ensures exists id :: id in group && m == table[id].lastSeq
  {
    var last := table[group[|group| - 1]].lastSeq;
    if |group| == 1 then last
    else
      var m := MinLast(group[..|group| - 1], table);
      if last < m then last else m
  }

  function AliveOnly(clients: seq<nat>, table: map<nat, Client>): seq<nat>
    requires forall id :: id in clients ==> id in table
  {
    if clients == [] then []
    else (if table[clients[0]].alive then [clients[0]] else []) + AliveOnly(clients[1..], table)
  }

  class SseManager {
    var clients: seq<nat>
    var table: map<nat, Client>
    var nextClientId: nat

    ghost predicate Valid()
      reads this
    {
      && NoDup(clients)
      && (forall id :: id in clients ==> id in table)
      && (forall id :: id in table ==> id < nextClientId)
    }

    constructor ()
      ensures Valid() && clients == [] && table == map[] && nextClientId == 1
    {
      clients, table, nextClientId := [], map[], 1;
    }

    method AddClient(projectId: string, sessionId: string, fromSeq: int) returns (id: nat)
      requires Valid()
      modifies this
      ensures Valid()
      ensures id == old(nextClientId) && nextClientId == id + 1 && clients == old(clients) + [id]
      ensures table == old(table)[id := Client(projectId, sessionId, fromSeq, fromSeq, true, [])]
    {
      id := nextClientId;
      nextClientId := nextClientId + 1;
      table := table[id := Client(projectId, sessionId, fromSeq, fromSeq, true, [])];
      NoDupSnoc(clients, id);
      clients := clients + [id];
    }

    method RemoveClient(id: nat)
      requires Valid() && id in table
      modifies this
      ensures Valid() && nextClientId == old(nextClientId)
      ensures table == old(table)[id := old(table)[id].(alive := false)]
      ensures clients == Without(old(clients), id)
    {
      hide NoDup, Without;
      WithoutFacts(clients, id);
      table := table[id := table[id].(alive := false)];
      var idx := FindIndex(id);
      if idx < |clients| {
        WithoutAt(clients, id, idx);
        clients := clients[..idx] + clients[idx + 1..];
      } else {
        assert clients[..|clients|] == clients;
      }
    }

    /** Where the client is listed; past the end if it is not. */
    method FindIndex(id: nat) returns (idx: nat)
      ensures idx <= |clients| && id !in clients[..idx]
      ensures idx < |clients| ==> clients[idx] == id
    {
      idx := 0;
      while idx < |clients| && clients[idx] != id
        invariant idx <= |clients| && id !in clients[..idx]
      {
        idx := idx + 1;
      }
    }

    /** The first loop of a poll. */
    method GroupClients() returns (grouped: map<string, seq<nat>>)
      requires Valid()
      ensures IsGrouping(grouped, clients, table)
    {
      grouped := map[];
      for n := 0 to |clients|
        invariant IsGrouping(grouped, clients[..n], table)
      {
        var id := clients[n];
        assert clients[..n + 1][..n] == clients[..n];
        if table[id].alive {
          var key := KeyOf(table[id]);
          if key !in grouped {
            grouped := grouped[key := []];
          }
          grouped := grouped[key := grouped[key] + [id]];
        }
      }
      assert clients[..|clients|] == clients;
    }

    method MinLastSeq(group: seq<nat>) returns (minSeq: int)
      requires group != [] && forall id :: id in group ==> id in table
      ensures minSeq == MinLast(group, table)
    {
      minSeq := table[group[0]].lastSeq;
      for n := 1 to |group|
        invariant minSeq == MinLast(group[..n], table)
      {
        assert group[..n + 1][..n] == group[..n];
        if table[group[n]].lastSeq < minSeq {
          minSeq := table[group[n]].lastSeq;
        }
      }
      assert group[..|group|] == group;
    }

    /** The delivery loops: every event, in order, to every client of the group. */
    method DeliverEvents(group: seq<nat>, events: seq<Event>, broken: set<(nat, int)>)
      requires NoDup(group) && forall id :: id in group ==> id in table
      modifies `table
      ensures table == DeliverTo(old(table), group, events, broken)
    {
      for n := 0 to |events|
        invariant table == DeliverTo(old(table), group, events[..n], broken)
      {
        assert events[..n + 1][..n] == events[..n];
        for m := 0 to |group|
          invariant table == DeliverTo(DeliverTo(old(table), group, events[..n], broken), group[..m], [events[n]],
                                       broken)
        {
          var id := group[m];
          assert group[..m + 1] == group[..m] + [id] && id !in group[..m];
          OfferOne(table[id], id, events[n], broken);
          table := table[id := Offer(table[id], events[n], (id, events[n].sequence) in broken)];
        }
        assert group[..|group|] == group;
        forall c, id { OfferOne(OfferAll(c, id, events[..n], broken), id, events[n], broken); }
      }
      assert events[..|events|] == events;
    }

    /** The sweep at the end of a poll, from the back so that removal does not disturb it. */
    method SweepDead()
      requires Valid()
      modifies `clients
      ensures Valid() && clients == AliveOnly(old(clients), table)
    {
      var i := |clients| - 1;
      while i >= 0
        invariant -1 <= i < |clients|
        invariant |old(clients)| >= i + 1 && clients[..i + 1] == old(clients)[..i + 1]
        invariant clients[i + 1..] == AliveOnly(old(clients)[i + 1..], table)
      {
        assert old(clients)[i..][1..] == old(clients)[i + 1..];
        if !table[clients[i]].alive {
          clients := clients[..i] + clients[i + 1..];
        }
        i := i - 1;
      }
      AliveOnlyFacts(old(clients), table);
    }
  }

  function Without(ids: seq<nat>, id: nat): seq<nat> {
    if ids == [] then [] else (if ids[0] == id then [] else [ids[0]]) + Without(ids[1..], id)
  }

  lemma NoDupSnoc(ids: seq<nat>, id: nat)
    requires NoDup(ids) && id !in ids
    ensures NoDup(ids + [id])
  {
  }

  lemma {:induction false} WithoutFacts(ids: seq<nat>, id: nat)
    requires NoDup(ids)
    ensures NoDup(Without(ids, id)) && forall x :: x in Without(ids, id) <==> x in ids && x != id
    ensures id !in ids ==> Without(ids, id) == ids
  {
    if ids != [] {
      WithoutFacts(ids[1..], id);
      assert ids[0] !in ids[1..];
    }
  }

  lemma {:induction false} WithoutAt(ids: seq<nat>, id: nat, idx: nat)
    requires NoDup(ids) && idx < |ids| && ids[idx] == id
    ensures Without(ids, id) == ids[..idx] + ids[idx + 1..]
  {
    if idx == 0 {
      WithoutFacts(ids[1..], id);
    } else {
      WithoutAt(ids[1..], id, idx - 1);
      assert ids[..idx] == [ids[0]] + ids[1..][..idx - 1];
    }
  }

  lemma {:induction false} AliveOnlyFacts(ids: seq<nat>, table: map<nat, Client>)
    requires NoDup(ids) && forall id :: id in ids ==> id in table
    ensures NoDup(AliveOnly(ids, table))
    ensures forall id :: id in AliveOnly(ids, table) <==> id in ids && table[id].alive
  {
    if ids != [] {
      AliveOnlyFacts(ids[1..], table);
      assert ids[0] !in ids[1..];
    }
  }

  lemma OfferOne(c: Client, id: nat, e: Event, broken: set<(nat, int)>)
    ensures OfferAll(c, id, [e], broken) == Offer(c, e, (id, e.sequence) in broken)
  {
    assert [e][..0] == [];
    assert OfferAll(c, id, [], broken) == c;
  }
}
