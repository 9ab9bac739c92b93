/** A session taken over under a daemon PTY: output replay and broadcast, and the single-writer lock. */
module Takeover {
  import opened Numbers
  import opened Options
  import opened RingBuffers

  /** The lock-relevant calls on one session, in the order they happen. */
  datatype Op =
    | Claim(client: nat)
    | Release(client: nat)
    | Remove(client: nat)
    | Input(client: nat, data: seq<byte>)

  /** Who holds the writer lock after `ops`. */
  function Writer(ops: seq<Op>): Option<nat> {
    if ops == [] then None
    else
      var w := Writer(ops[..|ops| - 1]);
      match ops[|ops| - 1]
      case Claim(c) => if w.Some? then w else Some(c)
      case Release(c) => if w == Some(c) then None else w
      case Remove(c) => if w == Some(c) then None else w
      case Input(_, _) => w
  }

  ghost predicate Accepted(ops: seq<Op>, i: nat)
    requires i < |ops|
  {
    ops[i].Input? && Writer(ops[..i]) == Some(ops[i].client)
  }

  ghost predicate GivesUp(op: Op, c: nat) {
    op == Release(c) || op == Remove(c)
  }

  /** While nobody else got the lock, its holder has not given it up. */
  lemma {:induction false} HolderUntilGivenUp(ops: seq<Op>, i: nat, j: nat, c: nat) returns (k: nat)
    requires i <= j <= |ops|
    requires Writer(ops[..i]) == Some(c) && Writer(ops[..j]) != Some(c)
    ensures i <= k < j && GivesUp(ops[k], c) && Writer(ops[..k]) == Some(c)
    decreases j
  {
    assert ops[..j][..j - 1] == ops[..j - 1];
    if Writer(ops[..j - 1]) == Some(c) {
      k := j - 1;
    } else {
      k := HolderUntilGivenUp(ops, i, j - 1, c);
    }
  }

  lemma {:induction false} HolderHasClaimed(ops: seq<Op>, i: nat, j: nat, c: nat) returns (k: nat)
    requires i <= j <= |ops|
    requires Writer(ops[..i]) != Some(c) && Writer(ops[..j]) == Some(c)
    ensures i <= k < j && ops[k] == Claim(c) && Writer(ops[..k]) == None
    decreases j
  {
    assert ops[..j][..j - 1] == ops[..j - 1];
    if Writer(ops[..j - 1]) != Some(c) {
      k := j - 1;
    } else {
      k := HolderHasClaimed(ops, i, j - 1, c);
    }
  }

  /** A client holds the lock exactly when it claimed it while it was free and has not given it up since. */
  lemma {:induction false} HoldsExactly(ops: seq<Op>, c: nat)
    ensures Writer(ops) == Some(c) <==> exists i :: TookLock(ops, c, i)
  {
    if ops != [] {
      var front, n := ops[..|ops| - 1], |ops| - 1;
      HoldsExactly(front, c);
      forall i | 0 <= i < n ensures TookLock(ops, c, i) <==> TookLock(front, c, i) && !GivesUp(ops[n], c) {
        assert ops[..i] == front[..i] && ops[i] == front[i];
        assert forall j :: i < j < n ==> ops[j] == front[j];
      }
      assert TookLock(ops, c, n) <==> ops[n] == Claim(c) && Writer(front) == None;
      hide Writer;
      HoldsStep(ops, c);
      if i :| TookLock(front, c, i) { assert !GivesUp(ops[n], c) ==> TookLock(ops, c, i); }
      if i :| TookLock(ops, c, i) { assert i == n || TookLock(front, c, i); }
    }
  }

  ghost predicate TookLock(ops: seq<Op>, c: nat, i: int) {
    && 0 <= i < |ops| && ops[i] == Claim(c) && Writer(ops[..i]) == None
    && forall j :: i < j < |ops| ==> !GivesUp(ops[j], c)
  }

  lemma HoldsStep(ops: seq<Op>, c: nat)
    requires ops != []
    ensures var front, op := ops[..|ops| - 1], ops[|ops| - 1];
              Writer(ops) == Some(c)
              <==> (Writer(front) == Some(c) && !GivesUp(op, c)) || (Writer(front) == None && op == Claim(c))
  {
  }

  /** Inputs from two clients are separated by the first giving up the lock and the second then claiming it. */
  lemma SingleWriter(ops: seq<Op>, i: nat, j: nat) returns (k: nat, m: nat)
    requires i < j < |ops| && Accepted(ops, i) && Accepted(ops, j)
    requires ops[i].client != ops[j].client
    ensures i < k < m < j && GivesUp(ops[k], ops[i].client) && ops[m] == Claim(ops[j].client)
  {
    k := HolderUntilGivenUp(ops, i, j, ops[i].client);
    assert ops[..k + 1][..k] == ops[..k];
    m := HolderHasClaimed(ops, k + 1, j, ops[j].client);
  }

  /** Replay followed by everything sent since is a suffix of the whole output, and all of it when
      no more than the capacity had been written at join time. */
  lemma ReplayThenLive(output: seq<byte>, joined: nat, capacity: nat)
    requires joined <= |output|
    ensures var seen := Last(output[..joined], capacity) + output[joined..];
            && seen <= output[|output| - |seen|..] && |seen| == |output| - joined + |Last(output[..joined], capacity)|
            && (joined <= capacity ==> seen == output)
  {
    var replay := Last(output[..joined], capacity);
    assert replay == output[joined - |replay|..joined];
    assert output == output[..joined - |replay|] + (replay + output[joined..]);
  }

  /** What a client that joined at `joined` has been given: the output since, and at an exit the notice. */
  function Received(output: seq<byte>, joined: nat, exit: Option<(nat, seq<byte>)>): seq<byte>
    requires joined <= |output| && (exit.Some? ==> joined <= exit.value.0 <= |output|)
  {
    if exit.None? then output[joined..]
    else output[joined..exit.value.0] + exit.value.1 + output[exit.value.0..]
  }

  function AsBytes(text: string): seq<byte> {
    seq(|text|, i requires 0 <= i < |text| => (text[i] as int % 256) as byte)
  }

  function ExitNotice(exitCode: int): seq<byte> {
    AsBytes("\r\n[session exit: code " + Decimal(exitCode) + "]\r\n")
  }

  lemma ReceivedMore(output: seq<byte>, joined: nat, exit: Option<(nat, seq<byte>)>, data: seq<byte>)
    requires joined <= |output| && (exit.Some? ==> joined <= exit.value.0 <= |output|)
    ensures Received(output + data, joined, exit) == Received(output, joined, exit) + data
  {
    var after := output + data;
    assert after[joined..] == output[joined..] + data;
    if exit.Some? {
      assert after[exit.value.0..] == output[exit.value.0..] + data;
      assert after[joined..exit.value.0] == output[joined..exit.value.0];
    }
  }

  class TakenOverSession {
    const buffer: RingBuffer
    /** The bytes handed to each connected client's callback so far. */
    var clients: map<nat, seq<byte>>
    var writerId: Option<nat>
    var nextClientId: nat
    /** False once the PTY has exited and the session entry is deleted. */
    var open: bool
    /** Input that reached the PTY. */
    var ptyInput: seq<byte>

    ghost var output: seq<byte>
    ghost var ops: seq<Op>
    /** How much output had been produced when each client joined. */
    ghost var joinedAt: map<nat, nat>
    /** How much when the PTY exited, and the notice that its clients got then. */
    ghost var exit: Option<(nat, seq<byte>)>

    ghost predicate Valid()
      reads this, buffer, buffer.buffer
    {
      && buffer.Valid() && buffer.written == output
      && LockValid() && ClientsValid()
    }

    ghost predicate LockValid()
      reads `writerId, `ops, `ptyInput
    {
      writerId == Writer(ops) && ptyInput == Inputs(ops)
    }

    ghost predicate ClientsValid()
      reads `clients, `joinedAt, `nextClientId, `output, `open, `exit
    {
      && joinedAt.Keys == clients.Keys
      && (forall c :: c in clients ==> c < nextClientId)
      && (open <==> exit.None?) && (exit.Some? ==> exit.value.0 <= |output|)
      && (forall c :: c in clients ==> joinedAt[c] <= |output| && (exit.Some? ==> joinedAt[c] <= exit.value.0))
      && (forall c :: c in clients ==> clients[c] == Received(output, joinedAt[c], exit))
    }

    constructor (capacity: nat)
      requires capacity > 0
      ensures Valid() && fresh(buffer) && fresh(buffer.buffer) && buffer.capacity == capacity
      ensures open && exit == None && clients == map[] && ops == [] && output == []
    {
      buffer := new RingBuffer(capacity);
      clients, writerId, nextClientId, open, ptyInput := map[], None, 0, true, [];
      output, ops, joinedAt, exit := [], [], map[], None;
    }

    /** One chunk of PTY output: stored, then broadcast to every connected client. */
    method OnData(data: seq<byte>)
      requires Valid()
      modifies this, buffer, buffer.buffer
      ensures Valid()
      ensures output == old(output) + data && ops == old(ops) && open == old(open) && exit == old(exit)
      ensures clients.Keys == old(clients).Keys && joinedAt == old(joinedAt)
      ensures forall c :: c in clients ==> clients[c] == old(clients)[c] + data
      ensures writerId == old(writerId) && nextClientId == old(nextClientId) && ptyInput == old(ptyInput)
    {
      hide Received, Writer, Inputs;
      buffer.Write(data);
      output := output + data;
      Broadcast(data);
      forall c | c in clients ensures clients[c] == Received(output, joinedAt[c], exit) {
        ReceivedMore(old(output), joinedAt[c], exit, data);
      }
    }

    method Broadcast(data: seq<byte>)
      modifies `clients
      ensures clients.Keys == old(clients).Keys
      ensures forall c :: c in clients ==> clients[c] == old(clients)[c] + data
    {
      var todo := clients.Keys;
      while todo != {}
        invariant clients.Keys == old(clients).Keys && todo <= clients.Keys
        invariant forall c :: c in clients ==>
                    clients[c] == if c in todo then old(clients)[c] else old(clients)[c] + data
      {
        var c :| c in todo;
        clients := clients[c := clients[c] + data];
        todo := todo - {c};
      }
    }

    /** Once, when the PTY exits: every client gets the notice, and the session entry is deleted, so that later calls
        find no session. */
    method OnExit(exitCode: int)
      requires Valid() && open
      modifies `clients, `open, `exit
      ensures Valid() && !open && exit == Some((|output|, ExitNotice(exitCode)))
      ensures clients.Keys == old(clients).Keys
      ensures forall c :: c in clients ==> clients[c] == old(clients)[c] + ExitNotice(exitCode)
    {
      hide Writer, Inputs, ExitNotice;
      Broadcast(ExitNotice(exitCode));
      open := false;
      exit := Some((|output|, ExitNotice(exitCode)));
      forall c | c in clients ensures clients[c] == Received(output, joinedAt[c], exit) {
        assert output[|output|..] == [];
      }
    }

    /** No session is an error; otherwise the new client sees all output from here on. */
    method AddClient() returns (r: Option<nat>)
      requires Valid()
      modifies `clients, `nextClientId, `joinedAt
      ensures Valid()
      ensures r.Some? <==> open
      ensures r.Some? ==> r.value !in old(clients) && clients == old(clients)[r.value := []]
                          && joinedAt == old(joinedAt)[r.value := |output|] && nextClientId == r.value + 1
      ensures r.None? ==> clients == old(clients) && joinedAt == old(joinedAt) && nextClientId == old(nextClientId)
    {
      if !open {
        return None;
      }
      var clientId := nextClientId;
      nextClientId := nextClientId + 1;
      clients := clients[clientId := []];
      joinedAt := joinedAt[clientId := |output|];
      r := Some(clientId);
    }

    /** Reading the buffer and joining in one step, as a reconnecting client does. */
    method Attach() returns (r: Option<nat>, replay: seq<byte>)
      requires Valid()
      modifies `clients, `nextClientId, `joinedAt
      ensures Valid()
      ensures r.Some? <==> open
      ensures r.Some? ==> r.value in clients && joinedAt[r.value] == |output| && clients[r.value] == []
      ensures r.Some? ==> replay == Last(output, buffer.capacity)
    {
      if !open {
        return None, [];
      }
      replay := buffer.GetContents(0);
      r := AddClient();
    }

    method GiveUp(op: Op)
      requires LockValid() && (op.Release? || op.Remove?)
      modifies `writerId, `ops
      ensures LockValid() && ops == old(ops) + [op]
      ensures writerId == if old(writerId) == Some(op.client) then None else old(writerId)
    {
      if writerId == Some(op.client) {
        writerId := None;
      }
      Record(op);
    }

    method Forget(c: nat)
      requires ClientsValid()
      modifies `clients, `joinedAt
      ensures ClientsValid()
      ensures clients == old(clients) - {c}
    {
      clients := clients - {c};
      joinedAt := joinedAt - {c};
      assert joinedAt.Keys == old(joinedAt).Keys - {c} == clients.Keys;
    }

    method RemoveClient(c: nat)
      requires Valid()
      modifies `clients, `joinedAt, `writerId, `ops
      ensures Valid()
      ensures clients == if open then old(clients) - {c} else old(clients)
      ensures ops == if open then old(ops) + [Remove(c)] else old(ops)
      ensures writerId == if open && old(writerId) == Some(c) then None else old(writerId)
    {
      hide Received, Writer, Inputs;
      if !open {
        return;
      }
      GiveUp(Remove(c));
      Forget(c);
    }

    method ClaimWriter(c: nat) returns (granted: bool)
      requires Valid()
      modifies `writerId, `ops
      ensures Valid()
      ensures granted <==> open && (old(writerId) == None || old(writerId) == Some(c))
      ensures writerId == if granted then Some(c) else old(writerId)
      ensures ops == if open then old(ops) + [Claim(c)] else old(ops)
    {
      if !open {
        return false;
      }
      granted := !(writerId != None && writerId != Some(c));
      if granted {
        writerId := Some(c);
      }
      Record(Claim(c));
    }

    method ReleaseWriter(c: nat)
      requires Valid()
      modifies `writerId, `ops
      ensures Valid()
      ensures ops == if open then old(ops) + [Release(c)] else old(ops)
      ensures writerId == if open && old(writerId) == Some(c) then None else old(writerId)
    {
      if !open {
        return;
      }
      GiveUp(Release(c));
    }

    /** Reaches the PTY exactly when the client holds the lock. */
    method SendInput(c: nat, data: seq<byte>) returns (sent: bool)
      requires Valid()
      modifies `ptyInput, `ops
      ensures Valid()
      ensures ops == if open then old(ops) + [Input(c, data)] else old(ops)
      ensures sent <==> open && writerId == Some(c)
      ensures sent <==> open && Accepted(ops, |old(ops)|)
      ensures ptyInput == if sent then old(ptyInput) + data else old(ptyInput)
    {
      InputSnoc(ops, c, data);
      hide Writer, Inputs, Accepted, ClientsValid;
      if !open {
        return false;
      }
      sent := writerId == Some(c);
      if sent {
        ptyInput := ptyInput + data;
      }
      ops := ops + [Input(c, data)];
    }

    ghost method Record(op: Op)
      modifies `ops
      ensures ops == old(ops) + [op] && ops[..|ops| - 1] == old(ops)
    {
      ops := ops + [op];
    }
  }

  /** What the PTY receives: the data of the accepted inputs, in order. */
  function Inputs(ops: seq<Op>): seq<byte> {
    if ops == [] then []
    else
      var front, op := ops[..|ops| - 1], ops[|ops| - 1];
      Inputs(front) + if op.Input? && Writer(front) == Some(op.client) then op.data else []
  }

  lemma InputSnoc(ops: seq<Op>, c: nat, data: seq<byte>)
    ensures var more := ops + [Input(c, data)];
              && Writer(more) == Writer(ops) && (Accepted(more, |ops|) <==> Writer(ops) == Some(c))
              && Inputs(more) == if Writer(ops) == Some(c) then Inputs(ops) + data else Inputs(ops)
  {
    assert (ops + [Input(c, data)])[..|ops|] == ops;
    assert Inputs(ops) + [] == Inputs(ops);
  }

  /** A client's whole view, at any later moment: replay and the output since are a suffix of all output, and all that
      the client has been given beside it is the notice of an exit. */
  lemma AttachedClientSeesASuffix(s: TakenOverSession, c: nat, replay: seq<byte>)
    requires s.Valid() && c in s.clients
    requires replay == Last(s.output[..s.joinedAt[c]], s.buffer.capacity)
    ensures var seen := replay + s.output[s.joinedAt[c]..];
            && |seen| <= |s.output| && seen == s.output[|s.output| - |seen|..]
            && (s.joinedAt[c] <= s.buffer.capacity ==> seen == s.output)
            && (s.open ==> replay + s.clients[c] == seen)
    ensures s.clients[c] == Received(s.output, s.joinedAt[c], s.exit)
  {
    ReplayThenLive(s.output, s.joinedAt[c], s.buffer.capacity);
  }
}
