/** The relay object: each of its calls and arrivals moves a peer of the relay protocol on. */
module RelayObjects {
  import opened Options
  import opened Relays

  /** What one end does or meets. */
  datatype Event =
    | Initiated
    | Said(text: string, nonce: Nonce)
    | Received(message: Message)
    | Completed(pending: nat)
    | Closed

  function Do(c: Crypto, p: Peer, e: Event): Peer {
    match e
    case Initiated => if p.session.Some? then SendHandshake(c, p) else p
    case Said(text, nonce) => if SendMessage(c, p, text, nonce).Some? then SendMessage(c, p, text, nonce).value else p
    case Received(m) => Receive(c, p, m)
    case Completed(k) => if k < |p.pending| then Finish(c, p, k) else p
    case Closed => Close(p)
  }

  /** A peer after a history of its own. */
  function After(c: Crypto, p: Peer, history: seq<Event>): Peer
    decreases |history|
  {
    if history == [] then p else After(c, Do(c, p, history[0]), history[1..])
  }

  lemma {:induction false} AfterSnoc(c: Crypto, p: Peer, history: seq<Event>, e: Event)
    ensures After(c, p, history + [e]) == Do(c, After(c, p, history), e)
    decreases |history|
  {
    if history == [] {
      assert ([] + [e])[1..] == [];
    } else {
      assert (history + [e])[1..] == history[1..] + [e];
      hide Do;
      AfterSnoc(c, Do(c, p, history[0]), history[1..], e);
    }
  }

  /** The text that a message hands to the application, if it carries one that can be read. */
  function Readable(c: Crypto, s: Session, m: Message): seq<string> {
    if m.Data? && s.established && s.shared.Some? && c.decrypt(s.shared.value, m.nonce, m.payload).Some?
    then [c.decrypt(s.shared.value, m.nonce, m.payload).value] else []
  }

  /** The relay object. */
  class E2EERelay {
    const crypto: Crypto
    const secret: Key
    var session: Option<Session>
    var sent: seq<Message>
    var delivered: seq<string>
    var pending: seq<Pending>
    ghost var plain: seq<Option<string>>
    ghost var taken: seq<nat>
    ghost var initiated: nat
    ghost var due: nat
    ghost var responded: nat
    // The calls and arrivals so far.
    ghost var history: seq<Event>

    /** In every reachable state, the object is the peer that its history makes of a new one. */
    ghost predicate Valid()
      reads this
    {
      State() == After(crypto, NewPeer(secret), history)
    }

    ghost function State(): Peer
      reads this
    {
      Peer(session, sent, delivered, pending, plain, taken, initiated, due, responded)
    }

    constructor (crypto: Crypto, secret: Key)
      ensures this.crypto == crypto && this.secret == secret && history == []
      ensures Valid() && State() == NewPeer(secret)
    {
      this.crypto, this.secret, history := crypto, secret, [];
      session := Some(Session(secret, None, None, false, 0, -1));
      sent, delivered, pending := [], [], [];
      plain, taken, initiated, due, responded := [], [], 0, 0, 0;
    }

    method Send(m: Message, ghost text: Option<string>)
      requires session.Some?
      modifies `session, `sent, `plain
      ensures State() == Emit(old(State()), m, text)
    {
      session := Some(session.value.(sendSequence := session.value.sendSequence + 1));
      sent := sent + [m];
      plain := plain + [text];
    }

    method SendHandshakeMessage() returns (ok: bool)
      requires Valid()
      modifies this
      ensures Valid() && history == old(history) + [Initiated]
      ensures ok <==> old(session).Some?
      ensures !ok ==> State() == old(State())
      ensures ok ==> var s := old(session).value;
                && sent == old(sent) + [Handshake(crypto.publicKey(s.secret), s.sendSequence)]
                && session == Some(s.(sendSequence := s.sendSequence + 1))
                && delivered == old(delivered) && pending == old(pending)
      ensures State() == if ok then SendHandshake(crypto, old(State())) else old(State())
    {
      AfterSnoc(crypto, NewPeer(secret), history, Initiated);
      history := history + [Initiated];
      if session.None? {
        return false;
      }
      Send(Handshake(crypto.publicKey(session.value.secret), session.value.sendSequence), None);
      initiated := initiated + 1;
      ok := true;
    }

    method SendText(text: string, nonce: Nonce) returns (ok: bool)
      requires Valid()
      modifies this
      ensures Valid() && history == old(history) + [Said(text, nonce)]
      ensures ok <==> old(session).Some? && old(session).value.established && old(session).value.shared.Some?
      ensures !ok ==> State() == old(State())
      ensures ok ==> var s := old(session).value;
                && |sent| == |old(sent)| + 1 && sent[..|old(sent)|] == old(sent)
                && var m := sent[|old(sent)|];
                   && m.Data? && m.nonce == nonce && m.sequence == s.sendSequence
                   && (Sound(crypto) ==> crypto.decrypt(s.shared.value, m.nonce, m.payload) == Some(text))
      ensures ok ==> session == Some(old(session).value.(sendSequence := old(session).value.sendSequence + 1))
                     && delivered == old(delivered) && pending == old(pending)
      ensures SendMessage(crypto, old(State()), text, nonce).Some? <==> ok
      ensures State() == if ok then SendMessage(crypto, old(State()), text, nonce).value else old(State())
    {
      AfterSnoc(crypto, NewPeer(secret), history, Said(text, nonce));
      history := history + [Said(text, nonce)];
      if session.None? || !session.value.established || session.value.shared.None? {
        return false;
      }
      var ciphertext := crypto.encrypt(session.value.shared.value, nonce, text);
      Send(Data(ciphertext, nonce, session.value.sendSequence), Some(text));
      ok := true;
    }

    method HandleIncoming(m: Message)
      requires Valid()
      modifies this
      ensures Valid() && history == old(history) + [Received(m)]
      ensures old(session).None? || m.sequence <= old(session).value.receiveSequence ==> State() == old(State())
      ensures old(session).Some? && m.sequence > old(session).value.receiveSequence ==>
                var s := old(session).value.(receiveSequence := m.sequence);
                && sent == old(sent)
                && session == (match m case Handshake(key, _) => Some(s.(remote := Some(key)))
                                       case Data(_, _, _) => Some(s)
                                       case CloseNotice(_) => None)
                && pending == old(pending) + (if m.Handshake? then [Pending(m.key, !s.established)] else [])
                && delivered == old(delivered) + Readable(crypto, s, m)
      ensures State() == Receive(crypto, old(State()), m)
    {
      AfterSnoc(crypto, NewPeer(secret), history, Received(m));
      history := history + [Received(m)];
      if session.None? {
        return;
      }
      if m.sequence <= session.value.receiveSequence {
        return;
      }
      session := Some(session.value.(receiveSequence := m.sequence));
      match m
      case Handshake(key, _) =>
        var respond := !session.value.established;
        session := Some(session.value.(remote := Some(key)));
        pending := pending + [Pending(key, respond)];
        due := due + if respond then 1 else 0;
      case Data(payload, nonce, sequence) =>
        if !session.value.established || session.value.shared.None? {
          return;
        }
        var text := crypto.decrypt(session.value.shared.value, nonce, payload);
        if text.Some? {
          delivered := delivered + [text.value];
          taken := taken + [sequence];
        }
      case CloseNotice(_) =>
        session := None;
    }

    method FinishHandshake(k: nat)
      requires Valid() && k < |pending|
      modifies this
      ensures Valid() && history == old(history) + [Completed(k)]
      ensures pending == old(pending)[..k] + old(pending)[k + 1..] && delivered == old(delivered)
      ensures old(session).None? ==> session == None && sent == old(sent)
      ensures old(session).Some? ==>
                var h, s := old(pending)[k], old(session).value;
                && session.Some? && session.value.established && session.value.secret == s.secret
                && session.value.shared == Some(crypto.agree(s.secret, h.key))
                && session.value.receiveSequence == s.receiveSequence
                && session.value.sendSequence == s.sendSequence + (if h.respond then 1 else 0)
                && sent == old(sent) + (if h.respond
                                        then [Handshake(crypto.publicKey(s.secret), s.sendSequence)] else [])
      ensures State() == Finish(crypto, old(State()), k)
    {
      AfterSnoc(crypto, NewPeer(secret), history, Completed(k));
      history := history + [Completed(k)];
      var h := pending[k];
      pending := pending[..k] + pending[k + 1..];
      if session.None? {
        return;
      }
      session := Some(session.value.(shared := Some(crypto.agree(session.value.secret, h.key)), established := true));
      if h.respond {
        Send(Handshake(crypto.publicKey(session.value.secret), session.value.sendSequence), None);
        responded := responded + 1;
      }
    }

    method CloseSession()
      requires Valid()
      modifies this
      ensures Valid() && history == old(history) + [Closed]
      ensures session == None && delivered == old(delivered) && pending == old(pending)
      ensures sent == old(sent) + (if old(session).Some? then [CloseNotice(old(session).value.sendSequence)] else [])
      ensures State() == Close(old(State()))
    {
      AfterSnoc(crypto, NewPeer(secret), history, Closed);
      history := history + [Closed];
      if session.Some? {
        Send(CloseNotice(session.value.sendSequence), None);
      }
      session := None;
    }
  }

  // ---------------------------------------------------------------------------
  // A peer of a run is a relay object with its own part of the run as history
  // ---------------------------------------------------------------------------

  /** The first peer's own part of a run. */
  ghost function HistoryOf(c: Crypto, a: Peer, b: Peer, steps: seq<(bool, Step)>): seq<Event>
    decreases |steps|
  {
    if steps == [] then []
    else if steps[0].0 then
      if !Enabled(c, a, b, steps[0].1) then []
      else [EventOf(b, steps[0].1)] + HistoryOf(c, Move(c, a, b, steps[0].1), b, steps[1..])
    else if !Enabled(c, b, a, steps[0].1) then []
    else HistoryOf(c, a, Move(c, b, a, steps[0].1), steps[1..])
  }

  function EventOf(other: Peer, step: Step): Event {
    match step
    case Initiate => Initiated
    case Say(text, nonce) => Said(text, nonce)
    case Arrive(i) => if i < |other.sent| then Received(other.sent[i]) else Closed
    case Complete(k) => Completed(k)
    case Shut => Closed
  }

  /** The first peer of a run is what its own part of the run makes of it. */
  lemma {:induction false} RunIsItsHistory(c: Crypto, a: Peer, b: Peer, steps: seq<(bool, Step)>, a': Peer, b': Peer)
    requires IsRun(c, a, b, steps, a', b')
    ensures a' == After(c, a, HistoryOf(c, a, b, steps))
    decreases |steps|
  {
    if steps != [] {
      if steps[0].0 {
        var rest := HistoryOf(c, Move(c, a, b, steps[0].1), b, steps[1..]);
        assert ([EventOf(b, steps[0].1)] + rest)[1..] == rest;
        MoveIsDo(c, a, b, steps[0].1);
        hide Do, Move, EventOf;
        RunIsItsHistory(c, Move(c, a, b, steps[0].1), b, steps[1..], a', b');
      } else {
        hide Do, Move, EventOf;
        RunIsItsHistory(c, a, Move(c, b, a, steps[0].1), steps[1..], a', b');
      }
    }
  }

  /** Two relay objects whose calls and arrivals are those of the two sides of a run are its two peers. */
  lemma ObjectsArePeers(r: E2EERelay, q: E2EERelay, steps: seq<(bool, Step)>, a: Peer, b: Peer)
    requires r.Valid() && q.Valid() && r.crypto == q.crypto
    requires IsRun(r.crypto, NewPeer(r.secret), NewPeer(q.secret), steps, a, b)
    requires r.history == HistoryOf(r.crypto, NewPeer(r.secret), NewPeer(q.secret), steps)
    requires q.history == HistoryOf(r.crypto, NewPeer(q.secret), NewPeer(r.secret), Swapped(steps))
    ensures r.State() == a && q.State() == b
  {
    SwappedRun(r.crypto, NewPeer(r.secret), NewPeer(q.secret), steps, a, b);
    hide IsRun, After, HistoryOf;
    RunIsItsHistory(r.crypto, NewPeer(r.secret), NewPeer(q.secret), steps, a, b);
    RunIsItsHistory(r.crypto, NewPeer(q.secret), NewPeer(r.secret), Swapped(steps), b, a);
  }

  lemma MoveIsDo(c: Crypto, p: Peer, other: Peer, step: Step)
    requires Enabled(c, p, other, step)
    ensures Move(c, p, other, step) == Do(c, p, EventOf(other, step))
  {
  }
}
