/** The end-to-end encrypted relay: two peers over a network that drops, duplicates and reorders.

    The primitives are functions about which only two laws are assumed: both ends derive the same
    secret (section 6.1 of RFC 7748), and decryption inverts encryption under the same secret. Key
    derivation is part of encryption and decryption. */
module Relays {
  import opened Options
  import opened Seqs

  type Key = nat
  type PublicKey = nat
  type Shared = nat
  type Nonce = nat
  type Cipher = seq<nat>

  datatype Crypto = Crypto(
    publicKey: Key -> PublicKey,
    agree: (Key, PublicKey) -> Shared,
    encrypt: (Shared, Nonce, string) -> Cipher,
    decrypt: (Shared, Nonce, Cipher) -> Option<string>)

  ghost predicate Sound(c: Crypto) {
    && (forall a: Key, b: Key :: c.agree(a, c.publicKey(b)) == c.agree(b, c.publicKey(a)))
    && (forall s: Shared, n: Nonce, text :: c.decrypt(s, n, c.encrypt(s, n, text)) == Some(text))
  }

  datatype Message =
    | Handshake(key: PublicKey, sequence: nat)
    | Data(payload: Cipher, nonce: Nonce, sequence: nat)
    | CloseNotice(sequence: nat)

  datatype Session = Session(secret: Key, remote: Option<PublicKey>, shared: Option<Shared>, established: bool,
                             sendSequence: nat, receiveSequence: int)

  /** A handshake whose shared secret is still being computed. */
  datatype Pending = Pending(key: PublicKey, respond: bool)

  /** One end: its session until closed, what it has put on the wire and handed to the application,
      and the handshakes it is awaiting. `plain` and `taken` record, for each message sent,
      its plaintext and, for each text delivered, the number of the message it came in. `initiated`,
      `due` and `responded` count the calls of sendHandshake and the responses owed and sent. */
  datatype Peer = Peer(session: Option<Session>, sent: seq<Message>, delivered: seq<string>, pending: seq<Pending>,
                       plain: seq<Option<string>>, taken: seq<nat>, initiated: nat, due: nat, responded: nat)

  function NewPeer(secret: Key): Peer {
    Peer(Some(Session(secret, None, None, false, 0, -1)), [], [], [], [], [], 0, 0, 0)
  }

  function Emit(p: Peer, m: Message, text: Option<string>): Peer
    requires p.session.Some?
  {
    p.(session := Some(p.session.value.(sendSequence := p.session.value.sendSequence + 1)),
       sent := p.sent + [m], plain := p.plain + [text])
  }

  function SendHandshake(c: Crypto, p: Peer): Peer
    requires p.session.Some?
  {
    var s := p.session.value;
    Emit(p, Handshake(c.publicKey(s.secret), s.sendSequence), None).(initiated := p.initiated + 1)
  }

  /** An error unless the session is established. */
  function SendMessage(c: Crypto, p: Peer, text: string, nonce: Nonce): Option<Peer> {
    if p.session.None? || !p.session.value.established || p.session.value.shared.None? then None
    else
      var s := p.session.value;
      Some(Emit(p, Data(c.encrypt(s.shared.value, nonce, text), nonce, s.sendSequence), Some(text)))
  }

  /** The part of receiving a message that runs before anything is awaited. */
  function Receive(c: Crypto, p: Peer, m: Message): Peer {
    if p.session.None? || m.sequence <= p.session.value.receiveSequence then p
    else
      var s := p.session.value.(receiveSequence := m.sequence);
      match m
      case Handshake(key, _) =>
        p.(session := Some(s.(remote := Some(key))), pending := p.pending + [Pending(key, !s.established)],
           due := p.due + if s.established then 0 else 1)
      case Data(payload, nonce, sequence) =>
        if !s.established || s.shared.None? then p.(session := Some(s))
        else
          var text := c.decrypt(s.shared.value, nonce, payload);
          if text.None? then p.(session := Some(s))
          else p.(session := Some(s), delivered := p.delivered + [text.value], taken := p.taken + [sequence])
      case CloseNotice(_) => p.(session := None)
  }

  /** A pending handshake completes: the secret is set and the response sent, if one is due. */
  function Finish(c: Crypto, p: Peer, k: nat): Peer
    requires k < |p.pending|
  {
    var h := p.pending[k];
    var q := p.(pending := p.pending[..k] + p.pending[k + 1..]);
    if p.session.None? then q
    else
      var s := p.session.value.(shared := Some(c.agree(p.session.value.secret, h.key)), established := true);
      if h.respond then
        var answer := Handshake(c.publicKey(s.secret), s.sendSequence);
        Emit(q.(session := Some(s)), answer, None).(responded := p.responded + 1)
      else q.(session := Some(s))
  }

  function Close(p: Peer): Peer {
    if p.session.None? then p
    else Emit(p, CloseNotice(p.session.value.sendSequence), None).(session := None)
  }

  // ---------------------------------------------------------------------------
  // Two peers and the network between them
  // ---------------------------------------------------------------------------

  /** The network may hand over any message ever sent, at any time and any number of times. */
  datatype Step =
    | Initiate
    | Say(text: string, nonce: Nonce)
    | Arrive(index: nat)
    | Complete(pending: nat)
    | Shut

  ghost predicate Enabled(c: Crypto, p: Peer, other: Peer, step: Step) {
    match step
    case Initiate => p.session.Some?
    case Say(text, nonce) => SendMessage(c, p, text, nonce).Some?
    case Arrive(i) => i < |other.sent|
    case Complete(k) => k < |p.pending|
    case Shut => true
  }

  function Move(c: Crypto, p: Peer, other: Peer, step: Step): Peer
    requires Enabled(c, p, other, step)
  {
    match step
    case Initiate => SendHandshake(c, p)
    case Say(text, nonce) => SendMessage(c, p, text, nonce).value
    case Arrive(i) => Receive(c, p, other.sent[i])
    case Complete(k) => Finish(c, p, k)
    case Shut => Close(p)
  }

  /** A run: each step is taken by the first peer (true) or by the second. */
  ghost predicate IsRun(c: Crypto, a: Peer, b: Peer, steps: seq<(bool, Step)>, a': Peer, b': Peer)
    decreases |steps|
  {
    if steps == [] then a == a' && b == b'
    else if steps[0].0 then
      Enabled(c, a, b, steps[0].1) && IsRun(c, Move(c, a, b, steps[0].1), b, steps[1..], a', b')
    else
      Enabled(c, b, a, steps[0].1) && IsRun(c, a, Move(c, b, a, steps[0].1), steps[1..], a', b')
  }

  // ---------------------------------------------------------------------------
  // What is delivered was sent, in order, once
  // ---------------------------------------------------------------------------

  /** What one peer with secret `x` has put on the wire towards a peer with secret `y`. */
  ghost predicate WireOk(c: Crypto, p: Peer, x: Key, y: Key) {
    && |p.plain| == |p.sent|
    && (p.session.Some? ==> p.session.value.sendSequence == |p.sent|)
    && forall i :: 0 <= i < |p.sent| ==> SentOk(c, p.sent[i], p.plain[i], i, x, y)
  }

  ghost predicate SentOk(c: Crypto, m: Message, text: Option<string>, i: nat, x: Key, y: Key) {
    && m.sequence == i
    && (m.Handshake? ==> m.key == c.publicKey(x))
    && (m.Data? ==> text.Some? && m.payload == c.encrypt(c.agree(x, c.publicKey(y)), m.nonce, text.value))
  }

  ghost predicate SessionOk(c: Crypto, p: Peer, x: Key, y: Key) {
    && (forall k :: 0 <= k < |p.pending| ==> p.pending[k].key == c.publicKey(y))
    && (p.session.Some? ==>
          var s := p.session.value;
          && s.secret == x
          && (s.remote.Some? ==> s.remote.value == c.publicKey(y))
          && (s.shared.Some? ==> s.shared.value == c.agree(x, c.publicKey(y))))
  }

  ghost predicate Increasing(ns: seq<nat>) {
    forall i, j :: 0 <= i < j < |ns| ==> ns[i] < ns[j]
  }

  /** `texts` are the plaintexts of the messages numbered `ns`. */
  ghost predicate PlaintextsOf(texts: seq<string>, ns: seq<nat>, plain: seq<Option<string>>) {
    && |texts| == |ns|
    && forall k :: 0 <= k < |ns| ==> ns[k] < |plain| && plain[ns[k]] == Some(texts[k])
  }

  ghost predicate DeliveredOk(p: Peer, other: Peer) {
    && Increasing(p.taken) && PlaintextsOf(p.delivered, p.taken, other.plain)
    && (p.session.Some? && p.taken != [] ==> p.taken[|p.taken| - 1] <= p.session.value.receiveSequence)
  }

  ghost predicate Inv(c: Crypto, p: Peer, other: Peer, x: Key, y: Key) {
    WireOk(c, p, x, y) && SessionOk(c, p, x, y) && DeliveredOk(p, other)
  }

  lemma EmitKeepsWire(c: Crypto, p: Peer, m: Message, text: Option<string>, x: Key, y: Key)
    requires WireOk(c, p, x, y) && p.session.Some? && SentOk(c, m, text, |p.sent|, x, y)
    ensures WireOk(c, Emit(p, m, text), x, y)
  {
  }

  /** Messages sent by the other peer leave what this one was given untouched. */
  lemma OtherSendsMore(p: Peer, other: Peer, other': Peer)
    requires DeliveredOk(p, other) && other.plain <= other'.plain
    ensures DeliveredOk(p, other')
  {
  }

  lemma TakeOne(p: Peer, other: Peer, text: string, n: nat)
    requires DeliveredOk(p, other) && p.session.Some? && n < |other.plain| && other.plain[n] == Some(text)
    requires n > p.session.value.receiveSequence
    ensures Increasing(p.taken + [n]) && PlaintextsOf(p.delivered + [text], p.taken + [n], other.plain)
  {
  }

  lemma ReceiveKeepsInv(c: Crypto, p: Peer, other: Peer, i: nat, x: Key, y: Key)
    requires Sound(c) && Inv(c, p, other, x, y) && WireOk(c, other, y, x) && i < |other.sent|
    ensures Inv(c, Receive(c, p, other.sent[i]), other, x, y)
  {
    var m := other.sent[i];
    assert SentOk(c, m, other.plain[i], i, y, x);
    if p.session.Some? && m.sequence > p.session.value.receiveSequence && m.Data? && p.session.value.established
       && p.session.value.shared.Some? {
      assert c.agree(x, c.publicKey(y)) == c.agree(y, c.publicKey(x));
      assert c.decrypt(p.session.value.shared.value, m.nonce, m.payload) == other.plain[i];
      TakeOne(p, other, other.plain[i].value, i);
    }
  }

  lemma FinishKeepsInv(c: Crypto, p: Peer, other: Peer, k: nat, x: Key, y: Key)
    requires Inv(c, p, other, x, y) && k < |p.pending|
    ensures Inv(c, Finish(c, p, k), other, x, y)
  {
    if p.session.Some? && p.pending[k].respond {
      var q := p.(pending := p.pending[..k] + p.pending[k + 1..],
                  session := Some(p.session.value.(shared := Some(c.agree(x, p.pending[k].key)), established := true)));
      EmitKeepsWire(c, q, Handshake(c.publicKey(x), |p.sent|), None, x, y);
    }
  }

  lemma MoveKeepsInv(c: Crypto, p: Peer, other: Peer, step: Step, x: Key, y: Key)
    requires Sound(c) && Inv(c, p, other, x, y) && Inv(c, other, p, y, x) && Enabled(c, p, other, step)
    ensures Inv(c, Move(c, p, other, step), other, x, y) && Inv(c, other, Move(c, p, other, step), y, x)
  {
    match step
    case Initiate => EmitKeepsWire(c, p, Handshake(c.publicKey(x), |p.sent|), None, x, y);
    case Say(text, nonce) =>
      var payload := c.encrypt(p.session.value.shared.value, nonce, text);
      EmitKeepsWire(c, p, Data(payload, nonce, |p.sent|), Some(text), x, y);
    case Arrive(i) => ReceiveKeepsInv(c, p, other, i, x, y);
    case Complete(k) => FinishKeepsInv(c, p, other, k, x, y);
    case Shut => if p.session.Some? { EmitKeepsWire(c, p, CloseNotice(|p.sent|), None, x, y); }
    OtherSendsMore(other, p, Move(c, p, other, step));
  }

  lemma {:induction false} RunKeepsInv(c: Crypto, a: Peer, b: Peer, steps: seq<(bool, Step)>, a': Peer, b': Peer,
                                       x: Key, y: Key)
    requires Sound(c) && Inv(c, a, b, x, y) && Inv(c, b, a, y, x) && IsRun(c, a, b, steps, a', b')
    ensures Inv(c, a', b', x, y) && Inv(c, b', a', y, x)
    decreases |steps|
  {
    hide Inv;
    if steps != [] {
      if steps[0].0 {
        MoveKeepsInv(c, a, b, steps[0].1, x, y);
        RunKeepsInv(c, Move(c, a, b, steps[0].1), b, steps[1..], a', b', x, y);
      } else {
        MoveKeepsInv(c, b, a, steps[0].1, y, x);
        RunKeepsInv(c, a, Move(c, b, a, steps[0].1), steps[1..], a', b', x, y);
      }
    }
  }

  /** The texts that one side was asked to send in a run, in order. */
  function SaidBy(steps: seq<(bool, Step)>, first: bool): seq<string> {
    if steps == [] then []
    else (if steps[0].0 == first && steps[0].1.Say? then [steps[0].1.text] else []) + SaidBy(steps[1..], first)
  }

  function Texts(plain: seq<Option<string>>): seq<string> {
    if plain == [] then []
    else
      var last := plain[|plain| - 1];
      Texts(plain[..|plain| - 1]) + if last.Some? then [last.value] else []
  }

  lemma TextsSnoc(plain: seq<Option<string>>, text: Option<string>)
    ensures Texts(plain + [text]) == if text.Some? then Texts(plain) + [text.value] else Texts(plain)
  {
    assert (plain + [text])[..|plain|] == plain;
  }

  lemma MoveSays(c: Crypto, p: Peer, other: Peer, step: Step)
    requires Enabled(c, p, other, step)
    ensures Texts(Move(c, p, other, step).plain) == Texts(p.plain) + if step.Say? then [step.text] else []
  {
    TextsSnoc(p.plain, None);
    assert Texts(p.plain) + [] == Texts(p.plain);
    if step.Say? { TextsSnoc(p.plain, Some(step.text)); }
    hide Texts;
  }

  /** What a side has put on the wire are the texts it was asked to send. */
  lemma {:induction false} RunSays(c: Crypto, a: Peer, b: Peer, steps: seq<(bool, Step)>, a': Peer, b': Peer)
    requires IsRun(c, a, b, steps, a', b')
    ensures Texts(a'.plain) == Texts(a.plain) + SaidBy(steps, true)
    ensures Texts(b'.plain) == Texts(b.plain) + SaidBy(steps, false)
    decreases |steps|
  {
    hide Texts, Enabled, Move;
    if steps != [] {
      var step, more := steps[0].1, steps[1..];
      if steps[0].0 {
        MoveSays(c, a, b, step);
        RunSays(c, Move(c, a, b, step), b, more, a', b');
        Regroup(Texts(a.plain), if step.Say? then [step.text] else [], SaidBy(more, true));
        assert [] + SaidBy(more, false) == SaidBy(more, false);
      } else {
        MoveSays(c, b, a, step);
        RunSays(c, a, Move(c, b, a, step), more, a', b');
        Regroup(Texts(b.plain), if step.Say? then [step.text] else [], SaidBy(more, false));
        assert [] + SaidBy(more, true) == SaidBy(more, true);
      }
    }
  }

  /** `texts` are those of `said` at the positions `ns`. */
  ghost predicate Picks(texts: seq<string>, ns: seq<nat>, said: seq<string>) {
    && Increasing(ns) && |texts| == |ns|
    && forall k :: 0 <= k < |ns| ==> ns[k] < |said| && said[ns[k]] == texts[k]
  }

  /** Some of the texts said, in the order in which they were, none twice. */
  ghost predicate IsPartOf(texts: seq<string>, said: seq<string>) {
    exists ns :: Picks(texts, ns, said)
  }

  /** What stands at increasing positions among the messages is part of the texts of all of them. */
  lemma {:induction false} PlaintextsArePart(texts: seq<string>, ns: seq<nat>, plain: seq<Option<string>>)
    requires Increasing(ns) && PlaintextsOf(texts, ns, plain)
    ensures IsPartOf(texts, Texts(plain))
    decreases |plain|
  {
    if plain == [] {
      assert Picks(texts, [], Texts(plain));
    } else {
      var front, last := plain[..|plain| - 1], plain[|plain| - 1];
      assert plain == front + [last];
      TextsSnoc(front, last);
      hide Texts;
      if ns != [] && ns[|ns| - 1] == |front| {
        var fewer, before := texts[..|texts| - 1], ns[..|ns| - 1];
        assert texts == fewer + [last.value];
        PlaintextsArePart(fewer, before, front);
        OneMorePart(fewer, Texts(front), last.value);
      } else {
        assert ns != [] ==> forall k :: 0 <= k < |ns| ==> ns[k] <= ns[|ns| - 1];
        PlaintextsArePart(texts, ns, front);
        if last.Some? { StillPart(texts, Texts(front), last.value); }
      }
    }
  }

  lemma OneMorePart(texts: seq<string>, said: seq<string>, text: string)
    requires IsPartOf(texts, said)
    ensures IsPartOf(texts + [text], said + [text])
  {
    var ns :| Picks(texts, ns, said);
    var next: nat := |said|;
    var more: seq<nat> := ns + [next];
    assert forall k :: 0 <= k < |ns| ==> more[k] == ns[k] < next && said[ns[k]] == texts[k];
    assert Picks(texts + [text], more, said + [text]);
  }

  lemma StillPart(texts: seq<string>, said: seq<string>, text: string)
    requires IsPartOf(texts, said)
    ensures IsPartOf(texts, said + [text])
  {
    var ns :| Picks(texts, ns, said);
    assert Picks(texts, ns, said + [text]);
  }

  /** Whatever the network does, what a peer was handed is an order-preserving, duplicate-free part of the texts that
      the other side was asked to send; and it came in messages with strictly increasing numbers. */
  lemma DeliveredInOrderOnce(c: Crypto, x: Key, y: Key, steps: seq<(bool, Step)>, a: Peer, b: Peer)
    requires Sound(c) && IsRun(c, NewPeer(x), NewPeer(y), steps, a, b)
    ensures IsPartOf(a.delivered, SaidBy(steps, false)) && IsPartOf(b.delivered, SaidBy(steps, true))
    ensures Increasing(a.taken) && PlaintextsOf(a.delivered, a.taken, b.plain)
    ensures Increasing(b.taken) && PlaintextsOf(b.delivered, b.taken, a.plain)
  {
    RunKeepsInv(c, NewPeer(x), NewPeer(y), steps, a, b, x, y);
    RunSays(c, NewPeer(x), NewPeer(y), steps, a, b);
    assert Texts([]) == [] && [] + SaidBy(steps, true) == SaidBy(steps, true);
    assert [] + SaidBy(steps, false) == SaidBy(steps, false);
    hide IsRun, Texts, SaidBy, IsPartOf, PlaintextsOf, Increasing;
    PlaintextsArePart(a.delivered, a.taken, b.plain);
    PlaintextsArePart(b.delivered, b.taken, a.plain);
  }

  /** A text sent to an established peer which has seen no later message is handed over there as it was given. */
  lemma SaidTextIsDelivered(c: Crypto, x: Key, y: Key, steps: seq<(bool, Step)>, a: Peer, b: Peer, text: string,
                            nonce: Nonce)
    requires Sound(c) && IsRun(c, NewPeer(x), NewPeer(y), steps, a, b)
    requires a.session.Some? && a.session.value.established && a.session.value.shared.Some?
    requires b.session.Some? && b.session.value.established && b.session.value.shared.Some?
    requires a.session.value.receiveSequence < |b.sent|
    ensures Enabled(c, b, a, Say(text, nonce))
    ensures var sent := Move(c, b, a, Say(text, nonce)).sent;
              && |sent| == |b.sent| + 1 && sent[..|b.sent|] == b.sent
              && Receive(c, a, sent[|b.sent|]).delivered == a.delivered + [text]
  {
    RunKeepsInv(c, NewPeer(x), NewPeer(y), steps, a, b, x, y);
    hide IsRun;
    assert c.agree(x, c.publicKey(y)) == c.agree(y, c.publicKey(x));
    assert c.decrypt(a.session.value.shared.value, nonce,
                     c.encrypt(b.session.value.shared.value, nonce, text)) == Some(text);
  }

  /** Nothing is dropped needlessly: an established peer delivers any text newer than all it has seen. */
  lemma NewTextIsDelivered(c: Crypto, x: Key, y: Key, steps: seq<(bool, Step)>, a: Peer, b: Peer, i: nat)
    requires Sound(c) && IsRun(c, NewPeer(x), NewPeer(y), steps, a, b)
    requires a.session.Some? && a.session.value.established && a.session.value.shared.Some?
    requires i < |b.plain| && b.plain[i].Some? && i < |b.sent| && b.sent[i].Data?
    requires a.session.value.receiveSequence < i
    ensures Receive(c, a, b.sent[i]).delivered == a.delivered + [b.plain[i].value]
  {
    RunKeepsInv(c, NewPeer(x), NewPeer(y), steps, a, b, x, y);
    assert SentOk(c, b.sent[i], b.plain[i], i, y, x);
    assert c.agree(x, c.publicKey(y)) == c.agree(y, c.publicKey(x));
  }

  // ---------------------------------------------------------------------------
  // The exchange of handshakes ends
  // ---------------------------------------------------------------------------

  /** The handshakes among the first `n` messages. */
  function Handshakes(sent: seq<Message>, n: nat): nat
    requires n <= |sent|
  {
    if n == 0 then 0 else Handshakes(sent, n - 1) + if sent[n - 1].Handshake? then 1 else 0
  }

  function AllHandshakes(p: Peer): nat {
    Handshakes(p.sent, |p.sent|)
  }

  lemma {:induction false} HandshakesPrefix(a: seq<Message>, b: seq<Message>, n: nat)
    requires n <= |a| <= |b| && a == b[..|a|]
    ensures Handshakes(a, n) == Handshakes(b, n)
  {
    if n > 0 { HandshakesPrefix(a, b, n - 1); }
  }

  lemma {:induction false} HandshakesGrow(sent: seq<Message>, m: nat, n: nat)
    requires m <= n <= |sent|
    ensures Handshakes(sent, m) <= Handshakes(sent, n)
    decreases n
  {
    if m < n { HandshakesGrow(sent, m, n - 1); }
  }

  function Responding(pending: seq<Pending>): nat {
    if pending == [] then 0 else (if pending[0].respond then 1 else 0) + Responding(pending[1..])
  }

  lemma {:induction false} RespondingConcat(a: seq<Pending>, b: seq<Pending>)
    ensures Responding(a + b) == Responding(a) + Responding(b)
  {
    if a == [] {
      assert a + b == b;
    } else {
      assert (a + b)[1..] == a[1..] + b;
      RespondingConcat(a[1..], b);
    }
  }

  predicate Fresh(p: Peer) {
    p.session.Some? && !p.session.value.established
  }

  /** The messages of the other peer that this one has read past. */
  function Read(p: Peer, other: Peer): nat {
    if p.session.None? || p.session.value.receiveSequence >= |other.sent| then |other.sent|
    else if p.session.value.receiveSequence < 0 then 0 else p.session.value.receiveSequence + 1
  }

  ghost predicate Numbered(p: Peer) {
    && (p.session.Some? ==> p.session.value.sendSequence == |p.sent|)
    && forall i :: 0 <= i < |p.sent| ==> p.sent[i].sequence == i
  }

  ghost predicate Owes(p: Peer, other: Peer) {
    && Numbered(p)
    && AllHandshakes(p) == p.initiated + p.responded
    && (Fresh(p) ==> p.responded == 0 && |p.pending| == p.due)
    && p.responded + Responding(p.pending) <= p.due
    && (p.session.Some? ==> p.responded + Responding(p.pending) == p.due)
    && (p.session.Some? ==> p.session.value.receiveSequence < |other.sent|)
    && p.due <= Handshakes(other.sent, Read(p, other))
  }

  lemma OwesMore(p: Peer, other: Peer, other': Peer)
    requires Owes(p, other) && other.sent <= other'.sent
    ensures Owes(p, other')
  {
    HandshakesPrefix(other.sent, other'.sent, Read(p, other));
    HandshakesGrow(other'.sent, Read(p, other), Read(p, other'));
  }

  lemma EmitCounts(p: Peer, m: Message)
    ensures Handshakes(p.sent + [m], |p.sent| + 1) == AllHandshakes(p) + if m.Handshake? then 1 else 0
  {
    HandshakesPrefix(p.sent, p.sent + [m], |p.sent|);
  }

  lemma ReceiveOwes(c: Crypto, p: Peer, other: Peer, i: nat)
    requires Owes(p, other) && Numbered(other) && i < |other.sent|
    ensures Owes(Receive(c, p, other.sent[i]), other)
  {
    var q := Receive(c, p, other.sent[i]);
    if p.session.Some? && i > p.session.value.receiveSequence {
      HandshakesGrow(other.sent, Read(p, other), i);
      HandshakesGrow(other.sent, i + 1, |other.sent|);
      if other.sent[i].Handshake? {
        RespondingConcat(p.pending, [Pending(other.sent[i].key, !p.session.value.established)]);
      }
    }
  }

  lemma RespondingOne(p: Pending)
    ensures Responding([p]) == if p.respond then 1 else 0
  {
    assert [p][1..] == [];
  }

  lemma OneMoreBetween(a: seq<Pending>, p: Pending, b: seq<Pending>)
    ensures Responding(a + ([p] + b)) == Responding(a + b) + if p.respond then 1 else 0
  {
    RespondingOne(p);
    hide Responding;
    RespondingConcat(a, [p] + b);
    RespondingConcat([p], b);
    RespondingConcat(a, b);
  }

  lemma OneLessPending(pending: seq<Pending>, k: nat)
    requires k < |pending|
    ensures Responding(pending) == Responding(pending[..k] + pending[k + 1..]) + if pending[k].respond then 1 else 0
  {
    hide Responding;
    OneMoreBetween(pending[..k], pending[k], pending[k + 1..]);
    assert pending == pending[..k] + ([pending[k]] + pending[k + 1..]);
  }

  lemma FinishOwes(c: Crypto, p: Peer, other: Peer, k: nat)
    requires Owes(p, other) && k < |p.pending|
    ensures Owes(Finish(c, p, k), other)
  {
    OneLessPending(p.pending, k);
    hide Responding;
    if p.session.Some? && p.pending[k].respond {
      EmitCounts(p, Handshake(c.publicKey(p.session.value.secret), p.session.value.sendSequence));
    }
  }

  lemma SendOwes(p: Peer, other: Peer, m: Message, text: Option<string>)
    requires Owes(p, other) && p.session.Some? && m.sequence == |p.sent|
    ensures var q := Emit(p, m, text);
            Owes(if m.Handshake? then q.(initiated := p.initiated + 1) else q, other)
  {
    EmitCounts(p, m);
  }

  lemma CloseOwes(p: Peer, other: Peer)
    requires Owes(p, other)
    ensures Owes(Close(p), other)
  {
    if p.session.Some? {
      var m := CloseNotice(p.session.value.sendSequence);
      SendOwes(p, other, m, None);
      HandshakesGrow(other.sent, Read(p, other), |other.sent|);
    }
  }

  lemma MoveKeepsOwes(c: Crypto, p: Peer, other: Peer, step: Step)
    requires Owes(p, other) && Numbered(other) && Enabled(c, p, other, step)
    ensures Owes(Move(c, p, other, step), other) && p.sent <= Move(c, p, other, step).sent
  {
    hide Owes;
    match step
    case Initiate =>
      OwesNumbered(p, other);
      SendOwes(p, other, Handshake(c.publicKey(p.session.value.secret), p.session.value.sendSequence), None);
    case Say(text, nonce) =>
      OwesNumbered(p, other);
      var s := p.session.value;
      SendOwes(p, other, Data(c.encrypt(s.shared.value, nonce, text), nonce, s.sendSequence), Some(text));
    case Arrive(i) => ReceiveOwes(c, p, other, i);
    case Complete(k) => FinishOwes(c, p, other, k);
    case Shut => CloseOwes(p, other);
  }

  lemma OwesNumbered(p: Peer, other: Peer)
    requires Owes(p, other)
    ensures Numbered(p)
  {
  }

  lemma MoveOwes(c: Crypto, p: Peer, other: Peer, step: Step)
    requires Owes(p, other) && Owes(other, p) && Enabled(c, p, other, step)
    ensures Owes(Move(c, p, other, step), other) && Owes(other, Move(c, p, other, step))
  {
    OwesNumbered(other, p);
    MoveKeepsOwes(c, p, other, step);
    hide Owes;
    OwesMore(other, p, Move(c, p, other, step));
  }

  /** A handshake is accepted while an earlier one is still awaited and the session is not yet established. */
  ghost predicate Overlaps(p: Peer, other: Peer, step: Step) {
    && step.Arrive? && step.index < |other.sent|
    && Fresh(p) && p.pending != []
    && other.sent[step.index].Handshake? && other.sent[step.index].sequence > p.session.value.receiveSequence
  }

  /** Whether the first peer overlaps anywhere in a run. */
  ghost predicate EverOverlaps(c: Crypto, a: Peer, b: Peer, steps: seq<(bool, Step)>)
    decreases |steps|
  {
    if steps == [] then false
    else if steps[0].0 then
      Enabled(c, a, b, steps[0].1)
      && (Overlaps(a, b, steps[0].1) || EverOverlaps(c, Move(c, a, b, steps[0].1), b, steps[1..]))
    else
      Enabled(c, b, a, steps[0].1) && EverOverlaps(c, a, Move(c, b, a, steps[0].1), steps[1..])
  }

  /** A response falls due once, unless handshakes overlap. */
  lemma DueStep(c: Crypto, p: Peer, other: Peer, step: Step)
    requires Owes(p, other) && Enabled(c, p, other, step)
    ensures var q := Move(c, p, other, step);
            && p.due <= q.due <= p.due + 1
            && (p.due <= 1 ==> (q.due <= 1 <==> !Overlaps(p, other, step)))
  {
  }

  lemma {:induction false} DueOnceWithoutOverlap(c: Crypto, a: Peer, b: Peer, steps: seq<(bool, Step)>,
                                                 a': Peer, b': Peer)
    requires Owes(a, b) && Owes(b, a) && IsRun(c, a, b, steps, a', b')
    ensures Owes(a', b') && Owes(b', a') && a.due <= a'.due
    ensures a.due <= 1 ==> (a'.due <= 1 <==> !EverOverlaps(c, a, b, steps))
    decreases |steps|
  {
    hide Owes;
    if steps != [] {
      if steps[0].0 {
        DueStep(c, a, b, steps[0].1);
        MoveOwes(c, a, b, steps[0].1);
        DueOnceWithoutOverlap(c, Move(c, a, b, steps[0].1), b, steps[1..], a', b');
      } else {
        MoveOwes(c, b, a, steps[0].1);
        DueOnceWithoutOverlap(c, a, Move(c, b, a, steps[0].1), steps[1..], a', b');
      }
    }
  }

  lemma NewPeersOwe(x: Key, y: Key)
    ensures Owes(NewPeer(x), NewPeer(y))
  {
  }

  /** A peer that never accepts a handshake while it still awaits an earlier one responds at most once; and once an open
      session awaits nothing any more, it has responded at most once only if it never did. Before that, and after a
      close, the same holds of the responses it owed. */
  lemma OneResponseUnlessOverlapping(c: Crypto, x: Key, y: Key, steps: seq<(bool, Step)>, a: Peer, b: Peer)
    requires IsRun(c, NewPeer(x), NewPeer(y), steps, a, b)
    ensures !EverOverlaps(c, NewPeer(x), NewPeer(y), steps) ==> a.responded <= 1
    ensures a.session.Some? && a.pending == [] ==>
              (a.responded <= 1 <==> !EverOverlaps(c, NewPeer(x), NewPeer(y), steps))
    ensures a.due <= 1 <==> !EverOverlaps(c, NewPeer(x), NewPeer(y), steps)
    ensures a.responded <= a.due && AllHandshakes(a) == a.initiated + a.responded
  {
    NewPeersOwe(x, y);
    NewPeersOwe(y, x);
    DueOnceWithoutOverlap(c, NewPeer(x), NewPeer(y), steps, a, b);
  }

  /** The same run seen from the other side. */
  function Swapped(steps: seq<(bool, Step)>): seq<(bool, Step)> {
    if steps == [] then [] else [(!steps[0].0, steps[0].1)] + Swapped(steps[1..])
  }

  lemma {:induction false} SwappedRun(c: Crypto, a: Peer, b: Peer, steps: seq<(bool, Step)>, a': Peer, b': Peer)
    requires IsRun(c, a, b, steps, a', b')
    ensures IsRun(c, b, a, Swapped(steps), b', a')
    decreases |steps|
  {
    if steps != [] {
      assert Swapped(steps)[1..] == Swapped(steps[1..]);
      if steps[0].0 {
        SwappedRun(c, Move(c, a, b, steps[0].1), b, steps[1..], a', b');
      } else {
        SwappedRun(c, a, Move(c, b, a, steps[0].1), steps[1..], a', b');
      }
    }
  }

  /** With atomic handling, so that neither side overlaps, and one sendHandshake each: four handshakes at most. */
  lemma AtMostFourHandshakes(c: Crypto, x: Key, y: Key, steps: seq<(bool, Step)>, a: Peer, b: Peer)
    requires IsRun(c, NewPeer(x), NewPeer(y), steps, a, b)
    requires !EverOverlaps(c, NewPeer(x), NewPeer(y), steps)
    requires !EverOverlaps(c, NewPeer(y), NewPeer(x), Swapped(steps))
    requires a.initiated <= 1 && b.initiated <= 1
    ensures a.responded <= 1 && b.responded <= 1
    ensures AllHandshakes(a) + AllHandshakes(b) <= 4
  {
    OneResponseUnlessOverlapping(c, x, y, steps, a, b);
    SwappedRun(c, NewPeer(x), NewPeer(y), steps, a, b);
    OneResponseUnlessOverlapping(c, y, x, Swapped(steps), b, a);
  }

  // ---------------------------------------------------------------------------
  // Any interleaving
  // ---------------------------------------------------------------------------

  /** Only one side can come to owe two responses: it accepts the second while the other has already responded. */
  ghost predicate OneSided(a: Peer, b: Peer) {
    a.due <= 1 || b.due <= 1
  }

  lemma OneSidedStep(c: Crypto, p: Peer, other: Peer, step: Step)
    requires Owes(p, other) && Owes(other, p) && OneSided(p, other) && Enabled(c, p, other, step)
    requires p.initiated <= 1
    ensures OneSided(Move(c, p, other, step), other)
  {
    DueStep(c, p, other, step);
    if Move(c, p, other, step).due > p.due {
      assert Fresh(p) && p.responded == 0;
      HandshakesGrow(p.sent, Read(other, p), |p.sent|);
    }
  }

  lemma {:induction false} InitiatedGrows(c: Crypto, a: Peer, b: Peer, steps: seq<(bool, Step)>, a': Peer, b': Peer)
    requires IsRun(c, a, b, steps, a', b')
    ensures a.initiated <= a'.initiated && b.initiated <= b'.initiated
    decreases |steps|
  {
    if steps != [] {
      if steps[0].0 {
        InitiatedGrows(c, Move(c, a, b, steps[0].1), b, steps[1..], a', b');
      } else {
        InitiatedGrows(c, a, Move(c, b, a, steps[0].1), steps[1..], a', b');
      }
    }
  }

  lemma {:induction false} RunIsOneSided(c: Crypto, a: Peer, b: Peer, steps: seq<(bool, Step)>, a': Peer, b': Peer)
    requires Owes(a, b) && Owes(b, a) && OneSided(a, b) && IsRun(c, a, b, steps, a', b')
    requires a'.initiated <= 1 && b'.initiated <= 1
    ensures Owes(a', b') && Owes(b', a') && OneSided(a', b')
    decreases |steps|
  {
    hide Owes, OneSided;
    InitiatedGrows(c, a, b, steps, a', b');
    if steps != [] {
      if steps[0].0 {
        MoveOwes(c, a, b, steps[0].1);
        OneSidedStep(c, a, b, steps[0].1);
        RunIsOneSided(c, Move(c, a, b, steps[0].1), b, steps[1..], a', b');
      } else {
        MoveOwes(c, b, a, steps[0].1);
        OneSidedSwap(a, b);
        OneSidedStep(c, b, a, steps[0].1);
        OneSidedSwap(Move(c, b, a, steps[0].1), a);
        RunIsOneSided(c, a, Move(c, b, a, steps[0].1), steps[1..], a', b');
      }
    }
  }

  lemma OneSidedSwap(a: Peer, b: Peer)
    requires OneSided(a, b)
    ensures OneSided(b, a)
  {
  }

  /** Whatever interleaves with the awaits, the exchange stops within five handshakes. */
  lemma AtMostFiveHandshakes(c: Crypto, x: Key, y: Key, steps: seq<(bool, Step)>, a: Peer, b: Peer)
    requires IsRun(c, NewPeer(x), NewPeer(y), steps, a, b)
    requires a.initiated <= 1 && b.initiated <= 1
    ensures AllHandshakes(a) + AllHandshakes(b) <= 5
  {
    NewPeersOwe(x, y);
    NewPeersOwe(y, x);
    RunIsOneSided(c, NewPeer(x), NewPeer(y), steps, a, b);
    HandshakesGrow(b.sent, Read(a, b), |b.sent|);
    HandshakesGrow(a.sent, Read(b, a), |a.sent|);
  }

  lemma {:induction false} RunSnoc(c: Crypto, a: Peer, b: Peer, steps: seq<(bool, Step)>, a': Peer, b': Peer,
                                   first: bool, step: Step)
    requires IsRun(c, a, b, steps, a', b')
    requires if first then Enabled(c, a', b', step) else Enabled(c, b', a', step)
    ensures if first then IsRun(c, a, b, steps + [(first, step)], Move(c, a', b', step), b')
            else IsRun(c, a, b, steps + [(first, step)], a', Move(c, b', a', step))
    decreases |steps|
  {
    var all := steps + [(first, step)];
    if steps == [] {
      assert all[1..] == [];
    } else {
      hide Enabled, Move;
      assert all[0] == steps[0] && all[1..] == steps[1..] + [(first, step)];
      if steps[0].0 {
        RunSnoc(c, Move(c, a, b, steps[0].1), b, steps[1..], a', b', first, step);
      } else {
        RunSnoc(c, a, Move(c, b, a, steps[0].1), steps[1..], a', b', first, step);
      }
    }
  }

  /** The bound is reached: handshakes that overlap at the awaits make one side respond twice. */
  lemma FiveHandshakesCanHappen(c: Crypto, x: Key, y: Key) returns (steps: seq<(bool, Step)>, a: Peer, b: Peer)
    ensures IsRun(c, NewPeer(x), NewPeer(y), steps, a, b)
    ensures a.initiated == 1 && b.initiated == 1 && b.responded == 2
    ensures AllHandshakes(a) + AllHandshakes(b) == 5
  {
    a, b, steps := NewPeer(x), NewPeer(y), [];
    // both sides initiate, and each accepts the other's handshake
    steps, a := TakeFirst(c, x, y, steps, a, b, Initiate);
    steps, b := TakeSecond(c, x, y, steps, a, b, Initiate);
    steps, a := TakeFirst(c, x, y, steps, a, b, Arrive(0));
    steps, b := TakeSecond(c, x, y, steps, a, b, Arrive(0));
    // the first completes and responds; the second accepts the response before completing anything
    steps, a := TakeFirst(c, x, y, steps, a, b, Complete(0));
    steps, b := TakeSecond(c, x, y, steps, a, b, Arrive(1));
    steps, b := TakeSecond(c, x, y, steps, a, b, Complete(0));
    steps, b := TakeSecond(c, x, y, steps, a, b, Complete(0));
    EndsOwing(c, x, y, steps, a, b);
  }

  lemma EndsOwing(c: Crypto, x: Key, y: Key, steps: seq<(bool, Step)>, a: Peer, b: Peer)
    requires IsRun(c, NewPeer(x), NewPeer(y), steps, a, b)
    ensures AllHandshakes(a) == a.initiated + a.responded && AllHandshakes(b) == b.initiated + b.responded
  {
    NewPeersOwe(x, y);
    NewPeersOwe(y, x);
    DueOnceWithoutOverlap(c, NewPeer(x), NewPeer(y), steps, a, b);
  }

  lemma TakeFirst(c: Crypto, x: Key, y: Key, steps: seq<(bool, Step)>, a: Peer, b: Peer, step: Step)
    returns (steps': seq<(bool, Step)>, a': Peer)
    requires IsRun(c, NewPeer(x), NewPeer(y), steps, a, b) && Enabled(c, a, b, step)
    ensures a' == Move(c, a, b, step) && IsRun(c, NewPeer(x), NewPeer(y), steps', a', b)
  {
    steps', a' := steps + [(true, step)], Move(c, a, b, step);
    RunSnoc(c, NewPeer(x), NewPeer(y), steps, a, b, true, step);
  }

  lemma TakeSecond(c: Crypto, x: Key, y: Key, steps: seq<(bool, Step)>, a: Peer, b: Peer, step: Step)
    returns (steps': seq<(bool, Step)>, b': Peer)
    requires IsRun(c, NewPeer(x), NewPeer(y), steps, a, b) && Enabled(c, b, a, step)
    ensures b' == Move(c, b, a, step) && IsRun(c, NewPeer(x), NewPeer(y), steps', a, b')
  {
    steps', b' := steps + [(false, step)], Move(c, b, a, step);
    RunSnoc(c, NewPeer(x), NewPeer(y), steps, a, b, false, step);
  }
}
