/** Download tokens as grants: when a grant can be used only once. */
module TokenGrants {
  import opened DownloadTokens
  import opened Numbers
  import opened Options

  // ---------------------------------------------------------------------------
  // The texts of a grant
  // ---------------------------------------------------------------------------

  /** How a grant is written when its token is created. */
  function TextOf(p: Parsed): string {
    Payload(p.fileId, p.expiry) + "." + p.signature
  }

  /** What stands between the last two dots. */
  function ExpiryText(token: string): string
    requires ParseToken(token).Some?
  {
    var rest := token[..LastDot(token)];
    rest[LastDot(rest) + 1..]
  }

  /** The expiry is written as a created token writes it. */
  predicate IsPlain(token: string) {
    var p := ParseToken(token);
    p.Some? && ExpiryText(token) == Decimal(p.value.expiry)
  }

  lemma PartsOf(token: string)
    requires ParseToken(token).Some?
    ensures var p := ParseToken(token).value;
              token == p.fileId + "." + ExpiryText(token) + "." + p.signature
  {
    var last := LastDot(token);
    var rest := token[..last];
    assert token == rest + "." + token[last + 1..];
    var second := LastDot(rest);
    assert rest == rest[..second] + "." + rest[second + 1..];
  }

  lemma Cancel(a: string, x: string, y: string, b: string)
    ensures a + x + b == a + y + b <==> x == y
  {
    if a + x + b == a + y + b {
      assert |x| == |y|;
      assert x == (a + x + b)[|a|..|a| + |x|];
      assert y == (a + y + b)[|a|..|a| + |y|];
    }
  }

  /** A text that parses is the created text of its grant exactly when its expiry is written plainly. */
  lemma PlainExactlyWhenCreated(token: string)
    requires ParseToken(token).Some?
    ensures token == TextOf(ParseToken(token).value) <==> IsPlain(token)
  {
    PartsOf(token);
    var p := ParseToken(token).value;
    Cancel(p.fileId + ".", ExpiryText(token), Decimal(p.expiry), "." + p.signature);
    assert token == (p.fileId + ".") + ExpiryText(token) + ("." + p.signature);
    assert TextOf(p) == (p.fileId + ".") + Decimal(p.expiry) + ("." + p.signature);
  }

  /** A grant that tokens are created for, with its right signature. */
  predicate IsGranted(sign: string -> string, token: string) {
    var p := ParseToken(token);
    p.Some? && ValidId(p.value.fileId) && p.value.signature == sign(Payload(p.value.fileId, p.value.expiry))
  }

  /** The created text of a grant. */
  lemma CreatedIsGranted(sign: string -> string, fileId: string, expiry: int)
    requires HexDigests(sign) && ValidId(fileId)
    ensures var t := CreateToken(sign, fileId, expiry).value;
              && IsGranted(sign, t) && IsPlain(t) && t == TextOf(ParseToken(t).value)
              && ParseToken(t).value.fileId == fileId && ParseToken(t).value.expiry == expiry
  {
    ParseInvertsCreate(sign, fileId, expiry);
    hide ParseToken;
    PlainExactlyWhenCreated(CreateToken(sign, fileId, expiry).value);
  }

  /** A second text of a grant: its expiry after a space. */
  function SpacedText(p: Parsed): string {
    p.fileId + "." + (" " + Decimal(p.expiry)) + "." + p.signature
  }

  lemma SpaceIsSkipped(s: string)
    ensures ParseInt(" " + s) == ParseInt(s)
  {
    assert (" " + s)[1..] == s;
    assert SkipSpaces(" " + s) == SkipSpaces(s);
  }

  /** A created text has another beside it, which stands for the same grant and is not remembered with it. */
  lemma AnotherTextIsAccepted(sign: string -> string, token: string, now: int)
    requires HexDigests(sign) && IsGranted(sign, token) && IsPlain(token) && now <= ParseToken(token).value.expiry
    ensures var p := ParseToken(token).value;
            var other := SpacedText(p);
              && other != token && ParseToken(other) == Some(p) && !IsPlain(other)
              && Verify(sign, [], token, now) == Verify(sign, [token], other, now) == Valid(p.fileId)
  {
    var p := ParseToken(token).value;
    var other := SpacedText(p);
    PlainExactlyWhenCreated(token);
    ParseIntInvertsDecimal(p.expiry);
    SpaceIsSkipped(Decimal(p.expiry));
    DecimalIsDotFree(p.expiry);
    hide ParseInt, ParseToken, Decimal, SkipSpaces;
    ParseParts(p.fileId, " " + Decimal(p.expiry), p.signature);
    assert |other| == |token| + 1;
    PlainExactlyWhenCreated(other);
  }

  /** So does a leading zero. */
  lemma LeadingZeroIsAccepted(sign: string -> string, now: int)
    requires HexDigests(sign) && now <= 5
    ensures var t, u := "f.5." + sign("f.5"), "f.05." + sign("f.5");
              && t != u && CreateToken(sign, "f", 5) == Some(t)
              && Verify(sign, [], t, now) == Valid("f") && Verify(sign, [t], u, now) == Valid("f")
  {
    var d := sign("f.5");
    var t, u := "f.5." + d, "f.05." + d;
    FiveTexts();
    ParseInvertsCreate(sign, "f", 5);
    hide ParseInt, ParseToken, Decimal, HexDigests, DotFree;
    assert sign("f.5") != "" && DotFree(sign("f.5")) by { DigestOf(sign, "f.5"); }
    ParseParts("f", "05", d);
    assert "f" + "." + "05" + "." == "f.05.";
    assert u == "f" + "." + "05" + "." + d;
    assert t == Payload("f", 5) + "." + d;
    assert |u| == |t| + 1;
  }

  lemma DigestOf(sign: string -> string, payload: string)
    requires HexDigests(sign)
    ensures sign(payload) != "" && DotFree(sign(payload))
  {
    hide DotFree;
  }

  lemma FiveTexts()
    ensures ParseInt("05") == Some(5) && Decimal(5) == "5"
    ensures Payload("f", 5) == "f.5" && DotFree("05")
  {
    assert "05"[1..] == "5" && "5"[1..] == "" && "05"[..1] == "0" && "0"[..0] == "" && "5"[..0] == "";
    assert LeadingDigits("5") == "5" && LeadingDigits("05") == "05";
    assert ValueOf("0") == 0 && ValueOf("05") == 5;
    assert Decimal(5) == "5";
  }

  // ---------------------------------------------------------------------------
  // Presentations
  // ---------------------------------------------------------------------------

  /** The texts accepted of those presented, each at its time. */
  function AcceptedOf(sign: string -> string, max: int, ps: seq<(string, int)>): seq<string> {
    if ps == [] then []
    else
      var accepted := AcceptedOf(sign, max, ps[..|ps| - 1]);
      var (text, now) := ps[|ps| - 1];
      if Verify(sign, Used(max, accepted), text, now).Valid? then accepted + [text] else accepted
  }

  lemma AcceptedOfSnoc(sign: string -> string, max: int, ps: seq<(string, int)>, text: string, now: int)
    ensures var accepted := AcceptedOf(sign, max, ps);
              AcceptedOf(sign, max, ps + [(text, now)])
              == if Verify(sign, Used(max, accepted), text, now).Valid? then accepted + [text] else accepted
  {
    assert (ps + [(text, now)])[..|ps|] == ps;
  }

  predicate IsSigned(sign: string -> string, token: string) {
    var p := ParseToken(token);
    p.Some? && p.value.signature == sign(Payload(p.value.fileId, p.value.expiry))
  }

  ghost predicate Admitted(admit: string -> bool, ps: seq<(string, int)>) {
    forall i :: 0 <= i < |ps| ==> admit(ps[i].0)
  }

  lemma {:induction false} AcceptedFacts(sign: string -> string, max: int, admit: string -> bool,
                                         ps: seq<(string, int)>)
    requires Admitted(admit, ps)
    ensures AcceptedRun(max, AcceptedOf(sign, max, ps))
    ensures forall t :: t in AcceptedOf(sign, max, ps) ==> admit(t) && IsSigned(sign, t)
  {
    if ps != [] {
      var front := ps[..|ps| - 1];
      var (text, now) := ps[|ps| - 1];
      assert ps == front + [(text, now)];
      AcceptedFacts(sign, max, admit, front);
      var accepted := AcceptedOf(sign, max, front);
      AcceptedOfSnoc(sign, max, front, text, now);
      hide AcceptedOf, Used, AcceptedRun, ParseToken;
      if Verify(sign, Used(max, accepted), text, now).Valid? {
        RunSnoc(max, accepted, text);
      }
    }
  }

  /** No grant that tokens are created for is accepted twice. */
  ghost predicate OncePerGrant(accepted: seq<string>) {
    forall i, j :: 0 <= i < j < |accepted| && ParseToken(accepted[i]).Some?
                   && ValidId(ParseToken(accepted[i]).value.fileId)
      ==> ParseToken(accepted[i]) != ParseToken(accepted[j])
  }

  /** Everything that is created is let in. */
  ghost predicate AdmitsCreated(sign: string -> string, admit: string -> bool) {
    forall fileId, expiry :: ValidId(fileId) ==> admit(CreateToken(sign, fileId, expiry).value)
  }

  /** Of the texts of a grant, only those with a plain expiry are let in. */
  ghost predicate OnlyPlain(sign: string -> string, admit: string -> bool) {
    forall t :: admit(t) && IsGranted(sign, t) ==> IsPlain(t)
  }

  ghost predicate OnceWhileRemembered(sign: string -> string, max: int, admit: string -> bool) {
    forall ps :: Admitted(admit, ps) && (|AcceptedOf(sign, max, ps)| <= max + 1 || max < 2)
      ==> OncePerGrant(AcceptedOf(sign, max, ps))
  }

  ghost predicate OnceForAll(sign: string -> string, max: int, admit: string -> bool) {
    forall ps :: Admitted(admit, ps) ==> OncePerGrant(AcceptedOf(sign, max, ps))
  }

  lemma PlainTextsDiffer(sign: string -> string, admit: string -> bool, t: string, u: string)
    requires OnlyPlain(sign, admit) && admit(t) && admit(u) && IsSigned(sign, t) && IsSigned(sign, u) && t != u
    requires ValidId(ParseToken(t).value.fileId)
    ensures ParseToken(t) != ParseToken(u)
  {
    hide ParseToken, IsPlain;
    if ParseToken(t) == ParseToken(u) {
      assert IsGranted(sign, t) && IsGranted(sign, u);
      PlainExactlyWhenCreated(t);
      PlainExactlyWhenCreated(u);
    }
  }

  lemma RememberedTextsDiffer(max: int, accepted: seq<string>, i: nat, j: nat)
    requires AcceptedRun(max, accepted) && (|accepted| <= max + 1 || max < 2) && i < j < |accepted|
    ensures accepted[i] != accepted[j]
  {
    AllRememberedExactlyWhile(max, accepted[..j]);
    assert accepted[j] !in accepted[..j];
    assert accepted[..j][i] == accepted[i];
  }

  /** Texts with plain expiries are remembered as their grants. */
  lemma PlainTextsOnce(sign: string -> string, max: int, admit: string -> bool, ps: seq<(string, int)>)
    requires OnlyPlain(sign, admit) && Admitted(admit, ps)
    requires |AcceptedOf(sign, max, ps)| <= max + 1 || max < 2
    ensures OncePerGrant(AcceptedOf(sign, max, ps))
  {
    var accepted := AcceptedOf(sign, max, ps);
    AcceptedFacts(sign, max, admit, ps);
    hide AcceptedOf, ParseToken, OnlyPlain, AcceptedRun;
    forall i, j | 0 <= i < j < |accepted| && ParseToken(accepted[i]).Some?
                  && ValidId(ParseToken(accepted[i]).value.fileId)
      ensures ParseToken(accepted[i]) != ParseToken(accepted[j])
    {
      RememberedTextsDiffer(max, accepted, i, j);
      PlainTextsDiffer(sign, admit, accepted[i], accepted[j]);
    }
  }

  lemma AcceptNext(sign: string -> string, max: int, ps: seq<(string, int)>, text: string, now: int)
    requires Verify(sign, [], text, now).Valid? && text !in Used(max, AcceptedOf(sign, max, ps))
    ensures AcceptedOf(sign, max, ps + [(text, now)]) == AcceptedOf(sign, max, ps) + [text]
  {
    AcceptedOfSnoc(sign, max, ps, text, now);
    hide AcceptedOf, ParseToken, Used;
  }

  lemma AcceptTwo(sign: string -> string, max: int, t: string, u: string, now: int)
    requires Verify(sign, [], t, now).Valid? && Verify(sign, [], u, now).Valid? && t != u
    ensures AcceptedOf(sign, max, [(t, now), (u, now)]) == [t, u]
  {
    assert AcceptedOf(sign, max, []) == [] && Used(max, []) == [];
    AllRememberedExactlyWhile(max, [t]);
    hide Verify, AcceptedOf, Used;
    AcceptNext(sign, max, [], t, now);
    assert [] + [(t, now)] == [(t, now)] && [] + [t] == [t];
    AcceptNext(sign, max, [(t, now)], u, now);
    assert [(t, now)] + [(u, now)] == [(t, now), (u, now)] && [t] + [u] == [t, u];
  }

  /** The created text of a grant beside another one. */
  lemma CreatedBeside(sign: string -> string, admit: string -> bool, t: string) returns (u: string, now: int)
    requires HexDigests(sign) && AdmitsCreated(sign, admit) && IsGranted(sign, t) && !IsPlain(t)
    ensures admit(u) && u != t && ParseToken(u) == ParseToken(t)
    ensures Verify(sign, [], u, now).Valid? && Verify(sign, [], t, now).Valid?
  {
    var p := ParseToken(t).value;
    u, now := CreateToken(sign, p.fileId, p.expiry).value, p.expiry;
    CreatedIsGranted(sign, p.fileId, p.expiry);
    hide ParseToken, IsPlain;
  }

  /** Another text of a grant is accepted beside the created one. */
  lemma OtherTextBreaks(sign: string -> string, max: int, admit: string -> bool, t: string)
    requires HexDigests(sign) && AdmitsCreated(sign, admit) && admit(t) && IsGranted(sign, t) && !IsPlain(t)
    ensures !OnceWhileRemembered(sign, max, admit)
  {
    var u, now := CreatedBeside(sign, admit, t);
    hide ParseToken, IsPlain, AcceptedOf, OncePerGrant, OnceWhileRemembered, AdmitsCreated, HexDigests, Verify, ValidId;
    AcceptTwo(sign, max, u, t, now);
    SameGrantTwice(u, t);
    TwoRefuteOnce(sign, max, admit, u, t, now);
  }

  lemma SameGrantTwice(t: string, u: string)
    requires ParseToken(t) == ParseToken(u) && ParseToken(t).Some? && ValidId(ParseToken(t).value.fileId)
    ensures !OncePerGrant([t, u])
  {
    hide ParseToken;
    assert [t, u][0] == t && [t, u][1] == u;
  }

  lemma TwoRefuteOnce(sign: string -> string, max: int, admit: string -> bool, t: string, u: string, now: int)
    requires admit(t) && admit(u) && AcceptedOf(sign, max, [(t, now), (u, now)]) == [t, u] && !OncePerGrant([t, u])
    ensures !OnceWhileRemembered(sign, max, admit)
  {
    hide AcceptedOf, OncePerGrant;
    assert Admitted(admit, [(t, now), (u, now)]);
  }

  /** While the memory holds, grants are accepted at most once exactly when only texts with a plain expiry are let in.
      Whoever lets tokens in can check that condition on the text. */
  lemma OnceExactlyWhenPlain(sign: string -> string, max: int, admit: string -> bool)
    requires HexDigests(sign) && AdmitsCreated(sign, admit)
    ensures OnceWhileRemembered(sign, max, admit) <==> OnlyPlain(sign, admit)
  {
    if OnlyPlain(sign, admit) {
      forall ps | Admitted(admit, ps) && (|AcceptedOf(sign, max, ps)| <= max + 1 || max < 2)
        ensures OncePerGrant(AcceptedOf(sign, max, ps))
      {
        PlainTextsOnce(sign, max, admit, ps);
      }
    } else {
      var t :| admit(t) && IsGranted(sign, t) && !IsPlain(t);
      OtherTextBreaks(sign, max, admit, t);
    }
  }

  // ---------------------------------------------------------------------------
  // Forgetting
  // ---------------------------------------------------------------------------

  /** A created token for the file named `n`. */
  function Numbered(sign: string -> string, n: nat, expiry: int): string {
    Payload(Digits(n), expiry) + "." + sign(Payload(Digits(n), expiry))
  }

  function FirstTokens(sign: string -> string, n: nat, expiry: int): seq<string> {
    if n == 0 then [] else FirstTokens(sign, n - 1, expiry) + [Numbered(sign, n - 1, expiry)]
  }

  /** Each presented in the second it expires in. */
  function PresentAll(texts: seq<string>, now: int): seq<(string, int)> {
    if texts == [] then [] else PresentAll(texts[..|texts| - 1], now) + [(texts[|texts| - 1], now)]
  }

  lemma NumberedIsCreated(sign: string -> string, n: nat, expiry: int)
    requires HexDigests(sign)
    ensures ValidId(Digits(n)) && CreateToken(sign, Digits(n), expiry) == Some(Numbered(sign, n, expiry))
    ensures ParseToken(Numbered(sign, n, expiry)).Some?
    ensures ParseToken(Numbered(sign, n, expiry)).value.fileId == Digits(n)
    ensures IsGranted(sign, Numbered(sign, n, expiry)) && ParseToken(Numbered(sign, n, expiry)).value.expiry == expiry
  {
    DigitsAreDigits(n);
    assert DotFree(Digits(n));
    hide ParseToken, IsPlain;
    CreatedIsGranted(sign, Digits(n), expiry);
  }

  lemma NumberedDiffer(sign: string -> string, m: nat, n: nat, expiry: int)
    requires HexDigests(sign) && m != n
    ensures Numbered(sign, m, expiry) != Numbered(sign, n, expiry)
  {
    NumberedIsCreated(sign, m, expiry);
    NumberedIsCreated(sign, n, expiry);
    DigitsValue(m);
    DigitsValue(n);
    hide ParseToken, Digits;
  }

  lemma {:induction false} FirstTokensAt(sign: string -> string, n: nat, expiry: int)
    ensures |FirstTokens(sign, n, expiry)| == n
    ensures forall i :: 0 <= i < n ==> FirstTokens(sign, n, expiry)[i] == Numbered(sign, i, expiry)
  {
    hide Numbered;
    if n > 0 { FirstTokensAt(sign, n - 1, expiry); }
  }

  lemma NumberedIsNew(sign: string -> string, n: nat, from: nat, m: nat, expiry: int)
    requires HexDigests(sign) && from <= n && (m < from || n <= m)
    ensures |FirstTokens(sign, n, expiry)| == n && Numbered(sign, m, expiry) !in FirstTokens(sign, n, expiry)[from..]
  {
    FirstTokensAt(sign, n, expiry);
    var tail := FirstTokens(sign, n, expiry)[from..];
    forall i | 0 <= i < |tail| ensures tail[i] != Numbered(sign, m, expiry) {
      NumberedDiffer(sign, from + i, m, expiry);
    }
  }

  lemma NumberedIsValid(sign: string -> string, n: nat, now: int)
    requires HexDigests(sign)
    ensures Verify(sign, [], Numbered(sign, n, now), now).Valid?
  {
    NumberedIsCreated(sign, n, now);
    hide ParseToken, Numbered, Digits;
  }

  lemma NotRemembered(sign: string -> string, max: int, n: nat, m: nat, now: int)
    requires HexDigests(sign) && (m < n - Kept(max, n) || n <= m)
    ensures Numbered(sign, m, now) !in Used(max, FirstTokens(sign, n, now))
  {
    hide Used, Kept, Numbered, FirstTokens;
    NumberedIsNew(sign, n, n - Kept(max, n), m, now);
    UsedIsSuffix(max, FirstTokens(sign, n, now));
  }

  lemma PresentAllSnoc(front: seq<string>, text: string, now: int)
    ensures PresentAll(front + [text], now) == PresentAll(front, now) + [(text, now)]
  {
    assert (front + [text])[..|front|] == front;
  }

  lemma FirstTokensNext(sign: string -> string, n: nat, now: int)
    ensures FirstTokens(sign, 0, now) == []
    ensures FirstTokens(sign, n + 1, now) == FirstTokens(sign, n, now) + [Numbered(sign, n, now)]
  {
    hide Numbered;
  }

  ghost predicate FirstAreAccepted(sign: string -> string, max: int, n: nat, now: int) {
    AcceptedOf(sign, max, PresentAll(FirstTokens(sign, n, now), now)) == FirstTokens(sign, n, now)
  }

  lemma NoneAreAccepted(sign: string -> string, max: int, now: int)
    ensures FirstAreAccepted(sign, max, 0, now)
  {
    assert FirstTokens(sign, 0, now) == [] && PresentAll([], now) == [] && AcceptedOf(sign, max, []) == [];
  }

  lemma OneMoreAccepted(sign: string -> string, max: int, n: nat, now: int)
    requires HexDigests(sign) && FirstAreAccepted(sign, max, n, now)
    ensures FirstAreAccepted(sign, max, n + 1, now)
  {
    var front, token := FirstTokens(sign, n, now), Numbered(sign, n, now);
    hide HexDigests, AcceptedOf, PresentAll, FirstTokens, Numbered, Verify, Used, ParseToken;
    NotRemembered(sign, max, n, n, now);
    NumberedIsValid(sign, n, now);
    AcceptNext(sign, max, PresentAll(front, now), token, now);
    PresentAllSnoc(front, token, now);
    FirstTokensNext(sign, n, now);
  }

  lemma {:induction false} FirstTokensAccepted(sign: string -> string, max: int, n: nat, now: int)
    requires HexDigests(sign)
    ensures FirstAreAccepted(sign, max, n, now)
  {
    NoneAreAccepted(sign, max, now);
    hide *;
    if n > 0 {
      FirstTokensAccepted(sign, max, n - 1, now);
      OneMoreAccepted(sign, max, n - 1, now);
    }
  }

  /** A created text, and no later than it expires. */
  ghost predicate IsCreated(sign: string -> string, text: string, now: int) {
    exists id, expiry :: ValidId(id) && now <= expiry && CreateToken(sign, id, expiry) == Some(text)
  }

  ghost predicate AllCreated(sign: string -> string, ps: seq<(string, int)>) {
    forall i :: 0 <= i < |ps| ==> IsCreated(sign, ps[i].0, ps[i].1)
  }

  lemma AllCreatedSnoc(sign: string -> string, ps: seq<(string, int)>, text: string, now: int)
    requires AllCreated(sign, ps) && IsCreated(sign, text, now)
    ensures AllCreated(sign, ps + [(text, now)])
  {
    hide IsCreated;
  }

  lemma NumberedIsIssued(sign: string -> string, n: nat, now: int)
    requires HexDigests(sign)
    ensures IsCreated(sign, Numbered(sign, n, now), now)
  {
    hide Numbered;
    NumberedIsCreated(sign, n, now);
  }

  lemma {:induction false} PresentedAreCreated(sign: string -> string, n: nat, now: int)
    requires HexDigests(sign)
    ensures AllCreated(sign, PresentAll(FirstTokens(sign, n, now), now))
  {
    NonePresented(sign, now);
    hide *;
    if n > 0 {
      PresentedAreCreated(sign, n - 1, now);
      FirstTokensNext(sign, n - 1, now);
      PresentAllSnoc(FirstTokens(sign, n - 1, now), Numbered(sign, n - 1, now), now);
      NumberedIsIssued(sign, n - 1, now);
      AllCreatedSnoc(sign, PresentAll(FirstTokens(sign, n - 1, now), now), Numbered(sign, n - 1, now), now);
    }
  }

  lemma NonePresented(sign: string -> string, now: int)
    ensures AllCreated(sign, PresentAll(FirstTokens(sign, 0, now), now))
  {
    assert FirstTokens(sign, 0, now) == [] && PresentAll([], now) == [];
  }

  lemma RepeatedGrant(tokens: seq<string>, first: string)
    requires tokens != [] && tokens[0] == first
    requires ParseToken(first).Some? && ValidId(ParseToken(first).value.fileId)
    ensures var all := tokens + [first];
              !OncePerGrant(all) && |all| == |tokens| + 1 && all[0] == all[|tokens|]
  {
    hide ParseToken;
    var all := tokens + [first];
    assert all[0] == first && all[|tokens|] == first;
  }

  lemma FirstIsForgotten(sign: string -> string, max: int, now: int)
    requires HexDigests(sign) && max >= 2
    ensures Numbered(sign, 0, now) !in Used(max, FirstTokens(sign, max + 1, now))
  {
    hide *;
    KeptBounds(max, max + 1);
    NotRemembered(sign, max, max + 1, 0, now);
  }

  lemma FirstAcceptedAgain(sign: string -> string, max: int, now: int)
    requires HexDigests(sign) && max >= 2
    ensures var tokens, first := FirstTokens(sign, max + 1, now), Numbered(sign, 0, now);
              AcceptedOf(sign, max, PresentAll(tokens, now) + [(first, now)]) == tokens + [first]
  {
    hide HexDigests, AcceptedOf, ParseToken, Used, FirstTokens, PresentAll, Numbered, Verify;
    FirstTokensAccepted(sign, max, max + 1, now);
    FirstIsForgotten(sign, max, now);
    NumberedIsValid(sign, 0, now);
    AcceptNext(sign, max, PresentAll(FirstTokens(sign, max + 1, now), now), Numbered(sign, 0, now), now);
  }

  lemma FirstOfTokens(sign: string -> string, n: nat, now: int)
    requires n > 0
    ensures |FirstTokens(sign, n, now)| == n && FirstTokens(sign, n, now)[0] == Numbered(sign, 0, now)
  {
    FirstTokensAt(sign, n, now);
    hide FirstTokens, Numbered;
  }

  lemma RepeatPresented(sign: string -> string, max: int, now: int)
    requires HexDigests(sign) && max >= 2
    ensures var tokens, first := FirstTokens(sign, max + 1, now), Numbered(sign, 0, now);
              AllCreated(sign, PresentAll(tokens, now) + [(first, now)])
              && |PresentAll(tokens, now)| == max + 1
  {
    var tokens, first := FirstTokens(sign, max + 1, now), Numbered(sign, 0, now);
    hide *;
    FirstOfTokens(sign, max + 1, now);
    PresentedLength(tokens, now);
    PresentedAreCreated(sign, max + 1, now);
    NumberedIsIssued(sign, 0, now);
    AllCreatedSnoc(sign, PresentAll(tokens, now), first, now);
  }

  ghost predicate GrantsTwice(accepted: seq<string>, n: nat) {
    |accepted| == n + 1 && accepted[0] == accepted[n] && !OncePerGrant(accepted)
  }

  lemma FirstRepeated(sign: string -> string, n: nat, now: int)
    requires HexDigests(sign) && n > 0
    ensures GrantsTwice(FirstTokens(sign, n, now) + [Numbered(sign, 0, now)], n)
  {
    hide FirstTokens, Numbered, ParseToken, OncePerGrant, ValidId;
    FirstOfTokens(sign, n, now);
    NumberedIsCreated(sign, 0, now);
    RepeatedGrant(FirstTokens(sign, n, now), Numbered(sign, 0, now));
  }

  /** One created token after another, each in the second it expires in, and then the first again. */
  function Replay(sign: string -> string, max: nat, now: int): seq<(string, int)> {
    PresentAll(FirstTokens(sign, max + 1, now), now) + [(Numbered(sign, 0, now), now)]
  }

  /** With room for two or more, a created, unexpired token is accepted again once enough others were. */
  lemma AcceptedAgain(sign: string -> string, max: int, now: int)
    requires HexDigests(sign) && max >= 2
    ensures var ps := Replay(sign, max, now);
            var accepted := AcceptedOf(sign, max, ps);
              && AllCreated(sign, ps) && |accepted| == |ps| == max + 2
              && accepted[0] == accepted[max + 1] && !OncePerGrant(accepted)
  {
    hide AllCreated, AcceptedOf, FirstTokens, PresentAll, Numbered, OncePerGrant, HexDigests;
    RepeatPresented(sign, max, now);
    FirstAcceptedAgain(sign, max, now);
    FirstRepeated(sign, max + 1, now);
  }

  lemma {:induction false} PresentedLength(texts: seq<string>, now: int)
    ensures |PresentAll(texts, now)| == |texts|
  {
    if texts != [] { PresentedLength(texts[..|texts| - 1], now); }
  }

  lemma CreatedAreAdmitted(sign: string -> string, admit: string -> bool, ps: seq<(string, int)>)
    requires AdmitsCreated(sign, admit) && AllCreated(sign, ps)
    ensures Admitted(admit, ps)
  {
    forall i | 0 <= i < |ps| ensures admit(ps[i].0) {
      assert IsCreated(sign, ps[i].0, ps[i].1);
      var id, e :| ValidId(id) && ps[i].1 <= e && CreateToken(sign, id, e) == Some(ps[i].0);
    }
  }

  /** However often tokens are presented, grants are accepted at most once exactly when only texts with a plain expiry
      are let in and nothing is ever forgotten, which is when there is room for less than two. */
  lemma SingleUseIsExact(sign: string -> string, max: int, admit: string -> bool)
    requires HexDigests(sign) && AdmitsCreated(sign, admit)
    ensures OnceForAll(sign, max, admit) <==> OnlyPlain(sign, admit) && max < 2
  {
    OnceExactlyWhenPlain(sign, max, admit);
    if max >= 2 {
      var ps := Replay(sign, max, 0);
      AcceptedAgain(sign, max, 0);
      CreatedAreAdmitted(sign, admit, ps);
    }
  }
}
