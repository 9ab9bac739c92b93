/** Download tokens: what a created token parses back to, and how long a used token is remembered. */
module DownloadTokens {
  import opened Numbers
  import opened Options

  // ---------------------------------------------------------------------------
  // Dots
  // ---------------------------------------------------------------------------

  predicate DotFree(s: string) {
    '.' !in s
  }

  lemma DecimalIsDotFree(n: int)
    ensures DotFree(Decimal(n)) && Decimal(n) != ""
  {
    DigitsAreDigits(if n < 0 then -n else n);
  }

  /** Where the last dot of a text is, or -1. */
  function LastDot(s: string): (i: int)
    ensures -1 <= i < |s|
    ensures i >= 0 ==> s[i] == '.'
  {
    if s == "" then -1 else if s[|s| - 1] == '.' then |s| - 1 else LastDot(s[..|s| - 1])
  }

  lemma {:induction false} LastDotAt(a: string, b: string)
    requires DotFree(b)
    ensures LastDot(a + "." + b) == |a|
    ensures (a + "." + b)[..|a|] == a && (a + "." + b)[|a| + 1..] == b
  {
    if b == "" {
      assert a + "." + b == a + ".";
      assert (a + ".")[|a|] == '.';
    } else {
      var front, last := b[..|b| - 1], b[|b| - 1];
      assert last in b && forall c :: c in front ==> c in b;
      assert a + "." + b == (a + "." + front) + [last];
      LastDotAt(a, front);
      LastDotBefore(a + "." + front, last);
    }
  }

  lemma LastDotBefore(s: string, c: char)
    requires c != '.'
    ensures LastDot(s + [c]) == LastDot(s)
  {
    assert (s + [c])[..|s|] == s;
  }

  lemma {:induction false} SplitAtLastDot(s: string)
    requires LastDot(s) >= 0
    ensures s == s[..LastDot(s)] + "." + s[LastDot(s) + 1..] && DotFree(s[LastDot(s) + 1..])
  {
    var i := LastDot(s);
    if s[|s| - 1] != '.' {
      SplitAtLastDot(s[..|s| - 1]);
      assert s[i + 1..] == s[..|s| - 1][i + 1..] + [s[|s| - 1]];
    }
  }

  // ---------------------------------------------------------------------------
  // Tokens
  // ---------------------------------------------------------------------------

  datatype Parsed = Parsed(fileId: string, expiry: int, signature: string)

  predicate ValidId(fileId: string) {
    fileId != "" && DotFree(fileId)
  }

  /** The keyed digest in hexadecimal, for some secret. Any function of the payload to such texts will do. */
  ghost predicate HexDigests(sign: string -> string) {
    forall payload :: sign(payload) != "" && DotFree(sign(payload))
  }

  function Payload(fileId: string, expiry: int): string {
    fileId + "." + Decimal(expiry)
  }

  function CreateToken(sign: string -> string, fileId: string, expiry: int): Option<string> {
    if !ValidId(fileId) then None else Some(Payload(fileId, expiry) + "." + sign(Payload(fileId, expiry)))
  }

  function ParseToken(token: string): Option<Parsed> {
    var last := LastDot(token);
    if last < 0 then None
    else
      var signature, rest := token[last + 1..], token[..last];
      var second := LastDot(rest);
      if second < 0 then None
      else
        var fileId, expiryText := rest[..second], rest[second + 1..];
        if fileId == "" || expiryText == "" || signature == "" then None
        else
          match ParseInt(expiryText)
          case None => None
          case Some(expiry) => Some(Parsed(fileId, expiry, signature))
  }

  /** Three parts that are joined by dots are found again, the file id with any dots of its own. */
  lemma ParseParts(fileId: string, expiryText: string, signature: string)
    requires fileId != "" && expiryText != "" && signature != "" && DotFree(expiryText) && DotFree(signature)
    ensures ParseToken(fileId + "." + expiryText + "." + signature)
            == match ParseInt(expiryText)
               case None => None
               case Some(expiry) => Some(Parsed(fileId, expiry, signature))
  {
    LastDotAt(fileId + "." + expiryText, signature);
    LastDotAt(fileId, expiryText);
    hide LastDot, ParseInt;
  }

  /** Parsing inverts creating, for every id that tokens are created for and every expiry. */
  lemma ParseInvertsCreate(sign: string -> string, fileId: string, expiry: int)
    requires HexDigests(sign) && ValidId(fileId)
    ensures CreateToken(sign, fileId, expiry).Some?
    ensures ParseToken(CreateToken(sign, fileId, expiry).value)
            == Some(Parsed(fileId, expiry, sign(Payload(fileId, expiry))))
  {
    DecimalIsDotFree(expiry);
    ParseIntInvertsDecimal(expiry);
    hide ParseToken, ParseInt, Decimal;
    ParseParts(fileId, Decimal(expiry), sign(Payload(fileId, expiry)));
  }

  // ---------------------------------------------------------------------------
  // Remembering used tokens
  // ---------------------------------------------------------------------------

  function Half(max: int): nat {
    if max < 0 then 0 else max / 2
  }

  /** The used tokens, oldest first, once one more is marked. */
  function Marked(max: int, used: seq<string>, token: string): seq<string> {
    var more := used + [token];
    if |more| > max then more[Half(max)..] else more
  }

  function Used(max: int, accepted: seq<string>): seq<string> {
    if accepted == [] then [] else Marked(max, Used(max, accepted[..|accepted| - 1]), accepted[|accepted| - 1])
  }

  function Remainder(a: nat, m: nat): (r: nat)
    requires m > 0
    ensures r < m && r <= a
  {
    a % m
  }

  /** How many of `n` accepted tokens are remembered: all of them, or, with room for two, from about half of the room
      up to all of it. */
  function Kept(max: int, n: nat): (k: nat)
    ensures k <= n
  {
    if n <= max || max < 2 then n else max - max / 2 + 1 + Remainder(n - max - 1, max / 2)
  }

  lemma MultipleIsFar(m: int, d: int)
    requires m > 0
    ensures d >= 1 ==> m * d >= m
    ensures d <= -1 ==> m * d <= -m
  {
  }

  lemma ModIs(a: int, m: int, q: int, r: int)
    requires m > 0 && a == m * q + r && 0 <= r < m
    ensures a % m == r
  {
    assert m * (a / m - q) == r - a % m by {
      assert a == m * (a / m) + a % m;
      assert m * (a / m) - m * q == m * (a / m - q);
    }
    MultipleIsFar(m, a / m - q);
  }

  lemma NextRemainder(a: nat, m: nat)
    requires m > 0
    ensures Remainder(a + 1, m) == if Remainder(a, m) == m - 1 then 0 else Remainder(a, m) + 1
  {
    if a % m == m - 1 {
      assert m * (a / m + 1) == m * (a / m) + m;
      ModIs(a + 1, m, a / m + 1, 0);
    } else {
      ModIs(a + 1, m, a / m, a % m + 1);
    }
  }

  /** How the number remembered goes on: one more, until there are too many and the oldest half goes. */
  lemma KeptNext(max: int, n: nat)
    ensures Kept(max, n + 1) == if Kept(max, n) + 1 > max then Kept(max, n) + 1 - Half(max) else Kept(max, n) + 1
  {
    hide Remainder;
    if max >= 2 && n > max { NextRemainder(n - max - 1, max / 2); }
    if max >= 2 && n == max { NoRemainder(max / 2); }
  }

  lemma NoRemainder(m: nat)
    requires m > 0
    ensures Remainder(0, m) == 0
  {
  }

  /** The latest tokens are remembered, about half of the room at least; with room for two, never more than the room. */
  lemma KeptBounds(max: int, n: nat)
    ensures Kept(max, n) >= if n <= max + 1 - Half(max) then n else max + 1 - Half(max)
    ensures max >= 2 ==> Kept(max, n) <= max
  {
    hide Remainder;
  }

  lemma UsedSnoc(max: int, accepted: seq<string>, token: string)
    ensures Used(max, accepted + [token]) == Marked(max, Used(max, accepted), token)
  {
    assert (accepted + [token])[..|accepted|] == accepted;
  }

  lemma SuffixSnoc(max: int, all: seq<string>, k: nat, token: string)
    requires k <= |all|
    ensures var more := if k + 1 > max then k + 1 - Half(max) else k + 1;
              0 <= more <= |all| + 1 && Marked(max, all[|all| - k..], token) == (all + [token])[|all| + 1 - more..]
  {
  }

  /** The tokens remembered are exactly the latest `Kept` accepted ones. */
  lemma {:induction false} UsedIsSuffix(max: int, accepted: seq<string>)
    ensures Used(max, accepted) == accepted[|accepted| - Kept(max, |accepted|)..]
  {
    hide Remainder;
    if accepted != [] {
      var front, token := accepted[..|accepted| - 1], accepted[|accepted| - 1];
      assert accepted == front + [token];
      UsedIsSuffix(max, front);
      UsedSnoc(max, front, token);
      hide Kept, Half, Marked, Used;
      KeptNext(max, |front|);
      SuffixSnoc(max, front, Kept(max, |front|), token);
    }
  }

  // ---------------------------------------------------------------------------
  // Runs
  // ---------------------------------------------------------------------------

  /** Each token was not among the remembered ones when it was accepted. */
  ghost predicate AcceptedRun(max: int, accepted: seq<string>) {
    forall i :: 0 <= i < |accepted| ==> accepted[i] !in Used(max, accepted[..i])
  }

  lemma LaterIsIn(all: seq<string>, from: int, i: int)
    ensures 0 <= from <= i < |all| ==> all[i] in all[from..]
  {
    if 0 <= from <= i < |all| {
      assert all[from..][i - from] == all[i];
    }
  }

  /** Between two acceptances of the same token there are at least as many others as are always remembered. */
  lemma AcceptedAgainOnlyFar(max: int, accepted: seq<string>, i: nat, j: nat)
    requires AcceptedRun(max, accepted) && i < j < |accepted| && accepted[i] == accepted[j]
    ensures j - i > Kept(max, j) && j - i > max + 1 - Half(max) && max >= 2
  {
    var before, k := accepted[..j], Kept(max, j);
    assert accepted[j] !in Used(max, before);
    hide AcceptedRun, Used, Kept;
    UsedIsSuffix(max, before);
    KeptBounds(max, j);
    LaterIsIn(before, j - k, i);
  }

  lemma RememberedOnce(max: int, accepted: seq<string>, i: nat, j: nat)
    requires AcceptedRun(max, accepted) && |accepted| - Kept(max, |accepted|) <= i < j < |accepted|
    ensures accepted[i] != accepted[j]
  {
    if accepted[i] == accepted[j] {
      AcceptedAgainOnlyFar(max, accepted, i, j);
      KeptGrows(max, j, |accepted|);
      assert false;
    }
  }

  /** What is remembered never reaches further back than before. */
  lemma {:induction false} KeptGrows(max: int, m: nat, n: nat)
    requires m <= n
    ensures m - Kept(max, m) <= n - Kept(max, n)
  {
    if m < n {
      KeptGrows(max, m, n - 1);
      KeptNext(max, n - 1);
    }
  }

  lemma SuffixAt(all: seq<string>, k: nat, i: nat)
    requires i < k <= |all|
    ensures all[|all| - k..][i] == all[|all| - k + i]
  {
  }

  /** The remembered tokens are all different. */
  lemma RememberedAreDistinct(max: int, accepted: seq<string>, i: nat, j: nat)
    requires AcceptedRun(max, accepted) && i < j < |Used(max, accepted)|
    ensures Used(max, accepted)[i] != Used(max, accepted)[j]
  {
    hide Used, Kept, AcceptedRun;
    var n, k := |accepted|, Kept(max, |accepted|);
    UsedIsSuffix(max, accepted);
    SuffixAt(accepted, k, i);
    SuffixAt(accepted, k, j);
    RememberedOnce(max, accepted, n - k + i, n - k + j);
  }

  /** Every accepted token is remembered exactly as long as no more were accepted than there is room for, or there is
      room for less than two. */
  lemma AllRememberedExactlyWhile(max: int, accepted: seq<string>)
    ensures Used(max, accepted) == accepted <==> |accepted| <= max || max < 2
  {
    UsedIsSuffix(max, accepted);
    hide Used;
    if |accepted| > max && max >= 2 {
      KeptBounds(max, |accepted|);
    }
  }

  datatype Reason = InvalidFormat | InvalidSignature | Expired | AlreadyUsed
  datatype Verification = Valid(fileId: string) | Invalid(reason: Reason)

  /** The verdict on a token, given the tokens remembered. */
  function Verify(sign: string -> string, used: seq<string>, token: string, now: int): Verification {
    match ParseToken(token)
    case None => Invalid(InvalidFormat)
    case Some(p) =>
      if p.signature != sign(Payload(p.fileId, p.expiry)) then Invalid(InvalidSignature)
      else if now > p.expiry then Invalid(Expired)
      else if token in used then Invalid(AlreadyUsed)
      else Valid(p.fileId)
  }

  /** A created token is good for its file exactly until it expires, and while it is not remembered. */
  lemma CreatedTokenVerdict(sign: string -> string, fileId: string, expiry: int, used: seq<string>, now: int)
    requires HexDigests(sign) && ValidId(fileId)
    ensures var token := CreateToken(sign, fileId, expiry).value;
              Verify(sign, used, token, now) == if now > expiry then Invalid(Expired)
                                                else if token in used then Invalid(AlreadyUsed)
                                                else Valid(fileId)
  {
    ParseInvertsCreate(sign, fileId, expiry);
  }

  /** The verdict on three parts joined by dots: the format, the signature of the id with the expiry as an integer, the
      time and the memory are looked at in this order. */
  lemma VerdictOfParts(sign: string -> string, id: string, expiryText: string, signature: string, used: seq<string>,
                       now: int)
    requires DotFree(expiryText) && DotFree(signature)
    ensures var token, expiry := id + "." + expiryText + "." + signature, ParseInt(expiryText);
              Verify(sign, used, token, now)
              == if id == "" || expiryText == "" || signature == "" || expiry.None? then Invalid(InvalidFormat)
                 else if signature != sign(id + "." + Decimal(expiry.value)) then Invalid(InvalidSignature)
                 else if expiry.value < now then Invalid(Expired)
                 else if token in used then Invalid(AlreadyUsed)
                 else Valid(id)
  {
    LastDotAt(id + "." + expiryText, signature);
    LastDotAt(id, expiryText);
    hide LastDot, ParseInt, Decimal;
  }

  /** Any text with two dots has such parts, and one with less is of no valid format. */
  lemma PartsOrNoFormat(sign: string -> string, token: string, used: seq<string>, now: int)
    ensures || (exists id, expiryText, signature :: token == id + "." + expiryText + "." + signature
                                                    && DotFree(expiryText) && DotFree(signature))
            || Verify(sign, used, token, now) == Invalid(InvalidFormat)
  {
    hide LastDot, DotFree, ParseInt;
    var last := LastDot(token);
    if last >= 0 {
      var rest := token[..last];
      var second := LastDot(rest);
      if second >= 0 {
        SplitAtLastDot(token);
        SplitAtLastDot(rest);
        var id, expiryText, signature := rest[..second], rest[second + 1..], token[last + 1..];
        assert token == id + "." + expiryText + "." + signature;
      }
    }
  }

  class TokenManager {
    const sign: string -> string
    const ttl: int
    const max: int
    // The source's Set in insertion order: no text is in it twice (RememberedAreDistinct).
    var used: seq<string>
    // The tokens accepted since the last clear, in order.
    ghost var accepted: seq<string>

    ghost predicate Valid()
      reads this
    {
      used == Used(max, accepted) && AcceptedRun(max, accepted)
    }

    constructor (sign: string -> string, ttl: int, max: int)
      ensures Valid() && this.sign == sign && this.ttl == ttl && this.max == max && accepted == []
    {
      this.sign, this.ttl, this.max := sign, ttl, max;
      used, accepted := [], [];
    }

    method Create(fileId: string, ttlOverride: Option<int>, now: int) returns (token: Option<string>)
      ensures token.Some? <==> ValidId(fileId)
      ensures token == CreateToken(sign, fileId, now + if ttlOverride.Some? then ttlOverride.value else ttl)
    {
      if !ValidId(fileId) {
        return None;
      }
      var expiry := now + if ttlOverride.Some? then ttlOverride.value else ttl;
      var payload := Payload(fileId, expiry);
      token := Some(payload + "." + sign(payload));
    }

    /** A token is accepted when it is well signed, not expired, and not among the latest accepted ones. */
    method VerifyToken(token: string, now: int) returns (v: Verification)
      requires Valid()
      modifies this
      ensures Valid() && v == Verify(sign, old(used), token, now)
      ensures accepted == if v.Valid? then old(accepted) + [token] else old(accepted)
      ensures v == Verify(sign, old(accepted)[|old(accepted)| - Kept(max, |old(accepted)|)..], token, now)
    {
      UsedIsSuffix(max, accepted);
      var parsed := ParseToken(token);
      if parsed.None? {
        return Invalid(InvalidFormat);
      }
      var p := parsed.value;
      if p.signature != sign(Payload(p.fileId, p.expiry)) {
        return Invalid(InvalidSignature);
      }
      if now > p.expiry {
        return Invalid(Expired);
      }
      if token in used {
        return Invalid(AlreadyUsed);
      }
      MarkUsed(token);
      v := Verification.Valid(p.fileId);
    }

    method MarkUsed(token: string)
      requires Valid() && token !in used
      modifies this
      ensures Valid() && accepted == old(accepted) + [token]
    {
      UsedSnoc(max, accepted, token);
      RunSnoc(max, accepted, token);
      hide Used, AcceptedRun;
      used := used + [token];
      if |used| > max {
        DropOldest(max / 2);
      }
      accepted := accepted + [token];
    }

    /** Drops that many of the oldest used tokens. */
    method DropOldest(toRemove: int)
      requires toRemove <= |used|
      modifies `used
      ensures used == if toRemove > 0 then old(used)[toRemove..] else old(used)
    {
      var count := 0;
      while used != [] && count < toRemove
        invariant 0 <= count <= |old(used)| && used == old(used)[count..] && (toRemove > 0 ==> count <= toRemove)
        invariant toRemove <= 0 ==> count == 0
      {
        assert old(used)[count..][1..] == old(used)[count + 1..];
        used := used[1..];
        count := count + 1;
      }
    }

    method ClearUsedTokens()
      modifies this
      ensures Valid() && used == [] && accepted == []
    {
      used, accepted := [], [];
    }
  }

  lemma RunSnoc(max: int, accepted: seq<string>, token: string)
    requires AcceptedRun(max, accepted) && token !in Used(max, accepted)
    ensures AcceptedRun(max, accepted + [token])
  {
    var all := accepted + [token];
    forall i | 0 <= i < |all| ensures all[i] !in Used(max, all[..i]) {
      if i < |accepted| {
        assert all[..i] == accepted[..i];
      } else {
        assert all[..i] == accepted;
      }
    }
  }
}
