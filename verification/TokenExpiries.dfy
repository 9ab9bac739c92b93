/** Download tokens whose expiry is written in any way: a fractional time to live makes a fractional expiry. */
module TokenExpiries {
  import opened DownloadTokens
  import opened Numbers
  import opened Options

  /** The token that is created when the expiry is written as `expiryText`. */
  function TokenFor(sign: string -> string, fileId: string, expiryText: string): string {
    fileId + "." + expiryText + "." + sign(fileId + "." + expiryText)
  }

  lemma CreatedIsTokenFor(sign: string -> string, fileId: string, expiry: int)
    requires ValidId(fileId)
    ensures CreateToken(sign, fileId, expiry) == Some(TokenFor(sign, fileId, Decimal(expiry)))
  {
  }

  /** A text with a dot is something, its last dot, and something without dots. */
  lemma {:induction false} SplitAtLastDot(s: string) returns (a: string, b: string)
    requires !DotFree(s)
    ensures s == a + "." + b && DotFree(b)
  {
    var front, last := s[..|s| - 1], s[|s| - 1];
    assert s == front + [last];
    if last == '.' {
      a, b := front, "";
    } else {
      a, b := SplitAtLastDot(front);
      b := b + [last];
    }
  }

  lemma NothingBeforeSignature(fileId: string, signature: string)
    requires fileId != "" && DotFree(signature)
    ensures ParseToken(fileId + "." + "" + "." + signature).None?
  {
    LastDotAt(fileId + "." + "", signature);
    LastDotAt(fileId, "");
    hide LastDot, ParseInt;
  }

  /** A token is read as one for its file exactly when its expiry is written without a dot and begins as an integer. */
  lemma ReadExactlyWhenDotFree(sign: string -> string, fileId: string, expiryText: string)
    requires HexDigests(sign) && ValidId(fileId)
    ensures var p := ParseToken(TokenFor(sign, fileId, expiryText));
              p.Some? && p.value.fileId == fileId <==> DotFree(expiryText) && ParseInt(expiryText).Some?
  {
    var signature := sign(fileId + "." + expiryText);
    assert ParseInt("").None?;
    hide ParseToken, ParseInt;
    if expiryText == "" {
      NothingBeforeSignature(fileId, signature);
    } else if DotFree(expiryText) {
      ParseParts(fileId, expiryText, signature);
    } else {
      var a, b := SplitAtLastDot(expiryText);
      assert fileId + "." + expiryText == fileId + "." + a + "." + b;
      if b == "" {
        NothingBeforeSignature(fileId + "." + a, signature);
      } else {
        ParseParts(fileId + "." + a, b, signature);
        assert |fileId + "." + a| > |fileId|;
      }
    }
  }

  lemma FractionParses(sign: string -> string, fileId: string, whole: int, fraction: string)
    requires HexDigests(sign) && ValidId(fileId)
    requires fraction != "" && forall c :: c in fraction ==> IsDigit(c)
    ensures var payload := fileId + "." + Decimal(whole) + "." + fraction;
              && TokenFor(sign, fileId, Decimal(whole) + "." + fraction) == payload + "." + sign(payload)
              && ParseToken(payload + "." + sign(payload))
                 == Some(Parsed(fileId + "." + Decimal(whole), ValueOf(fraction), sign(payload)))
  {
    var payload := fileId + "." + Decimal(whole) + "." + fraction;
    assert fileId + "." + (Decimal(whole) + "." + fraction) == payload;
    ParseIntOfDigits(fraction);
    hide ParseToken, ParseInt, Decimal;
    ParseParts(fileId + "." + Decimal(whole), fraction, sign(payload));
  }

  /** A fractional expiry is misread: its whole part joins the file id, and its fraction becomes the expiry. The token
      is never good for its file, and with a fraction without leading zeros it expires by that fraction. */
  lemma FractionIsMisread(sign: string -> string, fileId: string, whole: int, fraction: string, used: seq<string>,
                          now: int)
    requires HexDigests(sign) && ValidId(fileId)
    requires fraction != "" && forall c :: c in fraction ==> IsDigit(c)
    ensures var t := TokenFor(sign, fileId, Decimal(whole) + "." + fraction);
              && ParseToken(t) == Some(Parsed(fileId + "." + Decimal(whole), ValueOf(fraction),
                                              sign(fileId + "." + Decimal(whole) + "." + fraction)))
              && Verify(sign, used, t, now) != Valid(fileId)
              && (fraction == Decimal(ValueOf(fraction)) && now > ValueOf(fraction) ==>
                    Verify(sign, used, t, now) == Invalid(Expired))
  {
    var other := fileId + "." + Decimal(whole);
    FractionParses(sign, fileId, whole, fraction);
    assert |other| > |fileId|;
    hide ParseToken, Decimal, TokenFor, ValueOf, HexDigests;
    assert fraction == Decimal(ValueOf(fraction)) ==> Payload(other, ValueOf(fraction)) == other + "." + fraction;
  }
}
