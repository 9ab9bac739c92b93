/** Writing integers, reading them back, and rounding. */
module Numbers {
  import opened Options
  import opened Texts

  const DIGITS := "0123456789"

  predicate IsDigit(c: char) {
    '0' <= c <= '9'
  }

  function DigitValue(c: char): nat
    requires IsDigit(c)
  {
    (c as int) - ('0' as int)
  }

  function Digits(n: nat): string {
    if n < 10 then [DIGITS[n]] else Digits(n / 10) + [DIGITS[n % 10]]
  }

  /** How a template string writes an integer. */
  function Decimal(n: int): string {
    if n < 0 then "-" + Digits(-n) else Digits(n)
  }

  /** The leading digits of a text. */
  function LeadingDigits(s: string): string {
    if s == "" || !IsDigit(s[0]) then "" else [s[0]] + LeadingDigits(s[1..])
  }

  function ValueOf(digits: string): nat
    requires forall c :: c in digits ==> IsDigit(c)
  {
    if digits == "" then 0
    else 10 * ValueOf(digits[..|digits| - 1]) + DigitValue(digits[|digits| - 1])
  }

  function SkipSpaces(s: string): string {
    if s != "" && IsSpace(s[0]) then SkipSpaces(s[1..]) else s
  }

  lemma {:induction false} LeadingDigitsAreDigits(s: string)
    ensures forall c :: c in LeadingDigits(s) ==> IsDigit(c)
  {
    if s != "" && IsDigit(s[0]) { LeadingDigitsAreDigits(s[1..]); }
  }

  /** The integer at the start of a text: spaces, a sign and digits, whatever follows them. */
  function ParseInt(s: string): Option<int> {
    var t := SkipSpaces(s);
    var negative := t != "" && t[0] == '-';
    var digits := LeadingDigits(if negative || (t != "" && t[0] == '+') then t[1..] else t);
    LeadingDigitsAreDigits(if negative || (t != "" && t[0] == '+') then t[1..] else t);
    if digits == "" then None
    else if negative then Some(-(ValueOf(digits) as int))
    else Some(ValueOf(digits))
  }

  lemma {:induction false} DigitsAreDigits(n: nat)
    ensures Digits(n) != "" && forall c :: c in Digits(n) ==> IsDigit(c)
  {
    if n >= 10 { DigitsAreDigits(n / 10); }
  }

  lemma {:induction false} DigitsValue(n: nat)
    ensures (forall c :: c in Digits(n) ==> IsDigit(c)) && ValueOf(Digits(n)) == n
  {
    DigitsAreDigits(n);
    if n >= 10 {
      DigitsValue(n / 10);
      assert Digits(n)[..|Digits(n)| - 1] == Digits(n / 10);
    }
  }

  lemma {:induction false} AllDigitsLead(s: string)
    requires forall c :: c in s ==> IsDigit(c)
    ensures LeadingDigits(s) == s
  {
    if s != "" { AllDigitsLead(s[1..]); }
  }

  lemma ParseIntOfDigits(digits: string)
    requires digits != "" && forall c :: c in digits ==> IsDigit(c)
    ensures ParseInt(digits) == Some(ValueOf(digits) as int)
    ensures ParseInt("-" + digits) == Some(-(ValueOf(digits) as int))
  {
    AllDigitsLead(digits);
    assert digits[0] in digits;
    assert ("-" + digits)[1..] == digits;
    hide LeadingDigits, ValueOf;
  }

  /** An integer that is written out is read back. */
  lemma ParseIntInvertsDecimal(n: int)
    ensures ParseInt(Decimal(n)) == Some(n)
  {
    var m: nat := if n < 0 then -n else n;
    DigitsAreDigits(m);
    DigitsValue(m);
    hide Digits, ParseInt;
    ParseIntOfDigits(Digits(m));
  }

  /** Rounding half up. */
  function Round(x: real): int {
    (x + 0.5).Floor
  }

  lemma RoundIsNear(x: real)
    ensures x - 0.5 < Round(x) as real <= x + 0.5
  {
  }
}
