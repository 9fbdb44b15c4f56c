/**
 Decimal numerals as the write-ahead log prints and reads them:
 `std::to_string` / `std::stoll` / `std::stoi` for integers and `%.6f` / `std::stod`
 for prices.  Prices are integers in units of 1e-6, the precision that is printed.
 */
module Decimal {
  import opened Prelude

  predicate IsDigit(c: char) { '0' <= c <= '9' }

  predicate IsSpace(c: char) { c == ' ' || '\t' <= c <= '\r' }

  predicate AllDigits(s: string) { forall i :: 0 <= i < |s| ==> IsDigit(s[i]) }

  function Digit(d: int): (c: char)
    requires 0 <= d < 10
    ensures IsDigit(c) && DigitValue(c) == d
  {
    ('0' as int + d) as char
  }

  function DigitValue(c: char): (d: nat)
    requires IsDigit(c)
    ensures d < 10
  {
    c as int - '0' as int
  }

  /** The number a digit string denotes. */
  function Value(s: string): nat
    requires AllDigits(s)
  {
    if s == "" then 0 else Value(s[..|s| - 1]) * 10 + DigitValue(s[|s| - 1])
  }

  function Pow10(k: nat): (p: nat)
    ensures p > 0
  {
    if k == 0 then 1 else 10 * Pow10(k - 1)
  }

  /** Shortest numeral of a natural number. */
  function NatText(n: nat): (s: string)
    ensures s != "" && AllDigits(s) && Value(s) == n
    ensures n > 0 ==> s[0] != '0'
  {
    if n < 10 then [Digit(n)] else NatText(n / 10) + [Digit(n % 10)]
  }

  function IntText(v: int): string {
    if v < 0 then "-" + NatText(-v) else NatText(v)
  }

  /** `n` in exactly `k` digits, padded with zeros on the left. */
  function PaddedText(n: nat, k: nat): (s: string)
    requires n < Pow10(k)
    ensures |s| == k && AllDigits(s) && Value(s) == n
  {
    if k == 0 then "" else PaddedText(n / 10, k - 1) + [Digit(n % 10)]
  }

  const MICRO: nat := 1_000_000

  lemma MicroIsPow10()
    ensures Pow10(6) == MICRO
  {
    assert Pow10(3) == 1000;
  }

  function UnsignedPriceText(a: nat): string {
    MicroIsPow10();
    NatText(a / MICRO) + "." + PaddedText(a % MICRO, 6)
  }

  /** `%.6f` of a price held in units of 1e-6. */
  function PriceText(p: int): string {
    (if p < 0 then "-" else "") + UnsignedPriceText(if p < 0 then -p else p)
  }

  function SkipSpace(s: string): string {
    if s != "" && IsSpace(s[0]) then SkipSpace(s[1..]) else s
  }

  /** Length of the longest all-digit prefix. */
  function DigitRun(s: string): (n: nat)
    ensures n <= |s| && AllDigits(s[..n])
    ensures n < |s| ==> !IsDigit(s[n])
  {
    if s == "" || !IsDigit(s[0]) then 0
    else
      var n := 1 + DigitRun(s[1..]);
      assert s[..n] == [s[0]] + s[1..][..n - 1];
      n
  }

  /** An optional sign and what follows it. */
  function SplitSign(s: string): (int, string) {
    if s != "" && s[0] == '-' then (-1, s[1..])
    else if s != "" && s[0] == '+' then (1, s[1..])
    else (1, s)
  }

  /**
   `std::stoll` / `std::stoi`: leading white space, an optional sign and the longest run of
   digits; text after the digits is ignored; no digits or a value outside the type throws.
   */
  function ParseInt(s: string, lo: int, hi: int): Option<int> {
    var (sign, body) := SplitSign(SkipSpace(s));
    var n := DigitRun(body);
    if n == 0 then None
    else
      var v := sign * Value(body[..n]);
      if lo <= v <= hi then Some(v) else None
  }

  /** Up to six fractional digits, in units of 1e-6. */
  function Fraction(s: string): (v: nat)
    requires AllDigits(s)
  {
    if |s| >= 6 then Value(s[..6]) else Value(s) * Pow10(6 - |s|)
  }

  /** Digits with an optional fraction; at least one digit is needed. */
  function ParseUnsigned(body: string): Option<nat> {
    var n := DigitRun(body);
    var rest := body[n..];
    var tail := if rest != "" && rest[0] == '.' then rest[1..] else "";
    var m := DigitRun(tail);
    if n == 0 && m == 0 then None
    else Some(Value(body[..n]) * MICRO + Fraction(tail[..m]))
  }

  /** `std::stod` on plain decimal notation, in units of 1e-6. */
  function ParsePrice(s: string): Option<int> {
    var (sign, body) := SplitSign(SkipSpace(s));
    match ParseUnsigned(body)
    case None => None
    case Some(v) => Some(sign * v)
  }

  lemma {:induction false} DigitRunOf(digits: string, rest: string)
    requires AllDigits(digits)
    requires rest == "" || !IsDigit(rest[0])
    ensures DigitRun(digits + rest) == |digits|
    ensures (digits + rest)[..|digits|] == digits && (digits + rest)[|digits|..] == rest
  {
    var s := digits + rest;
    assert s[..|digits|] == digits && s[|digits|..] == rest;
    var n := DigitRun(s);
    assert forall i :: 0 <= i < |digits| ==> s[i] == digits[i];
    assert forall i :: 0 <= i < n ==> s[..n][i] == s[i];
  }

  /** Printing an integer and reading it back is the identity on the type's range. */
  lemma IntRoundTrip(v: int, lo: int, hi: int)
    ensures ParseInt(IntText(v), lo, hi) == if lo <= v <= hi then Some(v) else None
  {
    var digits := NatText(if v < 0 then -v else v);
    DigitRunOf(digits, "");
    assert digits + "" == digits;
    assert IsDigit(digits[0]);
    if v < 0 {
      assert IntText(v)[1..] == digits;
    }
  }

  lemma PointRead(whole: string, frac: string)
    requires AllDigits(whole) && AllDigits(frac) && whole + frac != ""
    ensures ParseUnsigned(whole + "." + frac) == Some(Value(whole) * 1_000_000 + Fraction(frac))
  {
    var tail := "." + frac;
    var body := whole + tail;
    assert body == whole + "." + frac;
    assert tail != "" && tail[0] == '.' && tail[1..] == frac;
    DigitRunOf(whole, tail);
    DigitRunOf(frac, "");
    assert frac + "" == frac;
    ReadAt(body, whole, tail, frac);
  }

  /** The parser, given where the digits of the two parts end. */
  lemma ReadAt(body: string, whole: string, tail: string, frac: string)
    requires DigitRun(body) == |whole| && body[..|whole|] == whole && body[|whole|..] == tail
    requires tail != "" && tail[0] == '.' && tail[1..] == frac && DigitRun(frac) == |frac| && whole + frac != ""
    requires AllDigits(frac)
    ensures AllDigits(whole) && ParseUnsigned(body) == Some(Value(whole) * MICRO + Fraction(frac))
  {
    assert frac[..|frac|] == frac;
  }

  lemma SignRead(negative: bool, body: string)
    requires body != "" && IsDigit(body[0])
    ensures SplitSign(SkipSpace((if negative then "-" else "") + body)) == (if negative then -1 else 1, body)
  {
    var s := (if negative then "-" else "") + body;
    if negative {
      assert s[1..] == body;
    } else {
      assert s == body;
    }
  }

  lemma UnsignedRoundTrip(a: nat)
    ensures UnsignedPriceText(a) != "" && IsDigit(UnsignedPriceText(a)[0])
    ensures ParseUnsigned(UnsignedPriceText(a)) == Some(a)
  {
    MicroIsPow10();
    var whole, frac := NatText(a / MICRO), PaddedText(a % MICRO, 6);
    PointRead(whole, frac);
    FractionIs(frac);
    assert UnsignedPriceText(a)[0] == whole[0];
  }

  /** Printing a price with six decimals and reading it back is the identity. */
  lemma PriceRoundTrip(p: int)
    ensures ParsePrice(PriceText(p)) == Some(p)
  {
    var a := if p < 0 then -p else p;
    UnsignedRoundTrip(a);
    SignRead(p < 0, UnsignedPriceText(a));
  }

  /** The text of a price: a sign if negative, the whole part without leading zeros, a point and six digits. */
  lemma PriceTextIs(p: int) returns (whole: string, frac: string)
    ensures PriceText(p) == (if p < 0 then "-" else "") + whole + "." + frac
    ensures AllDigits(whole) && whole != "" && (|whole| > 1 ==> whole[0] != '0')
    ensures AllDigits(frac) && |frac| == 6
    ensures 1000000 * Value(whole) + Value(frac) == if p < 0 then -p else p
  {
    MicroIsPow10();
    var a := if p < 0 then -p else p;
    whole, frac := NatText(a / MICRO), PaddedText(a % MICRO, 6);
    OneDigit(a / MICRO);
    assert PriceText(p) == (if p < 0 then "-" else "") + (whole + "." + frac);
  }

  lemma OneDigit(n: nat)
    ensures n == 0 ==> |NatText(n)| == 1
  {
  }

  /** A fraction of up to six digits is read exactly, so a zero behind a shorter one changes nothing. */
  lemma FractionIs(frac: string)
    requires AllDigits(frac) && |frac| <= 6
    ensures Fraction(frac) == Value(frac) * Pow10(6 - |frac|)
    ensures |frac| == 6 ==> Fraction(frac) == Value(frac)
  {
    assert frac[..|frac|] == frac;
    if |frac| == 6 { assert Pow10(0) == 1; }
  }

  lemma ZeroBehind(frac: string)
    requires AllDigits(frac) && |frac| < 6
    ensures AllDigits(frac + "0") && Fraction(frac + "0") == Fraction(frac)
  {
    var longer := frac + "0";
    assert longer[..|longer| - 1] == frac;
    FractionIs(frac);
    FractionIs(longer);
    TimesTen(Value(frac), Pow10(5 - |frac|));
  }

  lemma TimesTen(v: int, p: int)
    ensures (v * 10) * p == v * (10 * p)
  {
  }

  /** A price text means the same with a zero behind its fraction, within six digits, and with a bare point. */
  lemma TrailingZero(whole: string, frac: string)
    requires AllDigits(whole) && AllDigits(frac) && |frac| < 6 && whole + frac != ""
    ensures ParseUnsigned(whole + "." + (frac + "0")) == ParseUnsigned(whole + "." + frac)
    ensures frac == "" ==> ParseUnsigned(whole + ".") == ParseUnsigned(whole)
  {
    ZeroBehind(frac);
    PointRead(whole, frac);
    PointRead(whole, frac + "0");
    if frac == "" {
      assert whole + "." + frac == whole + ".";
      WholeRead(whole);
    }
  }

  lemma WholeRead(whole: string)
    requires AllDigits(whole) && whole != ""
    ensures ParseUnsigned(whole) == Some(Value(whole) * 1_000_000)
  {
    DigitRunOf(whole, "");
    assert whole + "" == whole;
    WholeAt(whole);
  }

  lemma WholeAt(whole: string)
    requires AllDigits(whole) && DigitRun(whole) == |whole| > 0
    ensures ParseUnsigned(whole) == Some(Value(whole) * 1_000_000)
  {
    assert whole[..|whole|] == whole && whole[|whole|..] == "";
    NoFraction();
  }

  lemma NoFraction()
    ensures DigitRun("") == 0 && Fraction(""[..0]) == 0
  {
    assert ""[..0] == "";
  }

  /** Numerals contain no separators, so they can stand in a comma-separated line. */
  predicate NumeralChars(s: string) {
    forall i :: 0 <= i < |s| ==> IsDigit(s[i]) || s[i] == '-' || s[i] == '.'
  }

  lemma NumeralsAreClean(v: int)
    ensures NumeralChars(IntText(v)) && IntText(v) != ""
    ensures NumeralChars(PriceText(v)) && PriceText(v) != ""
  {
  }
}
