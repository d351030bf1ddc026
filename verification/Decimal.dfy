/**
 Decimal numbers as the C library prints and scans them: `%.kf` on the printing side, and
 on the scanning side `%f`, which takes the longest prefix that is a number.  A number is
 exact: a sign, the digits, and how many of them stand after the point.
 */
module Decimal {
  import opened Wrappers

  /** The value is (neg ? -1 : 1) * mag / 10^scale. */
  datatype Number = Number(neg: bool, mag: nat, scale: int)

  predicate IsDigit(c: char) {
    '0' <= c <= '9'
  }

  function DigitOf(d: nat): (c: char)
    requires d < 10
    ensures IsDigit(c) && ValueOf(c) == d
  {
    '0' + d as char
  }

  predicate AllDigits(s: string) {
    forall i :: 0 <= i < |s| ==> IsDigit(s[i])
  }

  function ValueOf(c: char): nat
    requires IsDigit(c)
  {
    c as nat - '0' as nat
  }

  function Pow10(k: nat): (p: nat)
    ensures p >= 1
  {
    if k == 0 then 1 else 10 * Pow10(k - 1)
  }

  // ---- printing ----

  /** Without leading zeros; zero prints as one digit. */
  function Digits(n: nat): string {
    if n < 10 then [DigitOf(n)] else Digits(n / 10) + [DigitOf(n % 10)]
  }

  /** Exactly k digits. */
  function Padded(n: nat, k: nat): string
    requires n < Pow10(k)
  {
    if k == 0 then [] else Padded(n / 10, k - 1) + [DigitOf(n % 10)]
  }

  /** Remainder, with the division law stated once. */
  function Rem(a: nat, p: nat): (r: nat)
    requires p >= 1
    ensures r < p && a == Quot(a, p) * p + r
  {
    a % p
  }

  function Quot(a: nat, p: nat): nat
    requires p >= 1
  {
    a / p
  }

  /** What `%.kf` prints for a value already rounded to k places. */
  function Fixed(d: Number): string
    requires d.scale >= 1
  {
    var k := d.scale as nat;
    (if d.neg then "-" else "") + Digits(Quot(d.mag, Pow10(k))) + "." + Padded(Rem(d.mag, Pow10(k)), k)
  }

  // ---- scanning ----

  predicate IsSpace(c: char) {
    c == ' ' || ('\t' <= c <= '\r')
  }

  function SkipSpaces(s: string): string {
    if s != [] && IsSpace(s[0]) then SkipSpaces(s[1..]) else s
  }

  /** The longest prefix of digits. */
  function DigitRun(s: string): (r: string)
    ensures |r| <= |s| && s[..|r|] == r
    ensures AllDigits(r)
    ensures |r| < |s| ==> !IsDigit(s[|r|])
  {
    if s != [] && IsDigit(s[0]) then [s[0]] + DigitRun(s[1..]) else []
  }

  function Value(s: string): nat
    requires AllDigits(s)
  {
    if s == [] then 0 else 10 * Value(s[..|s| - 1]) + ValueOf(s[|s| - 1])
  }

  /** An exponent, if there is a complete one: its value and its length. */
  function Exponent(s: string): (r: (int, nat))
    ensures r.1 <= |s|
  {
    if s == [] || (s[0] != 'e' && s[0] != 'E') then (0, 0)
    else
      var signed := |s| > 1 && (s[1] == '+' || s[1] == '-');
      var from := if signed then 2 else 1;
      var run := DigitRun(s[from..]);
      var value: int := Value(run);
      if run == [] then (0, 0) else (if signed && s[1] == '-' then -value else value, from + |run|)
  }

  /** The digits after a point, if there is one. */
  function Fraction(s: string): (r: string)
    ensures AllDigits(r)
  {
    if s != [] && s[0] == '.' then DigitRun(s[1..]) else []
  }

  function AfterFraction(s: string): string {
    if s != [] && s[0] == '.' then s[1 + |DigitRun(s[1..])|..] else s
  }

  /** Digits with at most one point, then an exponent; at least one digit. */
  function ScanUnsigned(neg: bool, s: string): Option<(Number, string)> {
    var whole := DigitRun(s);
    var frac := Fraction(s[|whole|..]);
    var rest := AfterFraction(s[|whole|..]);
    if whole == [] && frac == [] then None
    else
      var (e, n) := Exponent(rest);
      Some((Number(neg, Value(whole + frac), |frac| - e), rest[n..]))
  }

  /** `%f`: spaces, a sign, and the rest of the number. */
  function ScanNumber(input: string): Option<(Number, string)> {
    var s := SkipSpaces(input);
    if s != [] && (s[0] == '-' || s[0] == '+') then ScanUnsigned(s[0] == '-', s[1..]) else ScanUnsigned(false, s)
  }

  // ---- digits and values are inverse ----

  lemma ValueSnoc(s: string, c: char)
    requires AllDigits(s) && IsDigit(c)
    ensures AllDigits(s + [c])
    ensures Value(s + [c]) == 10 * Value(s) + ValueOf(c)
  {
    assert (s + [c])[..|s|] == s;
  }

  lemma OneDigit(c: char)
    requires IsDigit(c)
    ensures Value([c]) == ValueOf(c)
  {
    hide IsDigit, ValueOf;
    ValueSnoc([], c);
    assert [] + [c] == [c];
  }

  lemma {:induction false} DigitsValue(n: nat)
    ensures Digits(n) != [] && AllDigits(Digits(n))
    ensures Value(Digits(n)) == n
  {
    if n < 10 {
      OneDigit(DigitOf(n));
    } else {
      DigitsValue(n / 10);
      ValueSnoc(Digits(n / 10), DigitOf(n % 10));
    }
  }

  lemma {:induction false} PaddedValue(n: nat, k: nat)
    requires n < Pow10(k)
    ensures |Padded(n, k)| == k && AllDigits(Padded(n, k))
    ensures Value(Padded(n, k)) == n
  {
    if k > 0 {
      PaddedValue(n / 10, k - 1);
      ValueSnoc(Padded(n / 10, k - 1), DigitOf(n % 10));
    }
  }

  lemma Regroup3(x: int, y: int)
    ensures x * (10 * y) == 10 * (x * y)
  {
  }

  lemma {:induction false} ValueConcat(a: string, b: string)
    requires AllDigits(a) && AllDigits(b)
    ensures AllDigits(a + b)
    ensures Value(a + b) == Value(a) * Pow10(|b|) + Value(b)
    decreases |b|
  {
    if b == [] {
      assert a + b == a;
    } else {
      var b' := b[..|b| - 1];
      var c := b[|b| - 1];
      ValueConcat(a, b');
      assert b == b' + [c] && a + b == (a + b') + [c];
      ValueSnoc(a + b', c);
      ValueSnoc(b', c);
      Regroup3(Value(a), Pow10(|b'|));
      assert Pow10(|b|) == 10 * Pow10(|b'|);
      hide Value, Pow10, ValueOf, IsDigit;
    }
  }

  /** A run of digits followed by something else is taken whole. */
  lemma {:induction false} RunTaken(a: string, s: string)
    requires AllDigits(a)
    requires s == [] || !IsDigit(s[0])
    ensures DigitRun(a + s) == a
  {
    if a == [] {
      assert a + s == s;
    } else {
      assert (a + s)[0] == a[0] && (a + s)[1..] == a[1..] + s;
      RunTaken(a[1..], s);
    }
  }

  /** What may follow a printed number so that the scanner stops at its end. */
  predicate Stops(s: string) {
    s == [] || !(IsDigit(s[0]) || s[0] == 'e' || s[0] == 'E')
  }

  /** Scanning what was printed gives the number back, sign of zero included. */
  lemma ScanFixed(d: Number, s: string)
    requires d.scale >= 1 && Stops(s)
    ensures ScanNumber(Fixed(d) + s) == Some((d, s))
  {
    hide Value, DigitRun, Pow10, Quot, Rem, Digits, Padded, ScanNumber, AllDigits;
    var k := d.scale as nat;
    var p := Pow10(k);
    var whole, frac := Digits(Quot(d.mag, p)), Padded(Rem(d.mag, p), k);
    var sign := if d.neg then "-" else "";
    DigitsValue(Quot(d.mag, p));
    PaddedValue(Rem(d.mag, p), k);
    ValueConcat(whole, frac);
    Regroup(sign, whole, ".", frac, s);
    hide *;
    ScanPieces(d.neg, whole, frac, s);
  }

  lemma Regroup(a: string, b: string, c: string, d: string, e: string)
    ensures a + b + c + d + e == a + (b + (c + (d + e)))
  {
  }

  lemma ScanPieces(neg: bool, whole: string, frac: string, s: string)
    requires whole != [] && AllDigits(whole) && AllDigits(frac) && AllDigits(whole + frac) && Stops(s)
    ensures ScanNumber((if neg then "-" else "") + (whole + ("." + (frac + s))))
            == Some((Number(neg, Value(whole + frac), |frac|), s))
  {
    var t := whole + ("." + (frac + s));
    assert t[0] == whole[0];
    SignTaken(neg, t);
    ScanDigits(neg, whole, frac, s);
  }

  lemma SignTaken(neg: bool, t: string)
    requires t != [] && IsDigit(t[0])
    ensures ScanNumber((if neg then "-" else "") + t) == ScanUnsigned(neg, t)
  {
    hide ScanUnsigned;
    var input := (if neg then "-" else "") + t;
    assert if neg then input[0] == '-' && input[1..] == t else input == t;
    assert SkipSpaces(input) == input;
  }

  lemma ScanDigits(neg: bool, whole: string, frac: string, s: string)
    requires whole != [] && AllDigits(whole) && AllDigits(frac)
    requires AllDigits(whole + frac) && Stops(s)
    ensures ScanUnsigned(neg, whole + ("." + (frac + s))) == Some((Number(neg, Value(whole + frac), |frac|), s))
  {
    hide Value, DigitRun;
    var t1 := "." + (frac + s);
    RunTaken(whole, t1);
    assert (whole + t1)[|whole|..] == t1;
    FractionTaken(frac, s);
    hide Fraction, AfterFraction;
    assert Exponent(s) == (0, 0);
    assert s[0..] == s;
  }

  lemma FractionTaken(frac: string, s: string)
    requires AllDigits(frac) && Stops(s)
    ensures Fraction("." + (frac + s)) == frac && AfterFraction("." + (frac + s)) == s
  {
    hide DigitRun;
    var t1 := "." + (frac + s);
    assert t1[1..] == frac + s;
    RunTaken(frac, s);
    assert t1[1 + |frac|..] == s;
  }

  // ---- length ----

  lemma {:induction false} DigitsLength(n: nat, k: nat)
    requires 1 <= k && n < Pow10(k)
    ensures |Digits(n)| <= k
  {
    if n >= 10 {
      DigitsLength(n / 10, k - 1);
    }
  }

  lemma FixedLength(d: Number, k: nat)
    requires d.scale >= 1 && k >= 1 && Quot(d.mag, Pow10(d.scale as nat)) < Pow10(k)
    ensures |Fixed(d)| <= 1 + k + 1 + d.scale
  {
    hide Pow10, Quot, Rem;
    var p := Pow10(d.scale as nat);
    DigitsLength(Quot(d.mag, p), k);
    PaddedValue(Rem(d.mag, p), d.scale as nat);
  }

  // ---- what a printed number looks like ----

  lemma {:induction false} NoLeadingZero(n: nat)
    ensures n >= 10 ==> |Digits(n)| > 1 && Digits(n)[0] != '0'
    ensures n < 10 ==> |Digits(n)| == 1
  {
    if n >= 10 {
      NoLeadingZero(n / 10);
      DigitsValue(n / 10);
      if n / 10 < 10 {
        assert Digits(n / 10) == [DigitOf(n / 10)];
        assert ValueOf(Digits(n)[0]) == n / 10 > 0;
      }
    }
  }

  /**
   A printed number, read character by character: a minus sign exactly if negative, digits
   without a superfluous zero, a point, `scale` more digits; the digits together are `mag`.
   */
  lemma FixedMeaning(d: Number)
    requires d.scale >= 1
    ensures |Fixed(d)| >= d.scale + 2
    ensures d.neg ==> Fixed(d)[0] == '-'
    ensures !d.neg ==> IsDigit(Fixed(d)[0])
    ensures var body, k := if d.neg then Fixed(d)[1..] else Fixed(d), d.scale as nat;
            && |body| >= k + 2 && body[|body| - k - 1] == '.'
            && AllDigits(body[..|body| - k - 1]) && AllDigits(body[|body| - k..])
            && AllDigits(body[..|body| - k - 1] + body[|body| - k..])
            && Value(body[..|body| - k - 1] + body[|body| - k..]) == d.mag
            && (|body| > k + 2 ==> body[0] != '0')
  {
    hide Digits, Padded, Value, Quot, Rem, Pow10, IsDigit;
    var k, p := d.scale as nat, Pow10(d.scale as nat);
    var whole, frac := Digits(Quot(d.mag, p)), Padded(Rem(d.mag, p), k);
    DigitsValue(Quot(d.mag, p));
    PaddedValue(Rem(d.mag, p), k);
    NoLeadingZero(Quot(d.mag, p));
    ValueConcat(whole, frac);
    SignedParts(d, whole, frac);
    PointedParts(whole, frac);
  }

  lemma SignedParts(d: Number, whole: string, frac: string)
    requires d.scale >= 1 && whole != []
    requires whole == Digits(Quot(d.mag, Pow10(d.scale as nat)))
    requires frac == Padded(Rem(d.mag, Pow10(d.scale as nat)), d.scale as nat)
    ensures d.neg ==> Fixed(d)[..1] == "-" && Fixed(d)[1..] == whole + "." + frac
    ensures !d.neg ==> Fixed(d) == whole + "." + frac
  {
    hide Digits, Padded, Quot, Rem, Pow10;
    var body := whole + "." + frac;
    assert Fixed(d) == (if d.neg then "-" else "") + whole + "." + frac;
    if d.neg {
      assert Fixed(d) == "-" + body;
    } else {
      assert "" + whole == whole;
    }
  }

  lemma PointedParts(whole: string, frac: string)
    requires whole != []
    ensures var body, k := whole + "." + frac, |frac|;
            && |body| == |whole| + 1 + k && body[|body| - k - 1] == '.' && body[0] == whole[0]
            && body[..|body| - k - 1] == whole && body[|body| - k..] == frac
  {
  }

  /** For instance. */
  lemma MinusFivePointThree()
    ensures Fixed(Number(true, 53, 1)) == "-5.3"
  {
    assert Pow10(1) == 10 * Pow10(0) == 10;
    assert Quot(53, 10) == 5 && Rem(53, 10) == 3;
    assert Digits(5) == [DigitOf(5)] == "5";
    assert Padded(3, 1) == Padded(0, 0) + [DigitOf(3)];
    assert Padded(0, 0) == [] && [DigitOf(3)] == "3";
    assert "-" + "5" + "." + "3" == "-5.3";
  }
}
