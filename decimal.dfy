/**
 * Python's `str(n)` for integers, as used to build page file names
 * ("<offset>-<offset+limit>.json") and day keys ("month/day/year"),
 * together with the inverse parser that reads such a number back.
 */
module Decimal {
  import opened Wrappers

  predicate IsDigit(c: char) {
    '0' <= c <= '9'
  }

  function DigitChar(d: nat): (c: char)
    requires d < 10
    ensures IsDigit(c) && DigitValue(c) == d
  {
    (48 + d) as char
  }

  function DigitValue(c: char): nat
    requires IsDigit(c)
  {
    (c as int) - 48
  }

  predicate AllDigits(s: string) {
    forall i :: 0 <= i < |s| ==> IsDigit(s[i])
  }

  /** `str(n)` for a non-negative integer: its decimal digits, most significant first. */
  function Digits(n: nat): (s: string)
    ensures |s| > 0
    decreases n
  {
    if n < 10 then [DigitChar(n)] else Digits(n / 10) + [DigitChar(n % 10)]
  }

  /** `str(n)` consists of digits only, and of exactly one when `n` is below ten. */
  lemma {:induction false} DigitsAreDigits(n: nat)
    ensures AllDigits(Digits(n))
    ensures n < 10 <==> |Digits(n)| == 1
    decreases n
  {
    if n >= 10 {
      DigitsAreDigits(n / 10);
      var s := Digits(n);
      assert s == Digits(n / 10) + [DigitChar(n % 10)];
      assert forall i :: 0 <= i < |s| - 1 ==> s[i] == Digits(n / 10)[i];
    }
  }

  /** `str(n)` has no leading zero: its first digit is `0` only for zero itself. */
  lemma {:induction false} DigitsUnpadded(n: nat)
    ensures Digits(n)[0] == '0' ==> n == 0
    decreases n
  {
    if n >= 10 {
      DigitsUnpadded(n / 10);
      assert Digits(n)[0] == Digits(n / 10)[0];
    }
  }

  /** `str(i)` for any integer: a minus sign in front of the digits of a negative number. */
  function IntToString(i: int): (s: string)
    ensures |s| > 0
  {
    if i < 0 then "-" + Digits(-i) else Digits(i)
  }

  /** `str(i)` starts with a digit exactly when `i` is not negative. */
  lemma IntToStringSign(i: int)
    ensures i >= 0 <==> IsDigit(IntToString(i)[0])
  {
    if i >= 0 {
      DigitsAreDigits(i);
    }
  }

  /** The number a string of decimal digits denotes. */
  function Value(s: string): nat
    requires AllDigits(s)
  {
    if s == [] then 0 else Value(s[..|s| - 1]) * 10 + DigitValue(s[|s| - 1])
  }

  /** The length of the longest run of digits at the front of `s`. */
  function DigitRun(s: string): (n: nat)
    ensures n <= |s| && AllDigits(s[..n])
    ensures n < |s| ==> !IsDigit(s[n])
  {
    if s == [] || !IsDigit(s[0]) then 0 else 1 + DigitRun(s[1..])
  }

  /** A number read from the front of a string, and what follows it. */
  datatype Parsed = Parsed(value: int, rest: string)

  /** Reads a non-negative decimal number from the front of `s`. */
  function ParseNat(s: string): (p: Option<Parsed>)
    ensures p.Some? ==> p.value.value >= 0 && p.value.rest == s[DigitRun(s)..]
  {
    var n := DigitRun(s);
    if n == 0 then None else Some(Parsed(Value(s[..n]), s[n..]))
  }

  /** Reads an integer (an optional minus sign, then digits) from the front of `s`. */
  function ParseInt(s: string): Option<Parsed> {
    if |s| > 0 && s[0] == '-' then Negated(ParseNat(s[1..])) else ParseNat(s)
  }

  function Negated(p: Option<Parsed>): Option<Parsed> {
    if p.None? then None else Some(Parsed(-p.value.value, p.value.rest))
  }

  /** A string that a number may be followed by without the digits running on. */
  predicate Delimited(rest: string) {
    rest == [] || !IsDigit(rest[0])
  }

  lemma {:induction false} ValueOfDigits(n: nat)
    ensures AllDigits(Digits(n)) && Value(Digits(n)) == n
    decreases n
  {
    var s := Digits(n);
    DigitsAreDigits(n);
    if n >= 10 {
      DigitsAreDigits(n / 10);
      assert s[..|s| - 1] == Digits(n / 10);
      ValueOfDigits(n / 10);
    }
  }

  lemma {:induction false} DigitRunOfDigits(ds: string, rest: string)
    requires AllDigits(ds) && Delimited(rest)
    ensures DigitRun(ds + rest) == |ds|
  {
    if ds != [] {
      assert (ds + rest)[1..] == ds[1..] + rest;
      DigitRunOfDigits(ds[1..], rest);
    }
  }

  /** Reading back what `str(n)` printed gives `n`, provided no digit follows. */
  lemma {:induction false} ParseNatRoundTrip(n: nat, rest: string)
    requires Delimited(rest)
    ensures ParseNat(Digits(n) + rest) == Some(Parsed(n, rest))
  {
    var ds := Digits(n);
    DigitsAreDigits(n);
    DigitRunOfDigits(ds, rest);
    assert (ds + rest)[..|ds|] == ds;
    assert (ds + rest)[|ds|..] == rest;
    ValueOfDigits(n);
  }

  /** Reading back what `str(i)` printed gives `i`, provided no digit follows. */
  lemma {:induction false} ParseIntRoundTrip(i: int, rest: string)
    requires Delimited(rest)
    ensures ParseInt(IntToString(i) + rest) == Some(Parsed(i, rest))
  {
    if i < 0 {
      ParseNegativeRoundTrip(i, rest);
    } else {
      ParseNonNegativeRoundTrip(i, rest);
    }
  }

  lemma {:induction false} ParseNegativeRoundTrip(i: int, rest: string)
    requires i < 0 && Delimited(rest)
    ensures ParseInt(IntToString(i) + rest) == Some(Parsed(i, rest))
  {
    var t := Digits(-i) + rest;
    var s := IntToString(i) + rest;
    assert s == ['-'] + t;
    ParseMinusDigits(i, rest, s, t);
  }

  lemma {:induction false} ParseMinusDigits(i: int, rest: string, s: string, t: string)
    requires i < 0 && Delimited(rest)
    requires s == ['-'] + t && t == Digits(-i) + rest
    ensures ParseInt(s) == Some(Parsed(i, rest))
  {
    assert s[0] == '-' && s[1..] == t;
    ParseNatRoundTrip(-i, rest);
    assert ParseInt(s) == Negated(ParseNat(t));
  }

  lemma {:induction false} ParseNonNegativeRoundTrip(n: nat, rest: string)
    requires Delimited(rest)
    ensures ParseInt(IntToString(n) + rest) == Some(Parsed(n, rest))
  {
    var ds := Digits(n);
    var s := IntToString(n) + rest;
    assert s[0] == ds[0];
    ParseNatRoundTrip(n, rest);
  }

  /** `str` is injective on integers. */
  lemma {:induction false} IntToStringInjective(i: int, j: int)
    requires IntToString(i) == IntToString(j)
    ensures i == j
  {
    ParseIntRoundTrip(i, []);
    ParseIntRoundTrip(j, []);
    assert IntToString(i) + [] == IntToString(i);
    assert IntToString(j) + [] == IntToString(j);
  }
}
