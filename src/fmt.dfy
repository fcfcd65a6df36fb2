/** The two uses the engine makes of Go's fmt package for unsigned integers:
    rendering with the %d verb (Sprintf) and scanning with it (Sscanf).
    Scanning is modelled as reading the longest run of decimal digits; the
    sign, space and overflow handling of Sscanf are not part of this model. */
module Fmt {
  import opened Wrappers

  predicate IsDigit(c: char)
  {
    '0' <= c <= '9'
  }

  predicate AllDigits(s: string)
  {
    forall i :: 0 <= i < |s| ==> IsDigit(s[i])
  }

  function DigitChar(d: nat): (c: char)
    requires d < 10
    ensures IsDigit(c)
  {
    (d + '0' as int) as char
  }

  function DigitValue(c: char): (d: nat)
    requires IsDigit(c)
    ensures d < 10
    ensures DigitChar(d) == c
  {
    c as int - '0' as int
  }

  /** %d: the decimal digits of n, most significant first, without leading zeros. */
  function Decimal(n: nat): (s: string)
    ensures |s| >= 1 && AllDigits(s)
    ensures |s| > 1 ==> s[0] != '0'
    ensures n < 10 <==> |s| == 1
  {
    if n < 10 then [DigitChar(n)] else Decimal(n / 10) + [DigitChar(n % 10)]
  }

  /** The number a run of decimal digits denotes; leading zeros are allowed. */
  function DigitsValue(s: string): nat
    requires AllDigits(s)
  {
    if s == [] then 0 else DigitsValue(s[..|s| - 1]) * 10 + DigitValue(s[|s| - 1])
  }

  /** Reading back what %d wrote gives the number that was written. */
  lemma {:induction false} DecimalValue(n: nat)
    ensures DigitsValue(Decimal(n)) == n
  {
    if n >= 10 {
      var s := Decimal(n);
      assert s[..|s| - 1] == Decimal(n / 10);
      DecimalValue(n / 10);
    }
  }

  /** Length of the run of digits that starts the text. */
  function DigitRunLength(s: string): (k: nat)
    ensures k <= |s|
    ensures AllDigits(s[..k])
    ensures k < |s| ==> !IsDigit(s[k])
  {
    if s == [] || !IsDigit(s[0]) then 0 else 1 + DigitRunLength(s[1..])
  }

  /** One %d verb of Sscanf: the value of the longest leading run of digits and
      the text after it; no digits at all is a scan failure. */
  function ScanUint(s: string): (r: Option<(nat, string)>)
    ensures r.Some? <==> s != [] && IsDigit(s[0])
    ensures r.Some? ==> |r.value.1| < |s| && s[|s| - |r.value.1|..] == r.value.1
    ensures r.Some? ==> r.value.1 == [] || !IsDigit(r.value.1[0])
  {
    var k := DigitRunLength(s);
    if k == 0 then None else Some((DigitsValue(s[..k]), s[k..]))
  }

  /** A literal of a Sscanf format: the input must continue with exactly it. */
  function ScanLiteral(lit: string, s: string): (r: Option<string>)
    ensures r.Some? <==> lit <= s
    ensures r.Some? ==> lit + r.value == s
  {
    if lit <= s then Some(s[|lit|..]) else None
  }

  /** The format "%d.%d": two numbers and the unread rest of the input. */
  function ScanTwo(s: string): (r: Option<(nat, nat, string)>)
    ensures r.Some? ==> s != [] && IsDigit(s[0])
    ensures r.Some? ==> |r.value.2| < |s| && s[|s| - |r.value.2|..] == r.value.2
    ensures r.Some? ==> r.value.2 == [] || !IsDigit(r.value.2[0])
  {
    var (a, s1) :- ScanUint(s);
    var s2 :- ScanLiteral(".", s1);
    var (b, rest) :- ScanUint(s2);
    Some((a, b, rest))
  }

  /** The format "%d.%d.%d": three numbers and the unread rest of the input. */
  function ScanThree(s: string): (r: Option<(nat, nat, nat, string)>)
    ensures r.Some? ==> s != [] && IsDigit(s[0])
    ensures r.Some? ==> |r.value.3| < |s| && s[|s| - |r.value.3|..] == r.value.3
    ensures r.Some? ==> r.value.3 == [] || !IsDigit(r.value.3[0])
  {
    var (a, b, s1) :- ScanTwo(s);
    var s2 :- ScanLiteral(".", s1);
    var (c, rest) :- ScanUint(s2);
    Some((a, b, c, rest))
  }

  /** "%d.%d": it starts and ends with a digit. */
  function FormatTwo(a: nat, b: nat): (r: string)
    ensures |r| >= 3 && IsDigit(r[0]) && IsDigit(r[|r| - 1])
  {
    Decimal(a) + "." + Decimal(b)
  }

  /** "%d.%d.%d": it starts and ends with a digit. */
  function FormatThree(a: nat, b: nat, c: nat): (r: string)
    ensures |r| >= 5 && IsDigit(r[0]) && IsDigit(r[|r| - 1])
  {
    FormatTwo(a, b) + "." + Decimal(c)
  }

  /** %d reads a whole run of digits when no digit follows it. */
  lemma ScanDigits(d: string, rest: string)
    requires d != [] && AllDigits(d)
    requires rest == [] || !IsDigit(rest[0])
    ensures ScanUint(d + rest) == Some((DigitsValue(d), rest))
  {
    var s := d + rest;
    DigitRunPrefix(d, rest);
    assert s[..|d|] == d;
    assert s[|d|..] == rest;
  }

  /** %d scans back exactly what it prints, when no digit follows. */
  lemma ScanDecimal(n: nat, rest: string)
    requires rest == [] || !IsDigit(rest[0])
    ensures ScanUint(Decimal(n) + rest) == Some((n, rest))
  {
    ScanDigits(Decimal(n), rest);
    DecimalValue(n);
  }

  /** What a successful %d consumed: a non-empty digit run, followed by
      text that does not continue it. */
  lemma ScanUintParts(s: string) returns (d: string, rest: string)
    requires ScanUint(s).Some?
    ensures d != [] && AllDigits(d) && (rest == [] || !IsDigit(rest[0]))
    ensures s == d + rest && ScanUint(s).value == (DigitsValue(d), rest)
  {
    var k := DigitRunLength(s);
    d, rest := s[..k], s[k..];
  }

  /** What a successful "%d.%d" consumed. */
  lemma ScanTwoParts(s: string) returns (d1: string, d2: string, rest: string)
    requires ScanTwo(s).Some?
    ensures d1 != [] && AllDigits(d1) && d2 != [] && AllDigits(d2)
    ensures rest == [] || !IsDigit(rest[0])
    ensures s == d1 + ("." + (d2 + rest))
    ensures ScanTwo(s).value == (DigitsValue(d1), DigitsValue(d2), rest)
  {
    var s1;
    d1, s1 := ScanUintParts(s);
    var s2 := ScanLiteral(".", s1).value;
    d2, rest := ScanUintParts(s2);
  }

  /** What a successful "%d.%d.%d" consumed. */
  lemma ScanThreeParts(s: string) returns (d1: string, d2: string, d3: string, rest: string)
    requires ScanThree(s).Some?
    ensures d1 != [] && AllDigits(d1) && d2 != [] && AllDigits(d2) && d3 != [] && AllDigits(d3)
    ensures rest == [] || !IsDigit(rest[0])
    ensures s == d1 + ("." + (d2 + ("." + (d3 + rest))))
    ensures ScanThree(s).value == (DigitsValue(d1), DigitsValue(d2), DigitsValue(d3), rest)
  {
    var s1;
    d1, d2, s1 := ScanTwoParts(s);
    var s2 := ScanLiteral(".", s1).value;
    d3, rest := ScanUintParts(s2);
  }

  lemma {:induction false} DigitRunPrefix(d: string, rest: string)
    requires AllDigits(d)
    requires rest == [] || !IsDigit(rest[0])
    ensures DigitRunLength(d + rest) == |d|
  {
    if d != [] {
      assert (d + rest)[1..] == d[1..] + rest;
      DigitRunPrefix(d[1..], rest);
    }
  }

  lemma ScanLiteralPrefix(lit: string, rest: string)
    ensures ScanLiteral(lit, lit + rest) == Some(rest)
  {
    assert lit <= lit + rest;
    assert (lit + rest)[|lit|..] == rest;
  }

  /** "%d.%d" scans back what FormatTwo prints, when no digit follows. */
  lemma ScanFormatTwo(a: nat, b: nat, rest: string)
    requires rest == [] || !IsDigit(rest[0])
    ensures ScanTwo(FormatTwo(a, b) + rest) == Some((a, b, rest))
  {
    var tail := Decimal(b) + rest;
    var s1 := "." + tail;
    assert FormatTwo(a, b) + rest == Decimal(a) + s1;
    ScanDecimal(a, s1);
    ScanLiteralPrefix(".", tail);
    ScanDecimal(b, rest);
  }

  /** "%d.%d.%d" scans back what FormatThree prints, when no digit follows. */
  lemma ScanFormatThree(a: nat, b: nat, c: nat, rest: string)
    requires rest == [] || !IsDigit(rest[0])
    ensures ScanThree(FormatThree(a, b, c) + rest) == Some((a, b, c, rest))
  {
    var tail := Decimal(c) + rest;
    var s1 := "." + tail;
    assert FormatThree(a, b, c) + rest == FormatTwo(a, b) + s1;
    ScanFormatTwo(a, b, s1);
    ScanLiteralPrefix(".", tail);
    ScanDecimal(c, rest);
  }

  /** "%d.%d" followed by the same non-digit text prints distinct pairs differently. */
  lemma FormatTwoInjective(a: nat, b: nat, c: nat, d: nat, rest: string)
    requires rest == [] || !IsDigit(rest[0])
    requires FormatTwo(a, b) + rest == FormatTwo(c, d) + rest
    ensures a == c && b == d
  {
    ScanFormatTwo(a, b, rest);
    ScanFormatTwo(c, d, rest);
  }

  /** "%d.%d.%d" followed by the same non-digit text prints distinct triples differently. */
  lemma FormatThreeInjective(a: nat, b: nat, c: nat, d: nat, e: nat, f: nat, rest: string)
    requires rest == [] || !IsDigit(rest[0])
    requires FormatThree(a, b, c) + rest == FormatThree(d, e, f) + rest
    ensures a == d && b == e && c == f
  {
    ScanFormatThree(a, b, c, rest);
    ScanFormatThree(d, e, f, rest);
  }

  /** "%d.%d.%d" fails on two dotted numbers followed by nothing, or by a dot
      that no digit follows. */
  lemma ScanThreeOfTwo(a: nat, b: nat, rest: string)
    requires rest == [] || (rest[0] == '.' && (|rest| == 1 || !IsDigit(rest[1])))
    ensures ScanThree(FormatTwo(a, b) + rest) == None
  {
    ScanFormatTwo(a, b, rest);
    if rest != [] {
      assert ScanLiteral(".", rest) == Some(rest[1..]);
    }
  }

  /** Two decimal renderings are equal only for equal numbers. */
  lemma DecimalInjective(m: nat, n: nat)
    ensures Decimal(m) == Decimal(n) <==> m == n
  {
    if Decimal(m) == Decimal(n) {
      DecimalValue(m);
      DecimalValue(n);
    }
  }
}
