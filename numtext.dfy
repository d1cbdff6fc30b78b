/**
 * Decimal text of numbers: the digit grouping, half-even rounding and
 * fixed-point formats used by the printable report, and the numeric-text
 * reading that the project recompute applies to table cells.
 *
 * Values are exact reals, so the formats are Python's `format` applied to the
 * exact value of the float; the binary representation of floats is not modelled.
 */
module NumText {
  import opened Wrappers

  predicate IsDigit(c: char) { '0' <= c <= '9' }

  predicate AllDigits(s: string) { forall i :: 0 <= i < |s| ==> IsDigit(s[i]) }

  function DigitChar(d: nat): (c: char)
    requires d < 10
    ensures IsDigit(c)
  {
    ('0' as int + d) as char
  }

  function DigitValue(c: char): (d: nat)
    requires IsDigit(c)
    ensures d < 10 && DigitChar(d) == c
  {
    (c as int - '0' as int) as nat
  }

  function Abs(x: real): (a: real)
    ensures a >= 0.0 && (a == x || a == -x)
  {
    if x < 0.0 then -x else x
  }

  /** Python's `str` of a non-negative int: decimal digits, no leading zero except for 0 itself. */
  function Digits(n: nat): (s: string)
    ensures 1 <= |s| && AllDigits(s)
    ensures s[0] == '0' <==> n == 0
    ensures n < 10 ==> |s| == 1
    ensures n < 100 ==> |s| <= 2
    ensures n < 1000 ==> |s| <= 3
  {
    if n < 10 then [DigitChar(n)] else Digits(n / 10) + [DigitChar(n % 10)]
  }

  /** The value of a string of decimal digits (the empty string reads as 0). */
  function ParseNat(s: string): nat
    requires AllDigits(s)
  {
    if s == [] then 0 else ParseNat(s[..|s| - 1]) * 10 + DigitValue(s[|s| - 1])
  }

  /** Digit strings that `Digits` can produce: non-empty, no superfluous leading zero. */
  predicate Canonical(s: string)
  {
    1 <= |s| && AllDigits(s) && (s[0] == '0' ==> |s| == 1)
  }

  lemma {:induction false} ParseDigits(n: nat)
    ensures ParseNat(Digits(n)) == n
  {
    if n >= 10 {
      ParseDigits(n / 10);
      var s := Digits(n);
      assert s[..|s| - 1] == Digits(n / 10);
    } else {
      assert Digits(n)[..0] == [];
    }
  }

  lemma {:induction false} DigitsOfParse(s: string)
    requires Canonical(s)
    ensures Digits(ParseNat(s)) == s
  {
    var init, last := s[..|s| - 1], s[|s| - 1];
    if init == [] {
      assert s == [last];
    } else {
      assert Canonical(init);
      DigitsOfParse(init);
      var m := ParseNat(init);
      assert m != 0 by { assert Digits(m)[0] == init[0] == s[0] != '0'; }
      var n := ParseNat(s);
      assert n / 10 == m && n % 10 == DigitValue(last);
      assert s == init + [last];
    }
  }

  // ---------------------------------------------------------------------
  // Thousands separators (the `,` option of Python's format mini-language)

  /** Exactly three digits, zero-padded. */
  function Pad3(m: nat): (s: string)
    requires m < 1000
    ensures |s| == 3 && AllDigits(s)
  {
    [DigitChar(m / 100), DigitChar(m / 10 % 10), DigitChar(m % 10)]
  }

  /**
   * A grouped numeral: every character is a digit or a comma, the commas sit
   * exactly at the positions 4, 8, 12, ... counted from the end, and the
   * leading group is not empty.
   */
  predicate ThousandsForm(s: string)
  {
    && |s| % 4 != 0
    && (forall i :: 0 <= i < |s| ==> (s[i] == ',' <==> (|s| - i) % 4 == 0))
    && (forall i :: 0 <= i < |s| && s[i] != ',' ==> IsDigit(s[i]))
  }

  /** The digits of n with a comma between each group of three, counted from the right. */
  function Grouped(n: nat): (s: string)
    ensures ThousandsForm(s)
  {
    if n < 1000 then
      Digits(n)
    else
      var g, p := Grouped(n / 1000), Pad3(n % 1000);
      ThousandsFormStep(g, p);
      g + "," + p
  }

  /** A grouped numeral followed by a comma and three more digits is still grouped. */
  lemma ThousandsFormStep(g: string, p: string)
    requires ThousandsForm(g) && |p| == 3 && AllDigits(p)
    ensures ThousandsForm(g + "," + p)
  {
    var s := g + "," + p;
    assert |s| == |g| + 4;
    forall i | 0 <= i < |s|
      ensures (s[i] == ',' <==> (|s| - i) % 4 == 0)
      ensures s[i] != ',' ==> IsDigit(s[i])
    {
      if i < |g| {
        assert s[i] == g[i];
        assert (|s| - i) % 4 == (|g| - i) % 4;
      } else if i == |g| {
        assert s[i] == ',';
      } else {
        assert s[i] == p[i - |g| - 1];
        assert 1 <= |s| - i <= 3;
      }
    }
  }

  function RemoveCommas(s: string): (r: string)
  {
    if s == [] then [] else (if s[0] == ',' then [] else [s[0]]) + RemoveCommas(s[1..])
  }

  lemma {:induction false} RemoveCommasAppend(a: string, b: string)
    ensures RemoveCommas(a + b) == RemoveCommas(a) + RemoveCommas(b)
  {
    if a != [] {
      assert (a + b)[1..] == a[1..] + b;
      RemoveCommasAppend(a[1..], b);
    } else {
      assert a + b == b;
    }
  }

  lemma {:induction false} RemoveCommasOfDigits(s: string)
    requires AllDigits(s)
    ensures RemoveCommas(s) == s
  {
    if s != [] {
      RemoveCommasOfDigits(s[1..]);
    }
  }

  /** Division of m * 10 + d by ten gives back m and d. */
  lemma DivBy10(m: nat, d: nat)
    requires d < 10
    ensures (m * 10 + d) / 10 == m && (m * 10 + d) % 10 == d
  {
  }

  /** Splitting off the last three digits of a number of four or more digits. */
  lemma DigitsSplit(n: nat)
    requires n >= 1000
    ensures Digits(n) == Digits(n / 1000) + Pad3(n % 1000)
  {
    var q, r := n / 1000, n % 1000;
    assert n == (100 * q + r / 10) * 10 + r % 10;
    DivBy10(100 * q + r / 10, r % 10);
    assert 100 * q + r / 10 == (10 * q + r / 100) * 10 + r / 10 % 10;
    DivBy10(10 * q + r / 100, r / 10 % 10);
    DivBy10(q, r / 100);
    calc {
      Digits(n);
      Digits(n / 10) + [DigitChar(n % 10)];
      Digits(n / 10 / 10) + [DigitChar(n / 10 % 10)] + [DigitChar(n % 10)];
      Digits(q) + [DigitChar(n / 10 / 10 % 10)] + [DigitChar(n / 10 % 10)] + [DigitChar(n % 10)];
      Digits(q) + Pad3(r);
    }
  }

  /** Dropping the separators from a grouped numeral gives back the plain digits. */
  lemma {:induction false} UngroupedIsDigits(n: nat)
    ensures RemoveCommas(Grouped(n)) == Digits(n)
  {
    if n < 1000 {
      RemoveCommasOfDigits(Digits(n));
    } else {
      var g, p := Grouped(n / 1000), Pad3(n % 1000);
      UngroupedIsDigits(n / 1000);
      RemoveCommasAppend(g + ",", p);
      RemoveCommasAppend(g, ",");
      RemoveCommasOfDigits(p);
      DigitsSplit(n);
    }
  }

  /** A grouped numeral reads back as the number it was made from. */
  lemma GroupedReadsBack(n: nat)
    ensures var s := RemoveCommas(Grouped(n)); AllDigits(s) && ParseNat(s) == n
  {
    UngroupedIsDigits(n);
    ParseDigits(n);
  }

  // ---------------------------------------------------------------------
  // Rounding and fixed-point formats

  /** The integer nearest to x, ties going to the even neighbour (Python's rounding in `format`). */
  function RoundHalfEven(x: real): (n: int)
    ensures x - 0.5 <= n as real <= x + 0.5
    ensures (n as real == x - 0.5 || n as real == x + 0.5) ==> n % 2 == 0
  {
    var f := x.Floor;
    var frac := x - f as real;
    if frac < 0.5 then f
    else if frac > 0.5 then f + 1
    else if f % 2 == 0 then f
    else f + 1
  }

  /** Rounding a non-negative value gives a natural number. */
  function RoundedMagnitude(x: real, scale: real): (n: nat)
    requires scale >= 1.0
    ensures Abs(x) * scale - 0.5 <= n as real <= Abs(x) * scale + 0.5
  {
    RoundHalfEven(Abs(x) * scale)
  }

  function Sign(x: real): string
  {
    if x < 0.0 then "-" else ""
  }

  /** Python's `str` of an int. */
  function IntText(k: int): string
  {
    if k < 0 then "-" + Digits(-k) else Digits(k)
  }

  /** Python's `format(x, ',.0f')`: whole units with thousands separators. */
  function WholeGrouped(x: real): (r: string)
    ensures |r| > 0 && (r[0] == '-' <==> x < 0.0) && IsDigit(r[|r| - 1])
  {
    Sign(x) + Grouped(RoundedMagnitude(x, 1.0))
  }

  /** Python's `format(x, '.1f')`: one decimal place, no separators. */
  function Fixed1(x: real): (r: string)
    ensures |r| >= 3 && (r[0] == '-' <==> x < 0.0) && r[|r| - 2] == '.' && IsDigit(r[|r| - 1])
  {
    var n := RoundedMagnitude(x, 10.0);
    Sign(x) + Digits(n / 10) + "." + [DigitChar(n % 10)]
  }

  /** Python's `format(x, ',.2f')`: two decimal places with thousands separators. */
  function Fixed2Grouped(x: real): (r: string)
    ensures |r| >= 4 && (r[0] == '-' <==> x < 0.0)
  {
    var n := RoundedMagnitude(x, 100.0);
    Sign(x) + Grouped(n / 100) + "." + [DigitChar(n / 10 % 10), DigitChar(n % 10)]
  }

  // ---------------------------------------------------------------------
  // Reading numeric text

  /** The length of the run of digits at the start of s. */
  function DigitRun(s: string): (k: nat)
    ensures k <= |s| && AllDigits(s[..k])
    ensures k < |s| ==> !IsDigit(s[k])
  {
    if s == [] || !IsDigit(s[0]) then 0 else 1 + DigitRun(s[1..])
  }

  function Pow10(k: nat): (p: nat)
    ensures p >= 1
  {
    if k == 0 then 1 else 10 * Pow10(k - 1)
  }

  /** The value of k digits m after the decimal point. */
  function Fraction(m: nat, k: nat): real
  {
    m as real / Pow10(k) as real
  }

  /** Unsigned decimal text: digits, optionally followed by a point and more digits. */
  function ParseUnsigned(s: string): (r: Option<real>)
    ensures r.Some? ==> |s| > 0 && IsDigit(s[0]) && r.value >= 0.0
  {
    var k := DigitRun(s);
    if k == 0 then None
    else if k == |s| then Some(ParseNat(s) as real)
    else if s[k] == '.' && k + 1 < |s| && AllDigits(s[k + 1..]) then
      Some(ParseNat(s[..k]) as real + Fraction(ParseNat(s[k + 1..]), |s| - k - 1))
    else None
  }

  /** Decimal text with an optional sign; anything else is not a number. */
  function ParseNumber(s: string): (r: Option<real>)
    ensures s == [] ==> r.None?
    ensures r.Some? && s[0] == '-' ==> r.value <= 0.0
    ensures r.Some? && s[0] != '-' ==> r.value >= 0.0
  {
    if |s| > 0 && (s[0] == '-' || s[0] == '+') then
      match ParseUnsigned(s[1..])
      case Some(v) => Some(if s[0] == '-' then -v else v)
      case None => None
    else ParseUnsigned(s)
  }

  lemma {:induction false} DigitRunOfDigits(s: string)
    requires AllDigits(s)
    ensures DigitRun(s) == |s|
  {
    if s != [] {
      DigitRunOfDigits(s[1..]);
    }
  }

  lemma {:induction false} DigitRunStops(a: string, b: string)
    requires AllDigits(a) && b != [] && !IsDigit(b[0])
    ensures DigitRun(a + b) == |a|
  {
    if a == [] {
      assert a + b == b;
    } else {
      assert (a + b)[1..] == a[1..] + b;
      DigitRunStops(a[1..], b);
    }
  }

  /** The text of a natural number reads back as that number. */
  lemma ParseNumberOfDigits(n: nat)
    ensures ParseNumber(Digits(n)) == Some(n as real)
  {
    var s := Digits(n);
    assert IsDigit(s[0]);
    DigitRunOfDigits(s);
    ParseDigits(n);
  }

  /** Reading text whose leading digit run of length k is followed by a point and more digits. */
  lemma ParsePointAt(u: string, k: nat)
    requires 1 <= k && k + 1 < |u| && AllDigits(u[..k]) && u[k] == '.' && AllDigits(u[k + 1..])
    requires DigitRun(u) == k
    ensures ParseUnsigned(u) == Some(ParseNat(u[..k]) as real + Fraction(ParseNat(u[k + 1..]), |u| - k - 1))
  {
  }

  /** Reading `a.f` for two runs of digits a and f. */
  lemma ParseUnsignedPoint(a: string, f: string)
    requires 1 <= |a| && AllDigits(a) && 1 <= |f| && AllDigits(f)
    ensures ParseUnsigned(a + "." + f) == Some(ParseNat(a) as real + Fraction(ParseNat(f), |f|))
  {
    var u := a + "." + f;
    assert DigitRun(u) == |a| by {
      assert u == a + ("." + f);
      DigitRunStops(a, "." + f);
    }
    ParsePointAfterRun(a, f, u);
  }

  lemma ParsePointAfterRun(a: string, f: string, u: string)
    requires 1 <= |a| && AllDigits(a) && 1 <= |f| && AllDigits(f)
    requires u == a + "." + f && DigitRun(u) == |a|
    ensures ParseUnsigned(u) == Some(ParseNat(a) as real + Fraction(ParseNat(f), |f|))
  {
    var k := |a|;
    assert u[..k] == a;
    assert u[k] == '.';
    assert u[k + 1..] == f;
    ParsePointAt(u, k);
  }

  /** A leading minus sign negates the unsigned reading; no sign leaves it as it is. */
  lemma ParseSigned(sign: string, u: string, v: real)
    requires u != [] && IsDigit(u[0]) && (sign == "" || sign == "-")
    requires ParseUnsigned(u) == Some(v)
    ensures ParseNumber(sign + u) == Some(if sign == "-" then -v else v)
  {
    if sign == "-" {
      assert (sign + u)[1..] == u;
    } else {
      assert sign + u == u;
    }
  }

  lemma ParseNatOneDigit(d: nat)
    requires d < 10
    ensures ParseNat([DigitChar(d)]) == d
  {
    assert [DigitChar(d)][..0] == [];
  }

  lemma ParseNatTwoDigits(d1: nat, d2: nat)
    requires d1 < 10 && d2 < 10
    ensures ParseNat([DigitChar(d1), DigitChar(d2)]) == d1 * 10 + d2
  {
    assert [DigitChar(d1), DigitChar(d2)][..1] == [DigitChar(d1)];
    ParseNatOneDigit(d1);
  }

  /** Reading back the one-decimal text of the rounded magnitude n (tenths). */
  lemma ReadTenths(n: nat)
    ensures ParseUnsigned(Digits(n / 10) + "." + [DigitChar(n % 10)]) == Some(n as real / 10.0)
  {
    ParseNatOneDigit(n % 10);
    ReadOnePlace(n, [DigitChar(n % 10)]);
  }

  lemma ReadOnePlace(n: nat, f: string)
    requires |f| == 1 && AllDigits(f) && ParseNat(f) == n % 10
    ensures ParseUnsigned(Digits(n / 10) + "." + f) == Some(n as real / 10.0)
  {
    TenthsSplit(n);
    ReadPointDigits(n / 10, f, n % 10, 1);
  }

  lemma TenthsSplit(n: nat)
    ensures (n / 10) as real + Fraction(n % 10, 1) == n as real / 10.0
  {
    assert Pow10(1) == 10;
    var q, r := n / 10, n % 10;
    assert n == 10 * q + r;
  }

  /** Reading back the two-decimal text of the rounded magnitude n (hundredths). */
  lemma ReadHundredths(n: nat)
    ensures ParseUnsigned(Digits(n / 100) + "." + [DigitChar(n / 10 % 10), DigitChar(n % 10)])
         == Some(n as real / 100.0)
  {
    var d1, d2 := n / 10 % 10, n % 10;
    ParseNatTwoDigits(d1, d2);
    HundredthsSplit(n);
    ReadTwoPlaces(n, [DigitChar(d1), DigitChar(d2)]);
  }

  lemma ReadTwoPlaces(n: nat, f: string)
    requires |f| == 2 && AllDigits(f) && ParseNat(f) == n % 100
    ensures ParseUnsigned(Digits(n / 100) + "." + f) == Some(n as real / 100.0)
  {
    HundredthsSplit(n);
    ReadPointDigits(n / 100, f, n % 100, 2);
  }

  lemma HundredthsSplit(n: nat)
    ensures (n / 10 % 10) * 10 + n % 10 == n % 100
    ensures (n / 100) as real + Fraction(n % 100, 2) == n as real / 100.0
  {
    assert Pow10(2) == 100;
    var q, r := n / 100, n % 100;
    assert n == 100 * q + r;
    assert n / 10 == 10 * q + r / 10;
  }

  lemma ReadPointDigits(q: nat, f: string, m: nat, k: nat)
    requires 1 <= |f| == k && AllDigits(f) && ParseNat(f) == m
    ensures ParseUnsigned(Digits(q) + "." + f) == Some(q as real + Fraction(m, k))
  {
    ParseUnsignedPoint(Digits(q), f);
    ParseDigits(q);
  }

  /** The one-decimal text of x reads back as a value within 0.05 of x. */
  lemma Fixed1Denotes(x: real)
    ensures ParseNumber(Fixed1(x)).Some?
    ensures Abs(ParseNumber(Fixed1(x)).value - x) <= 0.05
  {
    var n := RoundedMagnitude(x, 10.0);
    var u := Digits(n / 10) + "." + [DigitChar(n % 10)];
    ReadTenths(n);
    assert IsDigit(u[0]);
    ParseSigned(Sign(x), u, n as real / 10.0);
    assert Fixed1(x) == Sign(x) + u;
  }

  /** The text of x with separators removed. */
  lemma Fixed2Ungrouped(x: real)
    ensures var n := RoundedMagnitude(x, 100.0);
      RemoveCommas(Fixed2Grouped(x)) == Sign(x) + (Digits(n / 100) + "." + [DigitChar(n / 10 % 10), DigitChar(n % 10)])
  {
    var n := RoundedMagnitude(x, 100.0);
    var f := [DigitChar(n / 10 % 10), DigitChar(n % 10)];
    var g := Grouped(n / 100);
    assert Fixed2Grouped(x) == Sign(x) + g + "." + f;
    RemoveCommasAppend(Sign(x) + g + ".", f);
    RemoveCommasAppend(Sign(x) + g, ".");
    RemoveCommasAppend(Sign(x), g);
    RemoveCommasOfDigits(f);
    UngroupedIsDigits(n / 100);
    assert RemoveCommas(Sign(x)) == Sign(x);
    assert RemoveCommas(".") == ".";
  }

  /** The two-decimal grouped text of x, separators removed, reads back as a value within 0.005 of x. */
  lemma Fixed2Denotes(x: real)
    ensures ParseNumber(RemoveCommas(Fixed2Grouped(x))).Some?
    ensures Abs(ParseNumber(RemoveCommas(Fixed2Grouped(x))).value - x) <= 0.005
  {
    var n := RoundedMagnitude(x, 100.0);
    var u := Digits(n / 100) + "." + [DigitChar(n / 10 % 10), DigitChar(n % 10)];
    Fixed2Ungrouped(x);
    ReadHundredths(n);
    assert IsDigit(u[0]);
    ParseSigned(Sign(x), u, n as real / 100.0);
  }

  /** The whole-unit grouped text of x, separators removed, reads back as a value within 0.5 of x. */
  lemma WholeGroupedDenotes(x: real)
    ensures ParseNumber(RemoveCommas(WholeGrouped(x))).Some?
    ensures Abs(ParseNumber(RemoveCommas(WholeGrouped(x))).value - x) <= 0.5
  {
    var n := RoundedMagnitude(x, 1.0);
    WholeUngrouped(x);
    var u := Digits(n);
    ReadWhole(n);
    assert IsDigit(u[0]);
    ParseSigned(Sign(x), u, n as real);
  }

  /** The whole-unit text of x with separators removed. */
  lemma WholeUngrouped(x: real)
    ensures RemoveCommas(WholeGrouped(x)) == Sign(x) + Digits(RoundedMagnitude(x, 1.0))
  {
    var n := RoundedMagnitude(x, 1.0);
    RemoveCommasAppend(Sign(x), Grouped(n));
    UngroupedIsDigits(n);
    assert RemoveCommas(Sign(x)) == Sign(x);
  }

  lemma ReadWhole(n: nat)
    ensures ParseUnsigned(Digits(n)) == Some(n as real)
  {
    DigitRunOfDigits(Digits(n));
    ParseDigits(n);
  }

  /** A whole amount is printed as its grouped digits. */
  lemma WholeGroupedOfNat(k: nat)
    ensures WholeGrouped(k as real) == Grouped(k)
  {
  }

  lemma GroupedStep(n: nat, g: string, p: string)
    requires n >= 1000 && Grouped(n / 1000) == g && Pad3(n % 1000) == p
    ensures Grouped(n) == g + "," + p
  {
  }

  /** The worked example of a thousands-separated amount. */
  lemma GroupedExample()
    ensures WholeGrouped(1234567.0) == "1,234,567"
  {
    WholeGroupedOfNat(1234567);
    GroupedSevenDigits();
  }

  lemma GroupedSevenDigits()
    ensures Grouped(1234567) == "1,234,567"
  {
    assert Grouped(1) == "1";
    assert Pad3(234) == "234";
    GroupedStep(1234, "1", "234");
    assert Pad3(567) == "567";
    GroupedStep(1234567, "1,234", "567");
  }
}
