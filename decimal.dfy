/** Decimal text as the program writes and reads it: `Number.prototype.toFixed(2)`
    for hours, rates and costs, and `parseFloat` when totals are read back.
    Values are exact reals; a hundredth count stands for a two-decimal string. */
module Decimal {
  import opened Common

  predicate IsDigit(c: char) {
    '0' <= c <= '9'
  }

  predicate AllDigits(s: string) {
    forall i :: 0 <= i < |s| ==> IsDigit(s[i])
  }

  function DigitChar(d: nat): (c: char)
    requires d < 10
    ensures IsDigit(c) && c as int - '0' as int == d
  {
    ('0' as int + d) as char
  }

  /** The decimal digits of n, without leading zeros ("0" for zero). */
  function NatToString(n: nat): (s: string)
    ensures 1 <= |s| && AllDigits(s)
    ensures n < 10 <==> |s| == 1
    decreases n
  {
    if n < 10 then [DigitChar(n)] else NatToString(n / 10) + [DigitChar(n % 10)]
  }

  /** The value of a digit character (the scan only applies it to digits). */
  function DigitVal(c: char): (d: nat)
    ensures d < 10
    ensures IsDigit(c) ==> d == c as int - '0' as int
  {
    if IsDigit(c) then c as int - '0' as int else 0
  }

  /** Digits read left to right onto an accumulated value: each digit
      multiplies what was read so far by ten and adds itself. */
  function AccDigits(acc: nat, s: string): nat
    decreases |s|
  {
    if s == [] then acc else AccDigits(acc * 10 + DigitVal(s[0]), s[1..])
  }

  /** The number a run of decimal digits denotes. */
  function DigitsValue(s: string): nat {
    AccDigits(0, s)
  }

  /** Reading one more digit at the end. */
  lemma {:induction false} AccDigitsSnoc(acc: nat, a: string, c: char)
    ensures AccDigits(acc, a + [c]) == AccDigits(acc, a) * 10 + DigitVal(c)
    decreases |a|
  {
    if a == [] {
      assert [c][1..] == [];
    } else {
      assert (a + [c])[1..] == a[1..] + [c];
      AccDigitsSnoc(acc * 10 + DigitVal(a[0]), a[1..], c);
    }
  }

  lemma {:induction false} NatToStringValue(n: nat)
    ensures DigitsValue(NatToString(n)) == n
    decreases n
  {
    if n < 10 {
      var s := NatToString(n);
      assert s == [DigitChar(n)] && s[1..] == [];
      assert DigitVal(s[0]) == n;
      assert AccDigits(0, s) == AccDigits(DigitVal(s[0]), s[1..]);
    } else {
      NatToStringValue(n / 10);
      AccDigitsSnoc(0, NatToString(n / 10), DigitChar(n % 10));
    }
  }

  /** The value of the digits after a decimal point: ".d1d2..." is
      (d1 + ".d2...") / 10. */
  function FractionValue(f: string): (v: real)
    ensures 0.0 <= v <= 1.0
  {
    if f == [] then 0.0 else (DigitVal(f[0]) as real + FractionValue(f[1..])) / 10.0
  }

  /** How many decimal digits s starts with. */
  function DigitRun(s: string): (n: nat)
    ensures n <= |s|
    ensures n < |s| ==> !IsDigit(s[n])
  {
    if s == [] || !IsDigit(s[0]) then 0 else 1 + DigitRun(s[1..])
  }

  lemma {:induction false} DigitRunOfDigitsThen(a: string, b: string)
    requires AllDigits(a)
    requires b == [] || !IsDigit(b[0])
    ensures DigitRun(a + b) == |a|
  {
    if a != [] {
      assert (a + b)[1..] == a[1..] + b;
      DigitRunOfDigitsThen(a[1..], b);
    } else {
      assert a + b == b;
    }
  }

  /** parseFloat's scan of an unsigned number, left to right: acc holds the
      integer digits read so far and seen whether there was one. After the
      integer digits an optional '.' and the digits after it complete the
      number; at least one digit must appear on either side of the point, and
      whatever follows is ignored. */
  function ScanNumber(s: string, acc: nat, seen: bool): (r: Num)
    ensures r.Finite? ==> r.v >= 0.0
    ensures seen ==> r.Finite?
    decreases |s|
  {
    if |s| > 0 && IsDigit(s[0]) then ScanNumber(s[1..], acc * 10 + DigitVal(s[0]), true)
    else if |s| > 0 && s[0] == '.' && (seen || (|s| > 1 && IsDigit(s[1]))) then
      Finite(acc as real + FractionValue(s[1..][..DigitRun(s[1..])]))
    else if seen then Finite(acc as real)
    else NaN
  }

  /** parseFloat: an optional sign before the unsigned number; without a
      leading number the result is NaN. */
  function ParseFloat(s: string): (r: Num)
    ensures s == [] ==> r.NaN?
    ensures |s| > 0 && IsDigit(s[0]) ==> r.Finite? && r.v >= 0.0
    ensures r.Finite? && r.v < 0.0 ==> s[0] == '-'
  {
    if |s| > 0 && s[0] == '-' then
      match ScanNumber(s[1..], 0, false)
      case Finite(m) => Finite(-m)
      case NaN => NaN
    else if |s| > 0 && s[0] == '+' then ScanNumber(s[1..], 0, false)
    else ScanNumber(s, 0, false)
  }

  /** `.replace('h', '')`: drops the first 'h' only. */
  function RemoveFirstH(s: string): (r: string)
    ensures 'h' !in s ==> r == s
    ensures 'h' in s ==> |r| == |s| - 1
  {
    if s == [] then []
    else if s[0] == 'h' then s[1..]
    else [s[0]] + RemoveFirstH(s[1..])
  }

  /** The text of a non-negative hundredth count c: integer part, '.', two digits. */
  function FixedString(c: nat): (s: string)
    ensures 'h' !in s && |s| >= 4 && s[|s| - 3] == '.'
  {
    NatToString(c / 100) + "." + [DigitChar(c / 10 % 10), DigitChar(c % 10)]
  }

  /** toFixed(2) as a hundredth count: the nearest integer to 100x, ties away
      from zero (the value is rounded as an exact number). */
  function RoundHundredths(x: real): (r: int)
    ensures x >= 0.0 ==> r >= 0 && r as real - 0.5 <= x * 100.0 < r as real + 0.5
    ensures x < 0.0 ==> r <= 0 && r as real - 0.5 < x * 100.0 <= r as real + 0.5
  {
    if x >= 0.0 then (x * 100.0 + 0.5).Floor else -((-x) * 100.0 + 0.5).Floor
  }

  /** A value that already has two decimals rounds to itself. */
  lemma RoundHundredthsExact(c: int)
    ensures RoundHundredths(c as real / 100.0) == c
  {
    assert (c as real / 100.0) * 100.0 == c as real;
  }

  /** `+x.toFixed(2)`: the value rounded to hundredths. */
  function Round2(x: real): (r: real)
    ensures -0.005 <= r - x <= 0.005
    ensures (r * 100.0).Floor as real == r * 100.0
  {
    RoundHundredths(x) as real / 100.0
  }

  /** `+x.toFixed(2)` on a number that may be NaN. */
  function RoundNum(x: Num): (r: Num)
    ensures r.NaN? <==> x.NaN?
    ensures r.Finite? ==> -0.005 <= r.v - x.v <= 0.005
    ensures r.Finite? ==> r.v == Round2(x.v)
  {
    match x
    case NaN => NaN
    case Finite(v) => Finite(Round2(v))
  }

  /** `x.toFixed(2)` for the non-negative values the program formats. */
  function FormatFixed2(x: real): (s: string)
    requires x >= 0.0
    ensures |s| >= 4 && 'h' !in s && IsDigit(s[0])
  {
    FixedString(RoundHundredths(x))
  }

  /** parseFloat of "<digits>.<digits><suffix>", the suffix starting with a
      non-digit. */
  lemma ParseDecimalText(ip: string, frac: string, suffix: string)
    requires |ip| >= 1 && AllDigits(ip) && AllDigits(frac)
    requires suffix == [] || !IsDigit(suffix[0])
    ensures ParseFloat(ip + (['.'] + (frac + suffix)))
         == Finite(DigitsValue(ip) as real + FractionValue(frac))
  {
    var rest := ['.'] + (frac + suffix);
    assert (ip + rest)[0] == ip[0];
    ScanDigits(ip, rest, 0, false);
    ScanFraction(frac, suffix, DigitsValue(ip));
  }

  /** Scanning past a run of digits accumulates them. */
  lemma {:induction false} ScanDigits(ip: string, rest: string, acc: nat, seen: bool)
    requires AllDigits(ip)
    ensures ScanNumber(ip + rest, acc, seen) == ScanNumber(rest, AccDigits(acc, ip), seen || ip != [])
    decreases |ip|
  {
    if ip == [] {
      assert ip + rest == rest;
    } else {
      assert (ip + rest)[0] == ip[0] && (ip + rest)[1..] == ip[1..] + rest;
      ScanDigits(ip[1..], rest, acc * 10 + DigitVal(ip[0]), true);
    }
  }

  /** After integer digits, a point and the fraction digits add the fraction. */
  lemma ScanFraction(frac: string, suffix: string, acc: nat)
    requires AllDigits(frac)
    requires suffix == [] || !IsDigit(suffix[0])
    ensures ScanNumber(['.'] + (frac + suffix), acc, true) == Finite(acc as real + FractionValue(frac))
  {
    var rest := ['.'] + (frac + suffix);
    assert rest[1..] == frac + suffix;
    DigitRunOfDigitsThen(frac, suffix);
    assert (frac + suffix)[..|frac|] == frac;
  }

  lemma TwoDigitsValue(c: nat)
    ensures FractionValue([DigitChar(c / 10 % 10), DigitChar(c % 10)]) == (c % 100) as real / 100.0
  {
    var tens, units := c / 10 % 10, c % 10;
    var frac := [DigitChar(tens), DigitChar(units)];
    assert FractionValue(frac[1..]) == units as real / 10.0 by {
      assert frac[1..][1..] == [];
    }
    assert FractionValue(frac) == (tens as real + units as real / 10.0) / 10.0;
    LastTwoDigits(c);
  }

  lemma LastTwoDigits(c: nat)
    ensures c % 100 == c / 10 % 10 * 10 + c % 10
  {
    var q := c / 10;
    assert c == 10 * q + c % 10;
    assert q == 10 * (q / 10) + q % 10;
    assert c == 100 * (q / 10) + (q % 10 * 10 + c % 10);
  }

  /** Reading back a two-decimal string gives exactly the hundredths it was
      written from. */
  lemma ParseFixedString(c: nat)
    ensures ParseFloat(FixedString(c)) == Finite(c as real / 100.0)
  {
    var ip := NatToString(c / 100);
    var frac := [DigitChar(c / 10 % 10), DigitChar(c % 10)];
    assert FixedString(c) == ip + (['.'] + (frac + []));
    ParseDecimalText(ip, frac, []);
    assert DigitsValue(ip) == c / 100 by {
      NatToStringValue(c / 100);
    }
    TwoDigitsValue(c);
    HundredthsSplit(c);
  }

  lemma HundredthsSplit(c: nat)
    ensures (c / 100) as real + (c % 100) as real / 100.0 == c as real / 100.0
  {
    assert c == (c / 100) * 100 + c % 100;
    assert c as real == (c / 100) as real * 100.0 + (c % 100) as real;
  }

  lemma RemoveFirstHOfSuffixed(s: string)
    requires 'h' !in s
    ensures RemoveFirstH(s + "h") == s
  {
    if s != [] {
      assert (s + "h")[1..] == s[1..] + "h";
      RemoveFirstHOfSuffixed(s[1..]);
    }
  }

  /** The format/re-parse round trip of day totals: writing a value with
      toFixed(2) and an "h" suffix, then stripping the 'h' and applying
      parseFloat, yields the value rounded to hundredths. */
  lemma HoursTextRoundTrip(x: real)
    requires x >= 0.0
    ensures ParseFloat(RemoveFirstH(FormatFixed2(x) + "h")) == Finite(Round2(x))
  {
    RemoveFirstHOfSuffixed(FormatFixed2(x));
    ParseFixedString(RoundHundredths(x));
  }
}
