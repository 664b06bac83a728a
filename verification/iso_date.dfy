/**
 * The calendar-date part of `Date.prototype.toISOString`, which the ledger
 * uses verbatim as its billing-period key, together with the parser that
 * inverts it. Years 0..9999 are written with four digits; other years use
 * the expanded form: a sign followed by at least six digits.
 */
module IsoDate {
  import opened Wrappers
  import opened Calendar

  predicate IsDigit(c: char) {
    '0' <= c <= '9'
  }

  predicate AllDigits(s: string) {
    forall i :: 0 <= i < |s| ==> IsDigit(s[i])
  }

  function DigitChar(k: int): (c: char)
    requires 0 <= k <= 9
    ensures IsDigit(c)
  {
    ('0' as int + k) as char
  }

  function DigitValue(c: char): int
    requires IsDigit(c)
  {
    c as int - '0' as int
  }

  function Pow10(n: nat): nat {
    if n == 0 then 1 else 10 * Pow10(n - 1)
  }

  /** Decimal digits of `n`, left-padded with zeros to at least `width` characters. */
  function Digits(n: nat, width: nat): (s: string)
    ensures AllDigits(s)
    ensures |s| >= width
    decreases n + width
  {
    if n == 0 && width == 0 then []
    else Digits(n / 10, if width == 0 then 0 else width - 1) + [DigitChar(n % 10)]
  }

  /** The number a string of decimal digits denotes. */
  function Value(s: string): nat
    requires AllDigits(s)
  {
    if s == [] then 0 else Value(s[..|s| - 1]) * 10 + DigitValue(s[|s| - 1])
  }

  /** Reading the digits back gives the number written. */
  lemma {:induction false} ValueOfDigits(n: nat, width: nat)
    ensures Value(Digits(n, width)) == n
    decreases n + width
  {
    if n == 0 && width == 0 {
    } else {
      var w' := if width == 0 then 0 else width - 1;
      var s := Digits(n, width);
      ValueOfDigits(n / 10, w');
      assert s[..|s| - 1] == Digits(n / 10, w');
    }
  }

  /** A number below 10^width is written with exactly `width` characters. */
  lemma {:induction false} DigitsWidth(n: nat, width: nat)
    requires n < Pow10(width)
    ensures |Digits(n, width)| == width
    decreases width
  {
    if width > 0 {
      DigitsWidth(n / 10, width - 1);
    }
  }

  /**
   * Exactly `width` digits of `n`, most significant first. `Digits` is the
   * padded rendering the keys use; this form recurses on the width alone, so
   * for a concrete width it unfolds a fixed number of times, which is what
   * the facts about two- and four-digit fields below are proved through.
   */
  function FixedDigits(n: nat, width: nat): string
    requires n < Pow10(width)
  {
    if width == 0 then [] else FixedDigits(n / 10, width - 1) + [DigitChar(n % 10)]
  }

  lemma {:induction false} DigitsAreFixed(n: nat, width: nat)
    requires n < Pow10(width)
    ensures Digits(n, width) == FixedDigits(n, width)
    decreases width
  {
    if width > 0 {
      DigitsAreFixed(n / 10, width - 1);
    }
  }

  /** The year as `toISOString` writes it. */
  function YearText(y: int): string {
    if 0 <= y <= 9999 then Digits(y, 4)
    else if y < 0 then "-" + Digits(-y, 6)
    else "+" + Digits(y, 6)
  }

  /** `YYYY-MM-DD`: the billing-period key of a date. */
  function DateKey(d: Date): (k: string)
    requires Valid(d)
    ensures |k| >= 10 && k[|k| - 6] == '-' && k[|k| - 3] == '-'
    ensures AllDigits(k[|k| - 5..|k| - 3]) && AllDigits(k[|k| - 2..])
  {
    DigitsWidth(d.month, 2);
    DigitsWidth(d.day, 2);
    YearText(d.year) + "-" + Digits(d.month, 2) + "-" + Digits(d.day, 2)
  }

  function ParseYear(s: string): Option<int> {
    if |s| == 4 && AllDigits(s) then Some(Value(s))
    else if |s| >= 7 && (s[0] == '-' || s[0] == '+') && AllDigits(s[1..]) then
      var magnitude: int := Value(s[1..]);
      Some(if s[0] == '-' then -magnitude else magnitude)
    else None
  }

  /** Reads a key of the shape `DateKey` writes; `None` for any other string. */
  function ParseKey(s: string): Option<Date> {
    if |s| < 7 then None
    else
      var year := ParseYear(s[..|s| - 6]);
      var mm, dd := s[|s| - 5..|s| - 3], s[|s| - 2..];
      if year.Some? && s[|s| - 6] == '-' && s[|s| - 3] == '-' && AllDigits(mm) && AllDigits(dd)
      then Some(Date(year.value, Value(mm), Value(dd)))
      else None
  }

  /** A year written with four digits reads back as itself. */
  lemma ShortYearRoundTrip(y: int)
    requires 0 <= y <= 9999
    ensures ParseYear(YearText(y)) == Some(y)
  {
    DigitsWidth(y, 4);
    ValueOfDigits(y, 4);
  }

  /** A year written in the expanded form reads back as itself, sign included. */
  lemma ExpandedYearRoundTrip(y: int)
    requires y < 0 || y > 9999
    ensures ParseYear(YearText(y)) == Some(y)
  {
    var n: nat := if y < 0 then -y else y;
    var digits := Digits(n, 6);
    ValueOfDigits(n, 6);
    var t := [if y < 0 then '-' else '+'] + digits;
    assert YearText(y) == t;
    assert t[1..] == digits;
  }

  /** Every year, in either form, reads back as itself. */
  lemma YearRoundTrip(y: int)
    ensures ParseYear(YearText(y)) == Some(y)
  {
    if 0 <= y <= 9999 {
      ShortYearRoundTrip(y);
    } else {
      ExpandedYearRoundTrip(y);
    }
  }

  /** The pieces of `ys + "-" + mm + "-" + dd` sit at fixed offsets from its end. */
  lemma AssembledSlices(ys: string, mm: string, dd: string)
    requires |mm| == 2 && |dd| == 2
    ensures var s := ys + "-" + mm + "-" + dd;
      && |s| == |ys| + 6
      && s[..|s| - 6] == ys
      && s[|s| - 6] == '-' && s[|s| - 3] == '-'
      && s[|s| - 5..|s| - 3] == mm
      && s[|s| - 2..] == dd
  {
    var s := ys + "-" + mm + "-" + dd;
    var n := |ys|;
    assert s[..n] == ys;
    assert s[n + 1..n + 3] == mm;
    assert s[n + 4..] == dd;
  }

  /** A year text, a dash, two digits, a dash and two digits parse back into their parts. */
  lemma ParseAssembled(ys: string, mm: string, dd: string)
    requires ParseYear(ys).Some?
    requires |mm| == 2 && |dd| == 2 && AllDigits(mm) && AllDigits(dd)
    ensures ParseKey(ys + "-" + mm + "-" + dd) == Some(Date(ParseYear(ys).value, Value(mm), Value(dd)))
  {
    AssembledSlices(ys, mm, dd);
  }

  /** The period key determines the date it was made from. */
  lemma KeyRoundTrip(d: Date)
    requires Valid(d)
    ensures ParseKey(DateKey(d)) == Some(d)
  {
    DigitsWidth(d.month, 2);
    DigitsWidth(d.day, 2);
    ValueOfDigits(d.month, 2);
    ValueOfDigits(d.day, 2);
    YearRoundTrip(d.year);
    ParseAssembled(YearText(d.year), Digits(d.month, 2), Digits(d.day, 2));
  }

  lemma FourDigits(n: nat)
    requires n < 10000
    ensures Digits(n, 4) == [DigitChar(n / 10 / 10 / 10), DigitChar(n / 10 / 10 % 10), DigitChar(n / 10 % 10), DigitChar(n % 10)]
  {
    var n1, n2, n3 := n / 10, n / 10 / 10, n / 10 / 10 / 10;
    assert n1 < 1000 && n2 < 100 && n3 < 10;
    TwoDigits(n2);
    DigitsAreFixed(n, 4);
    DigitsAreFixed(n2, 2);
    assert FixedDigits(n, 4) == FixedDigits(n1, 3) + [DigitChar(n % 10)];
    assert FixedDigits(n1, 3) == FixedDigits(n2, 2) + [DigitChar(n1 % 10)];
  }

  lemma TwoDigits(n: nat)
    requires n < 100
    ensures Digits(n, 2) == [DigitChar(n / 10), DigitChar(n % 10)]
  {
    DigitsAreFixed(n, 2);
    assert FixedDigits(n, 2) == FixedDigits(n / 10, 1) + [DigitChar(n % 10)];
    assert FixedDigits(n / 10, 1) == [DigitChar(n / 10)];
  }

  /** A key of a year 0..9999 is ten characters: four year digits, then two digits each for month and day. */
  lemma KeyLayout(d: Date)
    requires Valid(d) && 0 <= d.year <= 9999
    ensures DateKey(d) == Digits(d.year, 4) + ['-', DigitChar(d.month / 10), DigitChar(d.month % 10), '-', DigitChar(d.day / 10), DigitChar(d.day % 10)]
    ensures |DateKey(d)| == 10
  {
    TwoDigits(d.month);
    TwoDigits(d.day);
    DigitsWidth(d.year, 4);
  }

  /** Two valid dates share a key only when they are the same date. */
  lemma KeyInjective(a: Date, b: Date)
    requires Valid(a) && Valid(b)
    ensures DateKey(a) == DateKey(b) <==> a == b
  {
    KeyRoundTrip(a);
    KeyRoundTrip(b);
  }
}
