/** Calendar dates as pandas timestamps carry them at day granularity, their
    `strftime('%Y-%m-%d')` rendering, and the recency order used by
    `sort_values(by='last_updated')`. */
module Dates {
  import opened Optional
  import opened Text

  type Year = y: int | 1 <= y <= 9999 witness 1
  type Month = m: int | 1 <= m <= 12 witness 1
  type Day = d: int | 1 <= d <= 31 witness 1

  datatype Date = Date(year: Year, month: Month, day: Day)

  /** `a <= b` on timestamps: lexicographic on (year, month, day). */
  predicate NotAfter(a: Date, b: Date) {
    a.year < b.year
    || (a.year == b.year && (a.month < b.month || (a.month == b.month && a.day <= b.day)))
  }

  lemma NotAfterIsTotalOrder()
    ensures forall a: Date :: NotAfter(a, a)
    ensures forall a: Date, b: Date :: NotAfter(a, b) || NotAfter(b, a)
    ensures forall a: Date, b: Date :: NotAfter(a, b) && NotAfter(b, a) ==> a == b
    ensures forall a: Date, b: Date, c: Date :: NotAfter(a, b) && NotAfter(b, c) ==> NotAfter(a, c)
  {
  }

  function Pow10(n: nat): (r: nat)
    ensures r >= 1
  {
    if n == 0 then 1 else 10 * Pow10(n - 1)
  }

  /** The last `width` decimal digits of `n`, zero-padded. */
  function Digits(n: nat, width: nat): (r: string)
    ensures |r| == width
    ensures forall k :: 0 <= k < |r| ==> IsDigit(r[k])
  {
    if width == 0 then [] else Digits(n / 10, width - 1) + [DigitChar(n % 10)]
  }

  lemma {:induction false} DigitsRoundTrip(n: nat, width: nat)
    requires n < Pow10(width)
    ensures DigitsValue(Digits(n, width)) == n
  {
    if width > 0 {
      var s := Digits(n, width);
      assert s[..|s| - 1] == Digits(n / 10, width - 1);
      DigitsRoundTrip(n / 10, width - 1);
    }
  }

  /** The shape `YYYY-MM-DD`: ten characters, digits except the two dashes. */
  predicate IsIsoText(s: string) {
    && |s| == 10
    && s[4] == '-' && s[7] == '-'
    && forall k :: 0 <= k < 10 && k != 4 && k != 7 ==> IsDigit(s[k])
  }

  /** `strftime('%Y-%m-%d')`. */
  function Format(d: Date): (r: string)
    ensures IsIsoText(r)
  {
    Digits(d.year, 4) + "-" + Digits(d.month, 2) + "-" + Digits(d.day, 2)
  }

  /** Reads a `YYYY-MM-DD` text back into a date, if its fields are in range. */
  function ReadIso(s: string): Option<Date>
    requires IsIsoText(s)
  {
    var y := DigitsValue(s[0..4]);
    var m := DigitsValue(s[5..7]);
    var d := DigitsValue(s[8..10]);
    if 1 <= y <= 9999 && 1 <= m <= 12 && 1 <= d <= 31 then Some(Date(y, m, d)) else None
  }

  /** Formatting loses nothing: the rendered text reads back as the same date. */
  lemma FormatRoundTrip(d: Date)
    ensures ReadIso(Format(d)) == Some(d)
  {
    var s := Format(d);
    assert s[0..4] == Digits(d.year, 4);
    assert s[5..7] == Digits(d.month, 2);
    assert s[8..10] == Digits(d.day, 2);
    DigitsRoundTrip(d.year, 4);
    DigitsRoundTrip(d.month, 2);
    DigitsRoundTrip(d.day, 2);
  }

  /** An ISO date text has no whitespace and no lower-case letter. */
  lemma IsoTextIsCanonical(s: string)
    requires IsIsoText(s)
    ensures IsStripped(s) && IsUpperCase(s)
  {
  }
}
