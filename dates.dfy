/**
 * Calendar dates as Python's `datetime.date` treats them: the proleptic
 * Gregorian calendar, lexicographic comparison, `date + timedelta(days=n)`,
 * `date.toordinal()`, `date.isoformat()` and `date.fromisoformat()` for
 * the `YYYY-MM-DD` form.
 */
module Dates {
  import opened Common
  import opened Text

  datatype Date = Date(year: int, month: int, day: int)

  predicate IsLeap(y: int)
  {
    y % 4 == 0 && (y % 100 != 0 || y % 400 == 0)
  }

  function DaysInMonth(y: int, m: int): (n: int)
    requires 1 <= m <= 12
    ensures 28 <= n <= 31
  {
    if m == 2 then (if IsLeap(y) then 29 else 28)
    else if m == 4 || m == 6 || m == 9 || m == 11 then 30
    else 31
  }

  function DaysInYear(y: int): int
  {
    if IsLeap(y) then 366 else 365
  }

  /** A day that exists in the calendar. */
  predicate Valid(d: Date)
  {
    1 <= d.month <= 12 && 1 <= d.day <= DaysInMonth(d.year, d.month)
  }

  /** A day Python can represent: years `MINYEAR` = 1 to `MAXYEAR` = 9999. */
  predicate InRange(d: Date)
  {
    Valid(d) && 1 <= d.year <= 9999
  }

  /** The values of Python's `date` type. */
  type PyDate = d: Date | InRange(d) witness Date(1970, 1, 1)

  /** `a < b` */
  predicate Before(a: Date, b: Date)
  {
    a.year < b.year
    || (a.year == b.year && (a.month < b.month || (a.month == b.month && a.day < b.day)))
  }

  /** `a <= b` */
  predicate AtOrBefore(a: Date, b: Date)
  {
    Before(a, b) || a == b
  }

  /** The next day. */
  function Succ(d: Date): (e: Date)
    requires Valid(d)
    ensures Valid(e) && Before(d, e)
  {
    if d.day < DaysInMonth(d.year, d.month) then d.(day := d.day + 1)
    else if d.month < 12 then Date(d.year, d.month + 1, 1)
    else Date(d.year + 1, 1, 1)
  }

  /** The previous day. */
  function Pred(d: Date): (e: Date)
    requires Valid(d)
    ensures Valid(e) && Before(e, d)
  {
    if d.day > 1 then d.(day := d.day - 1)
    else if d.month > 1 then Date(d.year, d.month - 1, DaysInMonth(d.year, d.month - 1))
    else Date(d.year - 1, 12, 31)
  }

  /** `d + timedelta(days=n)` (negative `n` moves back). */
  function PlusDays(d: Date, n: int): (e: Date)
    requires Valid(d)
    ensures Valid(e)
    decreases if n >= 0 then n else -n
  {
    if n == 0 then d
    else if n > 0 then PlusDays(Succ(d), n - 1)
    else PlusDays(Pred(d), n + 1)
  }

  /** Days in the years before `y`, counted from year 1. */
  function DaysBeforeYear(y: int): int
    decreases if y >= 1 then y - 1 else 1 - y
  {
    if y == 1 then 0
    else if y > 1 then DaysBeforeYear(y - 1) + DaysInYear(y - 1)
    else DaysBeforeYear(y + 1) - DaysInYear(y)
  }

  /** Days in the months of year `y` before month `m`. */
  function DaysBeforeMonth(y: int, m: int): int
    requires 1 <= m <= 12
  {
    var l := if IsLeap(y) then 1 else 0;
    if m == 1 then 0 else if m == 2 then 31
    else if m == 3 then 59 + l else if m == 4 then 90 + l
    else if m == 5 then 120 + l else if m == 6 then 151 + l
    else if m == 7 then 181 + l else if m == 8 then 212 + l
    else if m == 9 then 243 + l else if m == 10 then 273 + l
    else if m == 11 then 304 + l else 334 + l
  }

  /** `d.toordinal()`: 0001-01-01 is day 1. */
  function Ordinal(d: Date): int
    requires Valid(d)
  {
    DaysBeforeYear(d.year) + DaysBeforeMonth(d.year, d.month) + d.day
  }

  /** `(b - a).days` */
  function DaysBetween(a: Date, b: Date): int
    requires Valid(a) && Valid(b)
  {
    Ordinal(b) - Ordinal(a)
  }

  lemma DaysBeforeYearStep(y: int)
    ensures DaysBeforeYear(y + 1) == DaysBeforeYear(y) + DaysInYear(y)
  {
  }

  lemma DaysBeforeMonthStep(y: int, m: int)
    requires 1 <= m < 12
    ensures DaysBeforeMonth(y, m + 1) == DaysBeforeMonth(y, m) + DaysInMonth(y, m)
  {
  }

  /** The successor is exactly one ordinal day later. */
  lemma OrdinalSucc(d: Date)
    requires Valid(d)
    ensures Ordinal(Succ(d)) == Ordinal(d) + 1
  {
    if d.day == DaysInMonth(d.year, d.month) {
      if d.month < 12 {
        DaysBeforeMonthStep(d.year, d.month);
      } else {
        DaysBeforeYearStep(d.year);
      }
    }
  }

  /** The predecessor is exactly one ordinal day earlier. */
  lemma OrdinalPred(d: Date)
    requires Valid(d)
    ensures Ordinal(Pred(d)) == Ordinal(d) - 1
  {
    if d.day == 1 {
      if d.month > 1 {
        DaysBeforeMonthStep(d.year, d.month - 1);
      } else {
        DaysBeforeYearStep(d.year - 1);
      }
    }
  }

  /** Adding `n` days moves the ordinal by exactly `n`. */
  lemma {:induction false} OrdinalPlusDays(d: Date, n: int)
    requires Valid(d)
    ensures Ordinal(PlusDays(d, n)) == Ordinal(d) + n
    decreases if n >= 0 then n else -n
  {
    if n > 0 {
      OrdinalSucc(d);
      OrdinalPlusDays(Succ(d), n - 1);
    } else if n < 0 {
      OrdinalPred(d);
      OrdinalPlusDays(Pred(d), n + 1);
    }
  }

  lemma {:induction false} DaysBeforeYearMono(y1: int, y2: int)
    requires y1 < y2
    ensures DaysBeforeYear(y1) + DaysInYear(y1) <= DaysBeforeYear(y2)
    decreases y2 - y1
  {
    DaysBeforeYearStep(y1);
    if y1 + 1 < y2 {
      DaysBeforeYearMono(y1 + 1, y2);
      DaysBeforeYearStep(y1 + 1);
    }
  }

  lemma {:induction false} DaysBeforeMonthMono(y: int, m1: int, m2: int)
    requires 1 <= m1 < m2 <= 12
    ensures DaysBeforeMonth(y, m1) + DaysInMonth(y, m1) <= DaysBeforeMonth(y, m2)
    decreases m2 - m1
  {
    DaysBeforeMonthStep(y, m1);
    if m1 + 1 < m2 {
      DaysBeforeMonthMono(y, m1 + 1, m2);
    }
  }

  /** Calendar order and ordinal order agree. */
  lemma BeforeIffOrdinalLess(a: Date, b: Date)
    requires Valid(a) && Valid(b)
    ensures Before(a, b) <==> Ordinal(a) < Ordinal(b)
    ensures a == b <==> Ordinal(a) == Ordinal(b)
  {
    if Before(a, b) {
      OrdinalStrictlyIncreasing(a, b);
    } else if Before(b, a) {
      OrdinalStrictlyIncreasing(b, a);
    }
  }

  lemma OrdinalStrictlyIncreasing(a: Date, b: Date)
    requires Valid(a) && Valid(b) && Before(a, b)
    ensures Ordinal(a) < Ordinal(b)
  {
    assert DaysBeforeMonth(a.year, a.month) + DaysInMonth(a.year, a.month) <= DaysInYear(a.year);
    if a.year < b.year {
      DaysBeforeYearMono(a.year, b.year);
    } else if a.month < b.month {
      DaysBeforeMonthMono(a.year, a.month, b.month);
    }
  }

  /** `d.isoformat()`: `YYYY-MM-DD`. */
  function Iso(d: Date): (s: string)
    requires InRange(d)
    ensures |s| == 10
  {
    Padded(d.year, 4) + "-" + Padded(d.month, 2) + "-" + Padded(d.day, 2)
  }

  /** `date.fromisoformat(s)` for the `YYYY-MM-DD` form; `None` where it raises `ValueError`. */
  function ParseIso(s: string): (r: Option<Date>)
    ensures r.Some? ==> InRange(r.value)
  {
    if |s| == 10 && s[4] == '-' && s[7] == '-'
       && AllDigits(s[..4]) && AllDigits(s[5..7]) && AllDigits(s[8..])
    then
      var d := Date(DigitsValue(s[..4]), DigitsValue(s[5..7]), DigitsValue(s[8..]));
      if InRange(d) then Some(d) else None
    else None
  }

  /** Parsing the ISO rendering of a date gives the date back. */
  lemma IsoRoundTrip(d: Date)
    requires InRange(d)
    ensures ParseIso(Iso(d)) == Some(d)
  {
    var s := Iso(d);
    assert s[..4] == Padded(d.year, 4);
    assert s[5..7] == Padded(d.month, 2);
    assert s[8..] == Padded(d.day, 2);
    PaddedRoundTrip(d.year, 4);
    PaddedRoundTrip(d.month, 2);
    PaddedRoundTrip(d.day, 2);
  }

  /** Zero-padding the value of a digit string of width `w` gives the string back. */
  lemma {:induction false} PaddedOfDigits(t: string)
    requires AllDigits(t)
    ensures Padded(DigitsValue(t), |t|) == t
    decreases |t|
  {
    if t != [] {
      var t' := t[..|t| - 1];
      PaddedOfDigits(t');
      var v := DigitsValue(t);
      assert v / 10 == DigitsValue(t');
      assert v % 10 == DigitValue(t[|t| - 1]);
      assert t == t' + [t[|t| - 1]];
    }
  }

  /** Only canonical renderings parse: a parsed string is the ISO form of its date. */
  lemma ParseIsoCanonical(s: string)
    requires ParseIso(s).Some?
    ensures Iso(ParseIso(s).value) == s
  {
    PaddedOfDigits(s[..4]);
    PaddedOfDigits(s[5..7]);
    PaddedOfDigits(s[8..]);
    assert s == s[..4] + "-" + s[5..7] + "-" + s[8..];
  }

  /** An ISO rendering consists of digits and hyphens only; it never holds an underscore. */
  lemma IsoHasNoUnderscore(d: Date)
    requires InRange(d)
    ensures '_' !in Iso(d)
  {
    var s := Iso(d);
    assert forall i :: 0 <= i < |s| ==> IsDigit(s[i]) || s[i] == '-';
  }
}
