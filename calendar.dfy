/** Calendar dates as the browser's `Date` arithmetic sees them: proleptic
    Gregorian dates numbered by days since 1970-01-01 (ECMAScript's `MakeDay`),
    and the short "Mon D, YYYY" rendering of `toLocaleDateString('en-US')`. */
module Calendar {
  import opened Text

  datatype CalDate = CalDate(year: int, month: int, day: int)

  predicate IsLeapYear(y: int) {
    y % 4 == 0 && (y % 100 != 0 || y % 400 == 0)
  }

  function DaysInMonth(y: int, m: int): int
    requires 1 <= m <= 12
  {
    if m == 2 then (if IsLeapYear(y) then 29 else 28)
    else if m == 4 || m == 6 || m == 9 || m == 11 then 30
    else 31
  }

  predicate ValidDate(d: CalDate) {
    1 <= d.month <= 12 && 1 <= d.day <= DaysInMonth(d.year, d.month)
  }

  /** A real calendar day: what a successful date parse yields. */
  type Date = d: CalDate | ValidDate(d) witness CalDate(1970, 1, 1)

  /** ECMAScript `DayFromYear`: days from 1970-01-01 to January 1 of year `y`
      (Dafny's `/` by a positive constant is the floor the standard uses). */
  function DayFromYear(y: int): int {
    365 * (y - 1970) + (y - 1969) / 4 - (y - 1901) / 100 + (y - 1601) / 400
  }

  /** Days in year `y` before the first of month `m0` (0-based, as `getMonth`). */
  function DaysBeforeMonth(y: int, m0: int): int
    requires 0 <= m0 < 12
  {
    [0, 31, 59, 90, 120, 151, 181, 212, 243, 273, 304, 334][m0]
      + (if m0 >= 2 && IsLeapYear(y) then 1 else 0)
  }

  /** ECMAScript `MakeDay(year, month, date)`: the month may lie outside
      0..11 and the day outside the month; both roll over, which is how
      `setMonth` and `setDate` move a date. A month already in 0..11 needs no
      carry, and that case is written out first. */
  function MakeDay(y: int, m0: int, d: int): int {
    if 0 <= m0 < 12 then DayFromYear(y) + DaysBeforeMonth(y, m0) + d - 1
    else
      var ym := y + m0 / 12;
      var mn := m0 % 12;
      DayFromYear(ym) + DaysBeforeMonth(ym, mn) + d - 1
  }

  /** Day number of a calendar date, 0 for 1970-01-01. */
  function DayNumber(d: Date): int {
    MakeDay(d.year, d.month - 1, d.day)
  }

  /** A year has 365 days, 366 when it is a leap year. */
  lemma YearLength(y: int)
    ensures DayFromYear(y + 1) - DayFromYear(y) == if IsLeapYear(y) then 366 else 365
  {
    FloorStep(y - 1969, 4, 492);
    FloorStep(y - 1901, 100, 19);
    FloorStep(y - 1601, 400, 4);
  }

  /** `d * k` is at least `k` for a positive `d` and `k`. */
  lemma MulAtLeast(d: int, k: int)
    requires d >= 1 && k > 0
    ensures d * k >= k
  {
  }

  /** Quotient and remainder are determined by `a == q * k + r` with `0 <= r < k`. */
  lemma DivModUnique(a: int, k: int, q: int, r: int)
    requires k > 0 && a == q * k + r && 0 <= r < k
    ensures a / k == q && a % k == r
  {
    var q', r' := a / k, a % k;
    assert (q - q') * k == r' - r;
    if q > q' {
      MulAtLeast(q - q', k);
    } else if q < q' {
      MulAtLeast(q' - q, k);
    }
  }

  /** Floor division by `k` steps up by one exactly when `x + 1` is a multiple of
      `k`; shifting by a multiple of `k` does not change the remainder. */
  lemma FloorStep(x: int, k: int, c: int)
    requires k > 0
    ensures (x + 1) / k - x / k == if (x + 1) % k == 0 then 1 else 0
    ensures (x + 1) % k == (x + 1 + c * k) % k
  {
    var q, r := x / k, x % k;
    if r + 1 < k {
      DivModUnique(x + 1, k, q, r + 1);
    } else {
      DivModUnique(x + 1, k, q + 1, 0);
    }
    DivModUnique(x + 1 + c * k, k, (x + 1) / k + c, (x + 1) % k);
  }

  /** Month `m` (1-based) starts `DaysInMonth` days after month `m - 1`. */
  lemma MonthLength(y: int, m: int)
    requires 1 <= m <= 12
    ensures m < 12 ==> DaysBeforeMonth(y, m) - DaysBeforeMonth(y, m - 1) == DaysInMonth(y, m)
    ensures m == 12 ==> DaysBeforeMonth(y, 11) + 31 == if IsLeapYear(y) then 366 else 365
  {
  }

  /** Going back one month from January lands 31 days earlier, in December
      of the year before. */
  lemma MonthBackFromJanuary(y: int, d: int)
    ensures MakeDay(y, -1, d) == MakeDay(y, 0, d) - 31
  {
    assert (-1) / 12 == -1 && (-1) % 12 == 11;
    YearLength(y - 1);
    MonthLength(y - 1, 12);
  }

  /** Going back one month from month `m` (1-based, after January) lands the
      length of the previous month earlier. */
  lemma MonthBack(y: int, m: int, d: int)
    requires 2 <= m <= 12
    ensures MakeDay(y, m - 2, d) == MakeDay(y, m - 1, d) - DaysInMonth(y, m - 1)
  {
    assert (m - 2) / 12 == 0 && (m - 2) % 12 == m - 2;
    assert (m - 1) / 12 == 0 && (m - 1) % 12 == m - 1;
    MonthLength(y, m - 1);
  }

  /** Calendar order: a date comes before another exactly when its year, then
      month, then day is smaller. */
  predicate Before(a: CalDate, b: CalDate) {
    a.year < b.year
    || (a.year == b.year && a.month < b.month)
    || (a.year == b.year && a.month == b.month && a.day < b.day)
  }

  /** A valid date's day number: the year's first day plus its day of the year. */
  lemma DayNumberOfDate(d: Date)
    ensures DayNumber(d) == DayFromYear(d.year) + DaysBeforeMonth(d.year, d.month - 1) + d.day - 1
  {
    assert (d.month - 1) / 12 == 0 && (d.month - 1) % 12 == d.month - 1;
  }

  /** The first day of the year after `d`'s is later than `d`. */
  lemma DayNumberBelowNextYear(d: Date)
    ensures DayNumber(d) < DayFromYear(d.year + 1)
  {
    DayNumberOfDate(d);
    YearLength(d.year);
    MonthLength(d.year, d.month);
    if d.month < 12 {
      MonthsBefore(d.year, d.month, 12);
      MonthLength(d.year, 12);
    }
  }

  /** Day numbers follow calendar order, so comparing day numbers compares dates. */
  lemma DayNumberOrder(a: Date, b: Date)
    ensures Before(a, b) <==> DayNumber(a) < DayNumber(b)
    ensures a == b <==> DayNumber(a) == DayNumber(b)
  {
    if a.year == b.year {
      if Before(a, b) {
        SameYearOrder(a, b);
      } else if Before(b, a) {
        SameYearOrder(b, a);
      }
    } else if a.year < b.year {
      EarlierYear(a, b);
    } else {
      EarlierYear(b, a);
    }
  }

  lemma EarlierYear(a: Date, b: Date)
    requires a.year < b.year
    ensures DayNumber(a) < DayNumber(b)
  {
    DayNumberBelowNextYear(a);
    YearsBefore(a.year + 1, b.year);
    DayNumberOfDate(b);
  }

  lemma SameYearOrder(a: Date, b: Date)
    requires a.year == b.year && Before(a, b)
    ensures DayNumber(a) < DayNumber(b)
  {
    DayNumberOfDate(a);
    DayNumberOfDate(b);
    if a.month < b.month {
      MonthsBefore(a.year, a.month, b.month);
    }
  }

  lemma {:induction false} YearsBefore(y: int, z: int)
    requires y <= z
    ensures DayFromYear(y) <= DayFromYear(z)
    decreases z - y
  {
    if y < z {
      YearLength(y);
      YearsBefore(y + 1, z);
    }
  }

  /** Within one year, every day of an earlier month precedes the first of a later month. */
  lemma {:induction false} MonthsBefore(y: int, m: int, n: int)
    requires 1 <= m < n <= 12
    ensures DaysBeforeMonth(y, m - 1) + DaysInMonth(y, m) <= DaysBeforeMonth(y, n - 1)
    decreases n - m
  {
    MonthLength(y, m);
    if m + 1 < n {
      MonthsBefore(y, m + 1, n);
    }
  }

  const MonthAbbreviations: seq<string> :=
    ["Jan", "Feb", "Mar", "Apr", "May", "Jun", "Jul", "Aug", "Sep", "Oct", "Nov", "Dec"]

  /** `toLocaleDateString('en-US', {year: 'numeric', month: 'short', day: 'numeric'})`. */
  function LocaleDate(d: Date): string {
    MonthAbbreviations[d.month - 1] + " " + NatToString(d.day) + ", " + IntToString(d.year)
  }
}
