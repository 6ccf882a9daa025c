/** The period buttons of the dashboard: `getDateRange` and the filter of
    `updateCharts`. Days are compared as day numbers (days since 1970-01-01). */
module DashboardPeriod {
  import opened Wrappers
  import opened Calendar
  import opened DashboardRecords

  /** The `{start, end}` pair, both ends inclusive, as day numbers. */
  datatype Range = Range(start: int, end: int)

  /** `getDateRange(period)` with `now` the current day: "daily" starts today,
      "weekly" starts at `setDate(getDate() - 7)`, "monthly" at
      `setMonth(getMonth() - 1)`, both rolling over through `MakeDay`; every other
      period ("alltime" included) means no filtering. */
  function DateRange(period: string, now: Date): (r: Option<Range>)
    ensures r.Some? <==> period == "daily" || period == "weekly" || period == "monthly"
    ensures r.Some? ==> r.value.end == DayNumber(now)
  {
    var end := DayNumber(now);
    if period == "daily" then Some(Range(end, end))
    else if period == "weekly" then Some(Range(MakeDay(now.year, now.month - 1, now.day - 7), end))
    else if period == "monthly" then Some(Range(MakeDay(now.year, now.month - 2, now.day), end))
    else None
  }

  /** The daily range is today alone and the weekly one spans the seven days
      before today as well. */
  lemma DailyAndWeeklyRanges(now: Date)
    ensures DateRange("daily", now).value.start == DateRange("daily", now).value.end
    ensures DateRange("weekly", now).value.start == DayNumber(now) - 7
  {
  }

  /** The monthly range goes back by the length of the previous month
      (28 to 31 days), so a day like March 31 starts the range at "February 31",
      which is early March. */
  lemma MonthlyRange(now: Date)
    ensures var r := DateRange("monthly", now).value;
      r.end - r.start == (if now.month == 1 then 31 else DaysInMonth(now.year, now.month - 1))
  {
    var r := DateRange("monthly", now).value;
    assert r == Range(MakeDay(now.year, now.month - 2, now.day), MakeDay(now.year, now.month - 1, now.day));
    if now.month == 1 {
      MonthBackFromJanuary(now.year, now.day);
    } else {
      MonthBack(now.year, now.month, now.day);
    }
  }

  /** So the monthly range always spans 28 to 31 days before today. */
  lemma MonthlyRangeBounds(now: Date)
    ensures var r := DateRange("monthly", now).value; 28 <= r.end - r.start <= 31
  {
    MonthlyRange(now);
  }

  /** The monthly range of 2024-03-31 starts on 2024-03-02, because 2024 is a
      leap year and "February 31" rolls over by two days. */
  lemma MonthlyRangeOverflows(now: Date, march2: Date)
    requires now == CalDate(2024, 3, 31) && march2 == CalDate(2024, 3, 2)
    ensures DateRange("monthly", now).value.start == DayNumber(march2)
  {
    assert IsLeapYear(2024);
  }

  /** `txDate >= new Date(range.start) && txDate <= new Date(range.end)`; an
      invalid `txDate` fails both comparisons. */
  predicate InRange(t: Transaction, r: Range)
  {
    t.date.Parsed? && r.start <= DayNumber(t.date.day) <= r.end
  }

  /** `transactions.filter(...)` with the range test. */
  function FilterRange(txs: seq<Transaction>, r: Range): seq<Transaction>
  {
    if txs == [] then []
    else (if InRange(txs[0], r) then [txs[0]] else []) + FilterRange(txs[1..], r)
  }

  /** The transactions the charts, metrics and table of a period work on. */
  function FilterByPeriod(txs: seq<Transaction>, period: string, now: Date): seq<Transaction>
  {
    match DateRange(period, now)
    case None => txs
    case Some(r) => FilterRange(txs, r)
  }

  /** "alltime", and every period the switch does not know, leaves the
      collection untouched. */
  lemma NoRangeKeepsAll(txs: seq<Transaction>, period: string, now: Date)
    requires period != "daily" && period != "weekly" && period != "monthly"
    ensures FilterByPeriod(txs, period, now) == txs
  {
  }

  /** Filtering a concatenation filters each part. */
  lemma {:induction false} FilterRangeAppend(a: seq<Transaction>, b: seq<Transaction>, r: Range)
    ensures FilterRange(a + b, r) == FilterRange(a, r) + FilterRange(b, r)
  {
    if a == [] {
      assert a + b == b;
    } else {
      assert (a + b)[0] == a[0] && (a + b)[1..] == a[1..] + b;
      FilterRangeAppend(a[1..], b, r);
      var h := if InRange(a[0], r) then [a[0]] else [];
      assert h + (FilterRange(a[1..], r) + FilterRange(b, r)) == (h + FilterRange(a[1..], r)) + FilterRange(b, r);
    }
  }

  /** The filter keeps exactly the transactions dated inside the range. */
  lemma {:induction false} FilterRangeMembers(txs: seq<Transaction>, r: Range)
    ensures forall t :: t in FilterRange(txs, r) <==> t in txs && InRange(t, r)
    ensures forall t :: multiset(FilterRange(txs, r))[t] == if InRange(t, r) then multiset(txs)[t] else 0
    ensures |FilterRange(txs, r)| <= |txs|
  {
    if txs != [] {
      FilterRangeMembers(txs[1..], r);
      var head := if InRange(txs[0], r) then [txs[0]] else [];
      assert txs == [txs[0]] + txs[1..];
      assert FilterRange(txs, r) == head + FilterRange(txs[1..], r);
      assert multiset(txs) == multiset([txs[0]]) + multiset(txs[1..]);
      assert multiset(FilterRange(txs, r)) == multiset(head) + multiset(FilterRange(txs[1..], r));
    }
  }

  /** `xs` is `ys` with some elements left out, the rest in the same order. */
  predicate SubsequenceOf<T(==)>(xs: seq<T>, ys: seq<T>)
    decreases |ys|
  {
    if xs == [] then true
    else if ys == [] then false
    else if xs[0] == ys[0] then SubsequenceOf(xs[1..], ys[1..])
    else SubsequenceOf(xs, ys[1..])
  }

  /** Putting an element in front of the longer sequence keeps a subsequence one. */
  lemma {:induction false} SubsequenceCons<T>(xs: seq<T>, y: T, ys: seq<T>)
    requires SubsequenceOf(xs, ys)
    ensures SubsequenceOf(xs, [y] + ys)
    decreases |xs| + |ys|, 1
  {
    assert ([y] + ys)[1..] == ys;
    if xs != [] && xs[0] == y {
      SubsequenceDropHead(xs, ys);
    }
  }

  lemma {:induction false} SubsequenceDropHead<T>(xs: seq<T>, ys: seq<T>)
    requires xs != [] && SubsequenceOf(xs, ys)
    ensures SubsequenceOf(xs[1..], ys)
    decreases |xs| + |ys|, 0
  {
    assert ys == [ys[0]] + ys[1..];
    if xs[0] == ys[0] {
      SubsequenceCons(xs[1..], ys[0], ys[1..]);
    } else {
      SubsequenceDropHead(xs, ys[1..]);
      SubsequenceCons(xs[1..], ys[0], ys[1..]);
    }
  }

  /** Filtering keeps the surviving transactions in their original order. */
  lemma {:induction false} FilterRangeOrdered(txs: seq<Transaction>, r: Range)
    ensures SubsequenceOf(FilterRange(txs, r), txs)
  {
    if txs != [] {
      FilterRangeOrdered(txs[1..], r);
      if InRange(txs[0], r) {
        assert FilterRange(txs, r)[0] == txs[0];
        assert FilterRange(txs, r)[1..] == FilterRange(txs[1..], r);
      } else {
        assert FilterRange(txs, r) == FilterRange(txs[1..], r);
        SubsequenceCons(FilterRange(txs[1..], r), txs[0], txs[1..]);
        assert [txs[0]] + txs[1..] == txs;
      }
    }
  }

  /** The period filter keeps, in order, exactly the transactions whose valid
      date lies between the start and today, both included. */
  lemma PeriodFilter(txs: seq<Transaction>, period: string, now: Date)
    requires DateRange(period, now).Some?
    ensures var kept := FilterByPeriod(txs, period, now);
      && SubsequenceOf(kept, txs)
      && forall t :: t in kept <==>
           (t in txs && t.date.Parsed? && DateRange(period, now).value.start <= DayNumber(t.date.day) <= DayNumber(now))
  {
    FilterRangeOrdered(txs, DateRange(period, now).value);
    FilterRangeMembers(txs, DateRange(period, now).value);
  }

  /** "daily" keeps exactly the transactions dated today. */
  lemma DailyKeepsToday(txs: seq<Transaction>, now: Date)
    ensures forall t :: t in FilterByPeriod(txs, "daily", now) <==> t in txs && t.date == Parsed(now)
  {
    FilterRangeMembers(txs, DateRange("daily", now).value);
    forall t: Transaction | t.date.Parsed?
      ensures DayNumber(t.date.day) == DayNumber(now) <==> t.date == Parsed(now)
    {
      DayNumberOrder(t.date.day, now);
    }
  }

  /** "weekly" keeps exactly the transactions dated from seven days ago up to today. */
  lemma WeeklyKeepsLastSevenDays(txs: seq<Transaction>, now: Date)
    ensures forall t :: t in FilterByPeriod(txs, "weekly", now) <==>
      t in txs && t.date.Parsed? && DayNumber(now) - 7 <= DayNumber(t.date.day) <= DayNumber(now)
  {
    FilterRangeMembers(txs, DateRange("weekly", now).value);
  }
}
