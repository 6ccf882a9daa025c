/** The monthly volume series behind the bar chart (`renderMonthlyChart`):
    twelve buckets, one per calendar month, whatever the year. */
module DashboardSeries {
  import opened Wrappers
  import opened Calendar
  import opened DashboardRecords
  import opened DashboardMetrics

  /** `new Date(txn.date).getMonth()`: the zero-based month of a parsed date;
      an unparsed date gives an invalid `Date`, whose month is NaN. */
  function MonthIndex(t: Transaction): (m: Option<int>)
    ensures m.Some? <==> t.date.Parsed?
    ensures m.Some? ==> 0 <= m.value < 12
  {
    match t.date
    case Parsed(d) => Some(d.month - 1)
    case Unparsed(_) => None
  }

  /** Whether `monthIndex >= 0 && monthIndex < 12` lets the transaction into bucket `m`. */
  predicate InMonth(t: Transaction, m: int)
  {
    MonthIndex(t).Some? && MonthIndex(t).value == m
  }

  /** The amount the chart shows for month `m`: the amounts of the transactions
      whose date falls in that month of any year. */
  function MonthVolume(txs: seq<Transaction>, m: int): int
  {
    if txs == [] then 0
    else
      var last := txs[|txs| - 1];
      MonthVolume(txs[..|txs| - 1], m) + (if InMonth(last, m) then last.amount else 0)
  }

  /** The amounts of the transactions whose date falls in one of the months `0 .. k - 1`. */
  function VolumeBefore(txs: seq<Transaction>, k: int): int
  {
    if txs == [] then 0
    else
      var last := txs[|txs| - 1];
      VolumeBefore(txs[..|txs| - 1], k) + (if last.date.Parsed? && MonthIndex(last).value < k then last.amount else 0)
  }

  /** The amounts of the transactions that have a date. */
  function DatedVolume(txs: seq<Transaction>): int
  {
    if txs == [] then 0
    else
      var last := txs[|txs| - 1];
      DatedVolume(txs[..|txs| - 1]) + (if last.date.Parsed? then last.amount else 0)
  }

  /** The twelve buckets as the chart reads them. */
  function MonthlySeries(txs: seq<Transaction>): seq<int>
  {
    seq(12, m requires 0 <= m < 12 => MonthVolume(txs, m))
  }

  /** The `months.forEach` that zeroes the buckets and the `transactions.forEach`
      that adds each dated amount to its month. */
  method MonthlyVolume(txs: seq<Transaction>) returns (buckets: seq<int>)
    ensures buckets == MonthlySeries(txs)
  {
    buckets := seq(12, _ => 0);
    for i := 0 to |txs|
      invariant |buckets| == 12
      invariant forall m :: 0 <= m < 12 ==> buckets[m] == MonthVolume(txs[..i], m)
    {
      assert txs[..i + 1][..i] == txs[..i];
      var monthIndex := MonthIndex(txs[i]);
      if monthIndex.Some? && 0 <= monthIndex.value < 12 {
        var m := monthIndex.value;
        buckets := buckets[m := buckets[m] + txs[i].amount];
      }
    }
    assert txs[..|txs|] == txs;
  }

  /** Taking in one more month adds exactly that month's bucket. */
  lemma {:induction false} VolumeBeforeStep(txs: seq<Transaction>, k: int)
    ensures VolumeBefore(txs, k + 1) == VolumeBefore(txs, k) + MonthVolume(txs, k)
  {
    if txs != [] {
      VolumeBeforeStep(txs[..|txs| - 1], k);
    }
  }

  /** Adding up the first `k` buckets gives the volume of the first `k` months. */
  lemma {:induction false} SeriesPrefixSum(txs: seq<Transaction>, k: nat)
    requires k <= 12
    ensures Sum(MonthlySeries(txs)[..k]) == VolumeBefore(txs, k)
  {
    if k == 0 {
      NothingBeforeJanuary(txs);
    } else {
      SeriesPrefixSum(txs, k - 1);
      var series := MonthlySeries(txs);
      assert series[..k][..k - 1] == series[..k - 1];
      VolumeBeforeStep(txs, k - 1);
    }
  }

  lemma {:induction false} NothingBeforeJanuary(txs: seq<Transaction>)
    ensures VolumeBefore(txs, 0) == 0
  {
    if txs != [] {
      NothingBeforeJanuary(txs[..|txs| - 1]);
    }
  }

  /** Every dated transaction falls in one of the twelve months. */
  lemma {:induction false} AllMonths(txs: seq<Transaction>)
    ensures VolumeBefore(txs, 12) == DatedVolume(txs)
  {
    if txs != [] {
      AllMonths(txs[..|txs| - 1]);
    }
  }

  /** The twelve buckets add up to the volume of the dated transactions; a
      transaction without a valid date is left out of every bucket. */
  lemma SeriesTotal(txs: seq<Transaction>)
    ensures |MonthlySeries(txs)| == 12
    ensures Sum(MonthlySeries(txs)) == DatedVolume(txs)
  {
    SeriesPrefixSum(txs, 12);
    assert MonthlySeries(txs)[..12] == MonthlySeries(txs);
    AllMonths(txs);
  }

  /** When every transaction has a valid date, the chart shows the whole volume. */
  lemma {:induction false} DatedVolumeIsTotal(txs: seq<Transaction>)
    requires forall i :: 0 <= i < |txs| ==> txs[i].date.Parsed?
    ensures DatedVolume(txs) == TotalVolume(txs)
  {
    if txs != [] {
      var init := txs[..|txs| - 1];
      assert forall i :: 0 <= i < |init| ==> init[i] == txs[i];
      DatedVolumeIsTotal(init);
      assert txs == init + [txs[|txs| - 1]];
      TotalVolumeAppend(init, [txs[|txs| - 1]]);
    }
  }

  /** A transaction without a valid date changes no bucket. */
  lemma UndatedIgnored(txs: seq<Transaction>, t: Transaction)
    requires t.date.Unparsed?
    ensures MonthlySeries(txs + [t]) == MonthlySeries(txs)
  {
    assert (txs + [t])[..|txs|] == txs;
  }
}
