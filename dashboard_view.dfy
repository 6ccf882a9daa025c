/** `updateCharts(period)`: one press of a period button, from the filtered
    transactions to every number the dashboard then shows. */
module DashboardView {
  import opened Wrappers
  import opened Calendar
  import opened Categories
  import opened DashboardRecords
  import opened DashboardMetrics
  import opened DashboardSeries
  import opened DashboardPeriod
  import opened DashboardTable

  /** What the views are redrawn with. */
  datatype View = View(
    transactions: seq<Transaction>, noData: bool, summary: Summary,
    typeCounts: seq<int>, monthly: seq<int>, rows: seq<Transaction>)

  /** Filter by the period, show the "no data" message for an empty result,
      then redraw the metrics, both charts and the table at its default limit. */
  method UpdateCharts(txs: seq<Transaction>, period: string, now: Date) returns (v: View)
    ensures v.transactions == FilterByPeriod(txs, period, now)
    ensures v.noData <==> v.transactions == []
    ensures v.summary.total == |v.transactions| && v.summary.volume == TotalVolume(v.transactions)
    ensures v.summary.topCategory == TopCategory(v.transactions)
    ensures v.summary.percentage == RoundPercent(CountOf(v.transactions, v.summary.topCategory), |v.transactions|)
    ensures v.typeCounts == TagCounts(v.transactions)
    ensures v.monthly == MonthlySeries(v.transactions)
    ensures v.rows == Page(v.transactions, DefaultLimit)
  {
    var filtered := txs;
    var range := DateRange(period, now);
    if range.Some? {
      filtered := FilterRange(txs, range.value);
    }
    var summary := UpdateMetrics(filtered);
    var counts := TypeCounts(filtered);
    var monthly := MonthlyVolume(filtered);
    v := View(filtered, |filtered| == 0, summary, counts, monthly, Page(filtered, DefaultLimit));
  }

  /** A period with no transactions shows "Other" as the top category with a
      NaN share, twelve empty months and an empty table. */
  lemma EmptyPeriodView()
    ensures TopCategory([]) == Other
    ensures RoundPercent(CountOf([], TopCategory([])), 0) == None
    ensures MonthlySeries([]) == seq(12, _ => 0)
    ensures Page([], DefaultLimit) == []
  {
    NoTaggedGivesOther([]);
  }
}
