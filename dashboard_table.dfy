/** The transaction table: which rows `renderTransactionTable` shows, and the
    "Show More" button of `setupShowMoreButton` that raises the row limit. */
module DashboardTable {
  import opened DashboardRecords

  /** Rows shown before any "Show More" click, and the step of each click. */
  const DefaultLimit: nat := 5

  const ShowMoreLabel := "Show More"
  const AllLoadedLabel := "All transactions loaded"

  /** `limit ? transactions.slice(0, limit) : transactions`: a limit of 0 shows
      everything, any other limit the first `limit` rows (all of them when there
      are fewer). */
  function Page(txs: seq<Transaction>, limit: nat): (rows: seq<Transaction>)
    ensures limit == 0 ==> rows == txs
    ensures limit > 0 ==> |rows| == (if limit < |txs| then limit else |txs|)
    ensures rows == txs[..|rows|]
  {
    if limit == 0 || limit >= |txs| then txs else txs[..limit]
  }

  /** A page shows every transaction exactly when its limit is 0 or reaches
      the number of transactions. */
  lemma PageShowsAll(txs: seq<Transaction>, limit: nat)
    ensures Page(txs, limit) == txs <==> limit == 0 || limit >= |txs|
  {
    if limit != 0 && limit < |txs| {
      assert |Page(txs, limit)| < |txs|;
    }
  }

  /** Raising the limit only appends rows: the smaller page is a prefix of the larger. */
  lemma PageGrows(txs: seq<Transaction>, a: nat, b: nat)
    requires 0 < a <= b
    ensures |Page(txs, a)| <= |Page(txs, b)|
    ensures Page(txs, a) == Page(txs, b)[..|Page(txs, a)|]
  {
  }

  /** The button and the `currentLimit` its click handler closes over. */
  class ShowMoreButton {
    const transactions: seq<Transaction>
    var limit: nat
    var disabled: bool
    var caption: string

    /** The limit starts at 5 and moves in steps of 5; the button is disabled
        exactly when a click has raised the limit to the number of transactions
        or beyond, and its caption says which state it is in. */
    ghost predicate Valid()
      reads this
    {
      && limit >= DefaultLimit && limit % DefaultLimit == 0
      && (disabled <==> limit > DefaultLimit && limit >= |transactions|)
      && caption == (if disabled then AllLoadedLabel else ShowMoreLabel)
    }

    /** `setupShowMoreButton(transactions)`: limit 5, enabled, "Show More",
        even when five rows already show every transaction. */
    constructor (txs: seq<Transaction>)
      ensures transactions == txs && limit == DefaultLimit && !disabled && caption == ShowMoreLabel
      ensures Valid()
    {
      transactions := txs;
      limit := DefaultLimit;
      disabled := false;
      caption := ShowMoreLabel;
    }

    /** The `onclick` handler: five more rows, then disable the button once the
        limit covers every transaction. A disabled button receives no clicks. */
    method Click() returns (rows: seq<Transaction>)
      requires Valid() && !disabled
      modifies this
      ensures Valid()
      ensures limit == old(limit) + DefaultLimit
      ensures rows == Page(transactions, limit)
      ensures disabled <==> rows == transactions
    {
      limit := limit + DefaultLimit;
      rows := Page(transactions, limit);
      if limit >= |transactions| {
        disabled := true;
        caption := AllLoadedLabel;
      }
      PageShowsAll(transactions, limit);
    }
  }
}
