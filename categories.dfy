/** The fixed list of ten transaction categories. The SMS parser produces
    these names and the dashboard counts, charts and ranks by them, in this order. */
module Categories {

  const IncomingMoney := "Incoming Money"
  const BankDeposits := "Bank Deposits"
  const BankTransfers := "Bank Transfers"
  const AirtimeBillPayments := "Airtime Bill Payments"
  const BundlePurchases := "Internet and Voice Bundle Purchases"
  const CashPowerBillPayments := "Cash Power Bill Payments"
  const CodeHolderPayments := "Payments to Code Holders"
  const ThirdPartyTransactions := "Transactions Initiated by Third Parties"
  const AgentWithdrawals := "Withdrawals from Agents"
  const Other := "Other"

  const Tags: seq<string> := [
    IncomingMoney, BankDeposits, BankTransfers, AirtimeBillPayments, BundlePurchases,
    CashPowerBillPayments, CodeHolderPayments, ThirdPartyTransactions, AgentWithdrawals, Other
  ]

  /** Ten distinct names, "Other" last. */
  lemma TagsDistinct()
    ensures |Tags| == 10 && Tags[9] == Other
    ensures forall i, j :: 0 <= i < j < |Tags| ==> Tags[i] != Tags[j]
  {
  }
}
