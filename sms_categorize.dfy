/** `categorize_transaction`: the category of an SMS, decided by the first of a
    fixed list of keyword rules that the lower-cased body matches. */
module SmsCategorize {
  import opened Text
  import opened Categories

  /** Bodies that mention one of these are never categorised. */
  const ExclusionKeywords: seq<string> := ["onafriq mauritius", "rwandaltd", "mtn data push"]

  /** `bundle_keywords`: any of these makes a bundle purchase. */
  const BundleKeywords: seq<string> := ["bundle", "bundles", "packs", "mb", "gb", "internet", "voice", "data"]

  /** The words that stop "token" from meaning a cash power purchase. */
  const TokenExclusions: seq<string> := ["mb", "gb", "bundle", "data", "internet", "airtime"]

  /** Python's `any(k in b for k in keys)`. */
  predicate AnyIn(keys: seq<string>, b: string) {
    exists i :: 0 <= i < |keys| && Contains(b, keys[i])
  }

  /** The rules in the order the source tries them, over an already lower-cased body. */
  function CategorizeLower(b: string): string
  {
    if AnyIn(ExclusionKeywords, b) then Other
    else if Contains(b, "you have received") || Contains(b, "credited to your") then IncomingMoney
    else if Contains(b, "bank deposit") then BankDeposits
    else if Contains(b, "transferred") then BankTransfers
    else if Contains(b, "airtime") then AirtimeBillPayments
    else if AnyIn(BundleKeywords, b) then BundlePurchases
    else if Contains(b, "cash power") || (Contains(b, "token") && !AnyIn(TokenExclusions, b)) then CashPowerBillPayments
    else if Contains(b, "your payment of") then CodeHolderPayments
    else if Contains(b, "from") && (Contains(b, "received") || Contains(b, "credited")) then ThirdPartyTransactions
    else if Contains(b, "withdrawn") || Contains(b, "withdrawal") || Contains(b, "agent") then AgentWithdrawals
    else Other
  }

  /** `categorize_transaction(body)`: one of the ten category names. */
  function Categorize(body: string): (c: string)
    ensures c in Tags
  {
    CategorizeLower(Lower(body))
  }

  /** The category does not depend on letter case. */
  lemma CaseInsensitive(body: string)
    ensures Categorize(body) == Categorize(Lower(body))
  {
    LowerIdempotent(body);
  }

  /** A body mentioning an excluded sender is "Other", whatever else it says. */
  lemma ExclusionWins(body: string, i: nat)
    requires i < |ExclusionKeywords| && Contains(Lower(body), ExclusionKeywords[i])
    ensures Categorize(body) == Other
  {
  }

  /** Incoming money is tested before bank deposits: a message saying both
      "you have received" and "bank deposit" is incoming money. */
  lemma ReceivedBeatsDeposit(body: string)
    requires !AnyIn(ExclusionKeywords, Lower(body))
    requires Contains(Lower(body), "you have received") && Contains(Lower(body), "bank deposit")
    ensures Categorize(body) == IncomingMoney
  {
  }

  /** Whether any rule after the exclusion test fires. */
  predicate SomeRuleFires(b: string) {
    || Contains(b, "you have received") || Contains(b, "credited to your")
    || Contains(b, "bank deposit") || Contains(b, "transferred") || Contains(b, "airtime")
    || AnyIn(BundleKeywords, b) || Contains(b, "cash power") || Contains(b, "token")
    || Contains(b, "your payment of")
    || (Contains(b, "from") && (Contains(b, "received") || Contains(b, "credited")))
    || Contains(b, "withdrawn") || Contains(b, "withdrawal") || Contains(b, "agent")
  }

  /** "Other" means exactly: an excluded sender, or a body no rule recognises. */
  lemma OtherExactly(body: string)
    ensures Categorize(body) == Other <==>
      AnyIn(ExclusionKeywords, Lower(body)) || !SomeRuleFires(Lower(body))
  {
    var b := Lower(body);
    if !AnyIn(ExclusionKeywords, b) && SomeRuleFires(b) {
      TagsDistinct();
      assert Tags[9] == Other;
      TokenGuardRedundant(b);
    }
  }

  /** The same rules with the cash power test reduced to "cash power" or "token". */
  function CategorizeSimplified(b: string): string
  {
    if AnyIn(ExclusionKeywords, b) then Other
    else if Contains(b, "you have received") || Contains(b, "credited to your") then IncomingMoney
    else if Contains(b, "bank deposit") then BankDeposits
    else if Contains(b, "transferred") then BankTransfers
    else if Contains(b, "airtime") then AirtimeBillPayments
    else if AnyIn(BundleKeywords, b) then BundlePurchases
    else if Contains(b, "cash power") || Contains(b, "token") then CashPowerBillPayments
    else if Contains(b, "your payment of") then CodeHolderPayments
    else if Contains(b, "from") && (Contains(b, "received") || Contains(b, "credited")) then ThirdPartyTransactions
    else if Contains(b, "withdrawn") || Contains(b, "withdrawal") || Contains(b, "agent") then AgentWithdrawals
    else Other
  }

  /** The guard on "token" never changes a category: a body that reaches the
      cash power rule has already been checked for "airtime" and for every
      bundle keyword, which cover all the words the guard looks for. */
  lemma TokenGuardRedundant(b: string)
    ensures CategorizeLower(b) == CategorizeSimplified(b)
  {
    if !Contains(b, "airtime") && !AnyIn(BundleKeywords, b) {
      forall i | 0 <= i < |TokenExclusions| ensures !Contains(b, TokenExclusions[i]) {
        if i < 5 {
          assert TokenExclusions[i] == BundleKeywords[[3, 4, 0, 7, 5][i]];
        }
      }
    }
  }

  /** Every body containing "token" that gets past the earlier rules is a cash
      power payment. */
  lemma TokenIsCashPower(body: string)
    requires var b := Lower(body);
      && !AnyIn(ExclusionKeywords, b)
      && !Contains(b, "you have received") && !Contains(b, "credited to your")
      && !Contains(b, "bank deposit") && !Contains(b, "transferred")
      && !Contains(b, "airtime") && !AnyIn(BundleKeywords, b)
      && Contains(b, "token")
    ensures Categorize(body) == CashPowerBillPayments
  {
    TokenGuardRedundant(Lower(body));
  }
}
