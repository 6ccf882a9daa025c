/** The summary numbers of the dashboard header (`updateMetrics`) and the
    per-tag counts it shares with the type chart (`renderTypeChart`). */
module DashboardMetrics {
  import opened Wrappers
  import opened JsValues
  import opened Categories
  import opened DashboardRecords

  /** `transactions.reduce((sum, txn) => sum + txn.amount, 0)`. */
  function TotalVolume(txs: seq<Transaction>): int
  {
    if txs == [] then 0 else txs[0].amount + TotalVolume(txs[1..])
  }

  /** The total volume of two batches together is the sum of their volumes. */
  lemma {:induction false} TotalVolumeAppend(a: seq<Transaction>, b: seq<Transaction>)
    ensures TotalVolume(a + b) == TotalVolume(a) + TotalVolume(b)
  {
    if a == [] {
      assert a + b == b;
    } else {
      assert (a + b)[0] == a[0] && (a + b)[1..] == a[1..] + b;
      TotalVolumeAppend(a[1..], b);
    }
  }

  /** With no negative amount, the total bounds every single amount. */
  lemma {:induction false} TotalVolumeBounds(txs: seq<Transaction>)
    requires forall i :: 0 <= i < |txs| ==> txs[i].amount >= 0
    ensures TotalVolume(txs) >= 0
    ensures forall i :: 0 <= i < |txs| ==> txs[i].amount <= TotalVolume(txs)
  {
    if txs != [] {
      TotalVolumeBounds(txs[1..]);
      forall i | 0 < i < |txs| ensures txs[i].amount <= TotalVolume(txs) {
        assert txs[1..][i - 1] == txs[i];
      }
    }
  }

  /** `transactions.filter(txn => txn.type === type).length`: strict equality,
      so only a string category spelled exactly like the tag counts. */
  function CountOf(txs: seq<Transaction>, tag: string): nat
  {
    if txs == [] then 0
    else (if txs[0].category == Str(tag) then 1 else 0) + CountOf(txs[1..], tag)
  }

  /** Whether a category value is one of `tags`. */
  predicate TaggedWith(v: Value, tags: seq<string>)
  {
    v.Str? && v.s in tags
  }

  /** Number of transactions whose category is one of `tags`. */
  function CountIn(txs: seq<Transaction>, tags: seq<string>): nat
  {
    if txs == [] then 0
    else (if TaggedWith(txs[0].category, tags) then 1 else 0) + CountIn(txs[1..], tags)
  }

  /** The `typeCounts` object, in the order of its keys. */
  function TagCounts(txs: seq<Transaction>): seq<int>
  {
    CountsFor(txs, Tags)
  }

  /** The count of each of `tags`, in order. */
  function CountsFor(txs: seq<Transaction>, tags: seq<string>): seq<int>
  {
    seq(|tags|, i requires 0 <= i < |tags| => CountOf(txs, tags[i]))
  }

  /** The `transactionTypes.forEach` loop that fills `typeCounts`. */
  method TypeCounts(txs: seq<Transaction>) returns (counts: seq<int>)
    ensures counts == TagCounts(txs)
  {
    counts := [];
    for i := 0 to |Tags|
      invariant counts == TagCounts(txs)[..i]
    {
      counts := counts + [CountOf(txs, Tags[i])];
    }
  }

  /** Sum of a sequence of integers, added up from the front. */
  function Sum(xs: seq<int>): int
  {
    if xs == [] then 0 else Sum(xs[..|xs| - 1]) + xs[|xs| - 1]
  }

  /** Adding one more tag to a list of tags it is not in adds exactly its count. */
  lemma {:induction false} CountInExtend(txs: seq<Transaction>, tags: seq<string>, tag: string)
    requires tag !in tags
    ensures CountIn(txs, tags + [tag]) == CountIn(txs, tags) + CountOf(txs, tag)
  {
    if txs != [] {
      CountInExtend(txs[1..], tags, tag);
    }
  }

  /** Counting tags one at a time adds up to counting all of them at once. */
  lemma {:induction false} TagCountsPrefixSum(txs: seq<Transaction>, k: nat)
    requires k <= |Tags|
    ensures Sum(TagCounts(txs)[..k]) == CountIn(txs, Tags[..k])
  {
    if k == 0 {
      assert Tags[..0] == [];
      CountInEmpty(txs);
    } else {
      TagCountsPrefixSum(txs, k - 1);
      var counts := TagCounts(txs);
      assert counts[..k][..k - 1] == counts[..k - 1];
      TagsDistinct();
      assert Tags[k - 1] !in Tags[..k - 1];
      CountInExtend(txs, Tags[..k - 1], Tags[k - 1]);
      assert Tags[..k - 1] + [Tags[k - 1]] == Tags[..k];
    }
  }

  lemma {:induction false} CountInEmpty(txs: seq<Transaction>)
    ensures CountIn(txs, []) == 0
  {
    if txs != [] {
      CountInEmpty(txs[1..]);
    }
  }

  /** A count of tagged transactions never exceeds the batch, and reaches it
      exactly when every transaction carries one of the tags. */
  lemma {:induction false} CountInBound(txs: seq<Transaction>, tags: seq<string>)
    ensures CountIn(txs, tags) <= |txs|
    ensures CountIn(txs, tags) == |txs| <==> forall i :: 0 <= i < |txs| ==> TaggedWith(txs[i].category, tags)
  {
    if txs != [] {
      CountInBound(txs[1..], tags);
      if forall i :: 0 <= i < |txs[1..]| ==> TaggedWith(txs[1..][i].category, tags) {
        forall i | 0 < i < |txs| ensures TaggedWith(txs[i].category, tags) {
          assert txs[1..][i - 1] == txs[i];
        }
      } else {
        var i :| 0 <= i < |txs[1..]| && !TaggedWith(txs[1..][i].category, tags);
        assert txs[i + 1] == txs[1..][i];
      }
    }
  }

  /** The ten tag counts add up to at most the number of transactions, and to
      exactly that number when every category is one of the ten tags. */
  lemma TagCountsSum(txs: seq<Transaction>)
    ensures Sum(TagCounts(txs)) <= |txs|
    ensures Sum(TagCounts(txs)) == |txs| <==> forall i :: 0 <= i < |txs| ==> TaggedWith(txs[i].category, Tags)
  {
    TagCountsPrefixSum(txs, |Tags|);
    assert TagCounts(txs)[..|Tags|] == TagCounts(txs);
    assert Tags[..|Tags|] == Tags;
    CountInBound(txs, Tags);
  }

  /** Two different tags never count the same transaction. */
  lemma {:induction false} TwoCountsBound(txs: seq<Transaction>, a: string, b: string)
    requires a != b
    ensures CountOf(txs, a) + CountOf(txs, b) <= |txs|
  {
    if txs != [] {
      TwoCountsBound(txs[1..], a, b);
    }
  }

  /** The `reduce` over the keys of `typeCounts`: the running winner `a` is kept
      only when its count is strictly larger than the next key's, so the result
      is the LAST position holding the largest count. */
  function TopIndex(counts: seq<int>): (r: nat)
    requires |counts| > 0
    ensures r < |counts|
    ensures forall j :: 0 <= j < |counts| ==> counts[j] <= counts[r]
    ensures forall j :: r < j < |counts| ==> counts[j] < counts[r]
  {
    if |counts| == 1 then 0
    else
      var a := TopIndex(counts[..|counts| - 1]);
      var b := |counts| - 1;
      if counts[a] > counts[b] then a else b
  }

  /** The category shown as the most common one. */
  function TopCategory(txs: seq<Transaction>): string
  {
    Tags[TopIndex(TagCounts(txs))]
  }

  /** The top category is always one of the ten tags, no tag has a larger
      count, and every tag after it in the list has a strictly smaller one. */
  lemma TopCategoryMaximal(txs: seq<Transaction>)
    ensures TopCategory(txs) in Tags
    ensures forall i :: 0 <= i < |Tags| ==> CountOf(txs, Tags[i]) <= CountOf(txs, TopCategory(txs))
    ensures forall i, k :: 0 <= k < i < |Tags| && Tags[k] == TopCategory(txs) ==>
      CountOf(txs, Tags[i]) < CountOf(txs, TopCategory(txs))
  {
    var counts := TagCounts(txs);
    var r := TopIndex(counts);
    TagsDistinct();
    assert forall i :: 0 <= i < |Tags| ==> counts[i] == CountOf(txs, Tags[i]);
    forall i, k | 0 <= k < i < |Tags| && Tags[k] == TopCategory(txs)
      ensures CountOf(txs, Tags[i]) < CountOf(txs, TopCategory(txs))
    {
      assert k == r;
      assert counts[i] < counts[r];
    }
  }

  /** When no transaction carries one of the tags (an empty batch in
      particular) every count ties at 0 and the tie goes to the last tag, "Other". */
  lemma NoTaggedGivesOther(txs: seq<Transaction>)
    requires forall i :: 0 <= i < |txs| ==> !TaggedWith(txs[i].category, Tags)
    ensures TopCategory(txs) == Other
  {
    var counts := TagCounts(txs);
    TagCountsPrefixSum(txs, |Tags|);
    assert Tags[..|Tags|] == Tags && counts[..|Tags|] == counts;
    NoneTagged(txs, Tags);
    ZeroSum(counts);
    TagsDistinct();
  }

  lemma {:induction false} NoneTagged(txs: seq<Transaction>, tags: seq<string>)
    requires forall i :: 0 <= i < |txs| ==> !TaggedWith(txs[i].category, tags)
    ensures CountIn(txs, tags) == 0
  {
    if txs != [] {
      assert forall i :: 0 <= i < |txs[1..]| ==> txs[1..][i] == txs[i + 1];
      NoneTagged(txs[1..], tags);
    }
  }

  /** Non-negative entries that add up to 0 are all 0. */
  lemma {:induction false} ZeroSum(xs: seq<int>)
    requires forall i :: 0 <= i < |xs| ==> xs[i] >= 0
    requires Sum(xs) == 0
    ensures forall i :: 0 <= i < |xs| ==> xs[i] == 0
  {
    if xs != [] {
      var init := xs[..|xs| - 1];
      NonNegativeSum(init);
      ZeroSum(init);
      assert forall i :: 0 <= i < |init| ==> init[i] == xs[i];
    }
  }

  lemma {:induction false} NonNegativeSum(xs: seq<int>)
    requires forall i :: 0 <= i < |xs| ==> xs[i] >= 0
    ensures Sum(xs) >= 0
  {
    if xs != [] {
      NonNegativeSum(xs[..|xs| - 1]);
    }
  }

  /** Position `k` holds more than half of a total `n` that bounds every pair of counts. */
  predicate Majority(counts: seq<int>, k: nat, n: int) {
    && k < |counts| && 2 * counts[k] > n
    && forall j :: 0 <= j < |counts| && j != k ==> counts[j] + counts[k] <= n
  }

  /** A majority count wins the reduce. */
  lemma MajorityIndex(counts: seq<int>, k: nat, n: int)
    requires Majority(counts, k, n)
    ensures TopIndex(counts) == k
  {
  }

  /** A tag held by more than half of the transactions is the top category. */
  lemma MajorityIsTop(txs: seq<Transaction>, k: nat)
    requires k < |Tags| && 2 * CountOf(txs, Tags[k]) > |txs|
    ensures TopCategory(txs) == Tags[k]
  {
    MajorityCounts(txs, k);
    MajorityIndex(TagCounts(txs), k, |txs|);
    TopCategoryAt(txs, k);
  }

  lemma MajorityCounts(txs: seq<Transaction>, k: nat)
    requires k < |Tags| && 2 * CountOf(txs, Tags[k]) > |txs|
    ensures Majority(TagCounts(txs), k, |txs|)
  {
    TagsDistinct();
    MajorityOfCounts(txs, Tags, k);
  }

  /** Distinct tags never share a transaction, so a tag held by more than half
      of the batch has a majority among the counts. */
  lemma MajorityOfCounts(txs: seq<Transaction>, tags: seq<string>, k: nat)
    requires forall i, j :: 0 <= i < j < |tags| ==> tags[i] != tags[j]
    requires k < |tags| && 2 * CountOf(txs, tags[k]) > |txs|
    ensures Majority(CountsFor(txs, tags), k, |txs|)
  {
    forall j | 0 <= j < |tags| && j != k
      ensures CountsFor(txs, tags)[j] + CountsFor(txs, tags)[k] <= |txs|
    {
      TwoCountsBound(txs, tags[j], tags[k]);
    }
  }

  lemma TopCategoryAt(txs: seq<Transaction>, k: nat)
    requires k < |Tags| && TopIndex(TagCounts(txs)) == k
    ensures TopCategory(txs) == Tags[k]
  {
  }

  /** `Math.round((count / n) * 100)` on exact rationals; with no transactions
      the quotient is NaN and so is the rounded percentage. */
  function RoundPercent(count: nat, n: nat): (p: Option<int>)
    ensures p == None <==> n == 0
    ensures p.Some? ==> 2 * n * p.value <= 200 * count + n < 2 * n * (p.value + 1)
    ensures p.Some? && count <= n ==> 0 <= p.value <= 100
  {
    if n == 0 then None
    else
      var p := (200 * count + n) / (2 * n);
      RoundingBounds(count, n, p);
      Some(p)
  }

  lemma RoundingBounds(count: nat, n: nat, p: int)
    requires n > 0 && p == (200 * count + n) / (2 * n)
    ensures 2 * n * p <= 200 * count + n < 2 * n * (p + 1)
    ensures count <= n ==> 0 <= p <= 100
  {
    var x, d := 200 * count + n, 2 * n;
    assert d * p <= x < d * p + d;
    if count <= n {
      assert d * p < d * 101;
      MulCancel(d, p, 101);
    }
  }

  lemma MulCancel(d: int, a: int, b: int)
    requires d > 0 && d * a < d * b
    ensures a < b
  {
  }

  /** What `updateMetrics` writes into the header: the transaction count, the
      total volume, the top category and its rounded share. */
  datatype Summary = Summary(total: nat, volume: int, topCategory: string, percentage: Option<int>)

  /** `updateMetrics`, without the number formatting. */
  method UpdateMetrics(txs: seq<Transaction>) returns (m: Summary)
    ensures m.total == |txs| && m.volume == TotalVolume(txs)
    ensures m.topCategory == TopCategory(txs)
    ensures m.percentage == RoundPercent(CountOf(txs, m.topCategory), |txs|)
  {
    var counts := TypeCounts(txs);
    var top := Tags[TopIndex(counts)];
    m := Summary(|txs|, TotalVolume(txs), top, RoundPercent(CountOf(txs, top), |txs|));
  }

  /** Six "Incoming Money" transactions out of ten: that tag is on top with 60%. */
  lemma SixOfTenScenario(txs: seq<Transaction>)
    requires |txs| == 10 && CountOf(txs, IncomingMoney) == 6
    ensures TopCategory(txs) == IncomingMoney
    ensures RoundPercent(CountOf(txs, TopCategory(txs)), |txs|) == Some(60)
  {
    MajorityIsTop(txs, 0);
  }
}
