/**
 * The dashboard's spending insight: the last two month buckets, in the order
 * `groupByMonth` emitted them, compared.  The sentence is represented by what
 * it reports; its `toFixed(2)` formatting is not modelled.
 */
module Insight {
  import opened Ledger
  import opened Grouping

  /** No sentence, "spent $d more", "spent $d less", or "the same as last month". */
  datatype SpendingInsight = NoInsight | More(diff: int) | Less(diff: int) | Same

  /**
   * With fewer than two buckets there is nothing to say; otherwise the most
   * recent bucket is compared with the one before it.
   */
  function Insight(monthly: seq<MonthTotal>): (r: SpendingInsight)
    ensures r == NoInsight <==> |monthly| < 2
    ensures r.More? || r.Less? ==> r.diff > 0
    ensures |monthly| >= 2 ==>
      var last, prev := monthly[|monthly| - 1].amount, monthly[|monthly| - 2].amount;
      (r.More? <==> last > prev) && (r.Less? <==> last < prev) && (r.Same? <==> last == prev)
  {
    if |monthly| > 1 then
      var last := monthly[|monthly| - 1].amount;
      var prev := monthly[|monthly| - 2].amount;
      if last > prev then More(last - prev)
      else if last < prev then Less(prev - last)
      else Same
    else NoInsight
  }

  /** The reported difference is exact: it carries the previous month's total to the last one. */
  lemma InsightReconstructsLast(monthly: seq<MonthTotal>)
    requires |monthly| >= 2
    ensures var last, prev := monthly[|monthly| - 1].amount, monthly[|monthly| - 2].amount;
      match Insight(monthly)
      case More(d) => last == prev + d
      case Less(d) => last == prev - d
      case Same => last == prev
      case NoInsight => false
  {
  }

  /** Only the last two buckets matter: earlier months never change the insight. */
  lemma InsightIgnoresEarlierMonths(earlier: seq<MonthTotal>, monthly: seq<MonthTotal>)
    requires |monthly| >= 2
    ensures Insight(earlier + monthly) == Insight(monthly)
  {
    var s := earlier + monthly;
    assert s[|s| - 1] == monthly[|monthly| - 1] && s[|s| - 2] == monthly[|monthly| - 2];
  }

  /**
   * The comparison follows emission order, not the calendar: the same two
   * buckets met in the opposite order report the opposite trend.
   */
  lemma InsightFollowsEmissionOrder(a: MonthTotal, b: MonthTotal)
    ensures Insight([a, b]) == More(b.amount - a.amount) <==> Insight([b, a]) == Less(b.amount - a.amount)
    ensures Insight([a, b]) == Same <==> Insight([b, a]) == Same
  {
  }

  /** Transactions from fewer than two distinct months give no insight; an empty list in particular. */
  lemma FewMonthsNoInsight(txs: seq<Transaction>)
    requires |FirstSeen(KeysOf(txs, ByMonth))| < 2
    ensures Insight(MonthlyTotals(txs)) == NoInsight
  {
  }

  /** One bucket, "May 2025" at 1950.00, gives no sentence; June 1450.00 then July 1600.00 gives "$150.00 more". */
  lemma InsightExamples()
    ensures Insight([MonthTotal("May 2025", 195000)]) == NoInsight
    ensures Insight([MonthTotal("Jun 2025", 145000), MonthTotal("Jul 2025", 160000)]) == More(15000)
  {
  }
}
