/**
 * `groupByMonth` and `groupByCategory`: both fill a `Map` from key to running
 * sum with one `set` per transaction, in input order, and emit its entries in
 * insertion order.  The shared loop is `GroupSums`; `Grouped` is what it
 * computes.
 */
module Grouping {
  import opened Wrappers
  import opened AssocList
  import opened Ledger
  import Colors

  /** Each distinct key, in first-seen order, with the sum of its transactions' amounts. */
  function Grouped(txs: seq<Transaction>, key: GroupBy): (m: Assoc<int>)
    ensures |m| == |FirstSeen(KeysOf(txs, key))|
    ensures forall j :: 0 <= j < |m| ==> m[j].0 == FirstSeen(KeysOf(txs, key))[j]
  {
    var ks := FirstSeen(KeysOf(txs, key));
    seq(|ks|, j requires 0 <= j < |ks| => (ks[j], KeyTotal(txs, key, ks[j])))
  }

  /** The loop invariant of the grouping map after the transactions `p`. */
  ghost predicate SumsOf(m: Assoc<int>, p: seq<Transaction>, key: GroupBy) {
    Keys(m) == FirstSeen(KeysOf(p, key)) &&
    forall j :: 0 <= j < |m| ==> m[j].1 == KeyTotal(p, key, m[j].0)
  }

  /** One step of the loop: `map.set(k, (map.get(k) || 0) + tx.amount)` keeps the invariant. */
  lemma GroupStep(m: Assoc<int>, p: seq<Transaction>, t: Transaction, key: GroupBy, v: int, m': Assoc<int>)
    requires SumsOf(m, p, key)
    requires v == Get(m, KeyOf(t, key)).GetOr(0) + t.amount && m' == Put(m, KeyOf(t, key), v)
    ensures SumsOf(m', p + [t], key)
  {
    GroupStepValues(m, p, t, key, v, m');
    GroupStepKeys(m, p, t, key, v);
  }

  lemma GroupStepValues(m: Assoc<int>, p: seq<Transaction>, t: Transaction, key: GroupBy, v: int, m': Assoc<int>)
    requires SumsOf(m, p, key)
    requires v == Get(m, KeyOf(t, key)).GetOr(0) + t.amount && m' == Put(m, KeyOf(t, key), v)
    ensures forall j :: 0 <= j < |m'| ==> m'[j].1 == KeyTotal(p + [t], key, m'[j].0)
  {
    assert NoDup(Keys(m));
    forall j | 0 <= j < |m'|
      ensures m'[j].1 == KeyTotal(p + [t], key, m'[j].0)
    {
      GroupStepEntry(m, p, t, key, v, m', j);
    }
  }

  /** The entry at `j` after one step carries the sum of its key over the longer prefix. */
  lemma GroupStepEntry(m: Assoc<int>, p: seq<Transaction>, t: Transaction, key: GroupBy, v: int, m': Assoc<int>, j: nat)
    requires NoDup(Keys(m)) && Keys(m) == FirstSeen(KeysOf(p, key))
    requires forall i :: 0 <= i < |m| ==> m[i].1 == KeyTotal(p, key, m[i].0)
    requires v == Get(m, KeyOf(t, key)).GetOr(0) + t.amount && m' == Put(m, KeyOf(t, key), v)
    requires j < |m'|
    ensures m'[j].1 == KeyTotal(p + [t], key, m'[j].0)
  {
    var k := KeyOf(t, key);
    if j < |m| {
      assert Get(m, k).Some? ==> v == Get(m, k).value + t.amount;
      GroupStepValue(m, p, t, key, v, m', j);
    } else {
      assert k !in Keys(m) && j == |m|;
      GroupStepNew(m, p, t, key, v, m');
    }
  }

  lemma GroupStepKeys(m: Assoc<int>, p: seq<Transaction>, t: Transaction, key: GroupBy, v: int)
    requires Keys(m) == FirstSeen(KeysOf(p, key))
    ensures Keys(Put(m, KeyOf(t, key), v)) == FirstSeen(KeysOf(p + [t], key))
  {
    KeysOfSnoc(p, t, key);
    FirstSeenSnoc(KeysOf(p, key), KeyOf(t, key));
    PutKeys(m, KeyOf(t, key), v);
  }

  /** A key already in the map: its sum grows by the amount exactly when it is the transaction's key. */
  lemma GroupStepValue(m: Assoc<int>, p: seq<Transaction>, t: Transaction, key: GroupBy, v: int, m': Assoc<int>, j: nat)
    requires NoDup(Keys(m)) && j < |m|
    requires m[j].1 == KeyTotal(p, key, m[j].0)
    requires Get(m, KeyOf(t, key)).Some? ==> v == Get(m, KeyOf(t, key)).value + t.amount
    requires m' == Put(m, KeyOf(t, key), v)
    ensures m'[j].1 == KeyTotal(p + [t], key, m'[j].0)
  {
    var k := KeyOf(t, key);
    PutAt(m, k, v, j);
    assert m'[j] == if m[j].0 == k then (k, v) else m[j];
    KeyTotalSnoc(p, t, key, m[j].0);
    if m[j].0 == k {
      GetAt(m, j);
    }
  }

  /** A new key: its sum is the transaction's amount. */
  lemma GroupStepNew(m: Assoc<int>, p: seq<Transaction>, t: Transaction, key: GroupBy, v: int, m': Assoc<int>)
    requires Keys(m) == FirstSeen(KeysOf(p, key))
    requires v == Get(m, KeyOf(t, key)).GetOr(0) + t.amount
    requires m' == Put(m, KeyOf(t, key), v) && |m'| > |m|
    ensures m'[|m|].1 == KeyTotal(p + [t], key, m'[|m|].0)
  {
    var k := KeyOf(t, key);
    assert k !in Keys(m);
    KeyTotalAbsent(p, key, k);
    KeyTotalSnoc(p, t, key, k);
  }

  /** The grouping loop of both `groupByMonth` and `groupByCategory`. */
  method GroupSums(txs: seq<Transaction>, key: GroupBy) returns (m: Assoc<int>)
    ensures m == Grouped(txs, key)
  {
    m := [];
    var i := 0;
    assert txs[..0] == [];
    while i < |txs|
      invariant 0 <= i <= |txs|
      invariant SumsOf(m, txs[..i], key)
    {
      var t := txs[i];
      var k := KeyOf(t, key);
      var sum := Get(m, k).GetOr(0) + t.amount;
      PrefixSnoc(txs, i);
      GroupStep(m, txs[..i], t, key, sum, Put(m, k, sum));
      m := Put(m, k, sum);
      i := i + 1;
    }
    assert txs[..i] == txs;
    SumsOfIsGrouped(m, txs, key);
  }

  lemma PrefixSnoc(txs: seq<Transaction>, i: nat)
    requires i < |txs|
    ensures txs[..i] + [txs[i]] == txs[..i + 1]
  {
  }

  /** After all transactions the map is the grouping itself. */
  lemma SumsOfIsGrouped(m: Assoc<int>, txs: seq<Transaction>, key: GroupBy)
    requires SumsOf(m, txs, key)
    ensures m == Grouped(txs, key)
  {
    var g := Grouped(txs, key);
    forall j | 0 <= j < |m| ensures m[j] == g[j] {
      assert Keys(m)[j] == m[j].0;
    }
  }

  /*** Months ***/

  datatype MonthTotal = MonthTotal(month: string, amount: int)

  /** The sum of the amounts of a list of month buckets. */
  function SumAmounts(ms: seq<MonthTotal>): int {
    if ms == [] then 0 else ms[0].amount + SumAmounts(ms[1..])
  }

  /** The month buckets `groupByMonth` returns. */
  function MonthlyTotals(txs: seq<Transaction>): (r: seq<MonthTotal>)
    ensures |r| == |FirstSeen(KeysOf(txs, ByMonth))|
    ensures forall j :: 0 <= j < |r| ==>
      r[j] == MonthTotal(FirstSeen(KeysOf(txs, ByMonth))[j], KeyTotal(txs, ByMonth, FirstSeen(KeysOf(txs, ByMonth))[j]))
  {
    var m := Grouped(txs, ByMonth);
    seq(|m|, j requires 0 <= j < |m| => MonthTotal(m[j].0, m[j].1))
  }

  /**
   * `groupByMonth`: one bucket per distinct month label, in the order the months
   * are first met, each holding the sum of its month's amounts; nothing is lost.
   */
  method GroupByMonth(txs: seq<Transaction>) returns (r: seq<MonthTotal>)
    ensures r == MonthlyTotals(txs)
    ensures |r| == |FirstSeen(KeysOf(txs, ByMonth))|
    ensures forall j :: 0 <= j < |r| ==> r[j].month == FirstSeen(KeysOf(txs, ByMonth))[j]
    ensures forall i, j :: 0 <= i < j < |r| ==> r[i].month != r[j].month
    ensures forall j :: 0 <= j < |r| ==> r[j].amount == KeyTotal(txs, ByMonth, r[j].month)
    ensures forall i :: 0 <= i < |txs| ==> exists j :: 0 <= j < |r| && r[j].month == txs[i].month
    ensures SumAmounts(r) == Total(txs)
    ensures txs == [] <==> r == []
  {
    var m := GroupSums(txs, ByMonth);
    r := seq(|m|, j requires 0 <= j < |m| => MonthTotal(m[j].0, m[j].1));
    MonthlyTotalsFacts(txs);
  }

  lemma MonthlyTotalsFacts(txs: seq<Transaction>)
    ensures var r := MonthlyTotals(txs);
      && (forall i :: 0 <= i < |txs| ==> exists j :: 0 <= j < |r| && r[j].month == txs[i].month)
      && SumAmounts(r) == Total(txs)
      && (txs == [] <==> r == [])
  {
    var r := MonthlyTotals(txs);
    var ks := FirstSeen(KeysOf(txs, ByMonth));
    forall i | 0 <= i < |txs| ensures exists j :: 0 <= j < |r| && r[j].month == txs[i].month {
      assert KeysOf(txs, ByMonth)[i] == txs[i].month;
      assert txs[i].month in ks;
      var j :| 0 <= j < |ks| && ks[j] == txs[i].month;
      assert r[j].month == txs[i].month;
    }
    SumAmountsOfKeys(r, ks, txs);
    KeyTotalsConserve(txs, ByMonth);
    if txs != [] {
      assert KeysOf(txs, ByMonth)[0] in ks;
    }
  }

  /** Month buckets that carry the totals of `ks` sum to the sum of those totals. */
  lemma {:induction false} SumAmountsOfKeys(r: seq<MonthTotal>, ks: seq<string>, txs: seq<Transaction>)
    requires |r| == |ks|
    requires forall j :: 0 <= j < |r| ==> r[j].amount == KeyTotal(txs, ByMonth, ks[j])
    ensures SumAmounts(r) == SumOfKeyTotals(ks, txs, ByMonth)
  {
    if r != [] {
      SumAmountsOfKeys(r[1..], ks[1..], txs);
    }
  }

  /*** Categories ***/

  datatype CategoryShare = CategoryShare(name: string, value: int, color: string)

  /** Floor division, `a / b` rounded toward negative infinity. */
  function FloorDiv(a: int, b: int): (q: int)
    requires b != 0
    ensures b > 0 ==> q * b <= a < q * b + b
    ensures b < 0 ==> q * b >= a > q * b + b
  {
    if b > 0 then a / b else (-a) / (-b)
  }

  /**
   * `Math.round(value / total * 100)` on exact amounts, with the zero total
   * guarded: the nearest integer to 100 * value / total, halves rounded up,
   * and 0 when the total is 0.
   */
  function SharePercent(value: int, total: int): (p: int)
    ensures total > 0 ==> 200 * value - total < 2 * total * p <= 200 * value + total
    ensures total == 0 ==> p == 0
  {
    if total == 0 then 0 else FloorDiv(200 * value + total, 2 * total)
  }

  /** A category's share of a positive total is a percentage between 0 and 100. */
  lemma SharePercentBounds(value: int, total: int)
    requires 0 <= value <= total && total > 0
    ensures 0 <= SharePercent(value, total) <= 100
  {
    var p := SharePercent(value, total);
    assert total * (2 * p + 1) == 2 * total * p + total;
    assert total * (2 * p - 201) == 2 * total * p - 201 * total;
    PositiveFactor(total, 2 * p + 1);
    PositiveFactor(total, 2 * p - 201);
  }

  /** The shares of the category keys `ks`, each with its colour. */
  function SharesFor(ks: seq<string>, txs: seq<Transaction>, total: int): (r: seq<CategoryShare>)
    ensures |r| == |ks|
    ensures forall j :: 0 <= j < |r| ==>
      r[j] == CategoryShare(ks[j], SharePercent(KeyTotal(txs, ByCategory, ks[j]), total), Colors.CategoryColor(ks[j]))
  {
    if ks == [] then []
    else
      [CategoryShare(ks[0], SharePercent(KeyTotal(txs, ByCategory, ks[0]), total), Colors.CategoryColor(ks[0]))]
      + SharesFor(ks[1..], txs, total)
  }

  /** The slices `groupByCategory` returns. */
  function CategoryShares(txs: seq<Transaction>): (r: seq<CategoryShare>)
    ensures |r| == |FirstSeen(KeysOf(txs, ByCategory))|
    ensures forall j :: 0 <= j < |r| ==>
      r[j].name == FirstSeen(KeysOf(txs, ByCategory))[j] &&
      r[j].value == SharePercent(KeyTotal(txs, ByCategory, r[j].name), Total(txs)) &&
      r[j].color == Colors.CategoryColor(r[j].name)
  {
    SharesFor(FirstSeen(KeysOf(txs, ByCategory)), txs, Total(txs))
  }

  /**
   * `groupByCategory`: one slice per distinct category (exact string equality),
   * in first-seen order, with its rounded percentage of the grand total and its
   * colour from the table.
   */
  method GroupByCategory(txs: seq<Transaction>) returns (r: seq<CategoryShare>)
    ensures r == CategoryShares(txs)
    ensures |r| == |FirstSeen(KeysOf(txs, ByCategory))|
    ensures forall j :: 0 <= j < |r| ==> r[j].name == FirstSeen(KeysOf(txs, ByCategory))[j]
    ensures forall i, j :: 0 <= i < j < |r| ==> r[i].name != r[j].name
    ensures forall j :: 0 <= j < |r| ==>
      r[j].value == SharePercent(KeyTotal(txs, ByCategory, r[j].name), Total(txs))
      && r[j].color == Colors.CategoryColor(r[j].name)
    ensures txs == [] <==> r == []
  {
    var total := Total(txs);
    var m := GroupSums(txs, ByCategory);
    r := seq(|m|, j requires 0 <= j < |m| =>
      CategoryShare(m[j].0, SharePercent(m[j].1, total), Colors.CategoryColor(m[j].0)));
    SharesOfGrouped(txs, m, r);
    CategorySharesFacts(txs);
  }

  /** The slices built from the grouped map are the category shares. */
  lemma SharesOfGrouped(txs: seq<Transaction>, m: Assoc<int>, r: seq<CategoryShare>)
    requires m == Grouped(txs, ByCategory)
    requires r == seq(|m|, j requires 0 <= j < |m| =>
      CategoryShare(m[j].0, SharePercent(m[j].1, Total(txs)), Colors.CategoryColor(m[j].0)))
    ensures r == CategoryShares(txs)
  {
    var ks, cs := FirstSeen(KeysOf(txs, ByCategory)), CategoryShares(txs);
    forall j | 0 <= j < |r| ensures r[j] == cs[j] {
      assert m[j] == (ks[j], KeyTotal(txs, ByCategory, ks[j]));
    }
  }

  lemma CategorySharesFacts(txs: seq<Transaction>)
    ensures var r := CategoryShares(txs);
      && (forall i, j :: 0 <= i < j < |r| ==> r[i].name != r[j].name)
      && (txs == [] <==> r == [])
  {
    var ks := FirstSeen(KeysOf(txs, ByCategory));
    var r := CategoryShares(txs);
    assert forall i, j :: 0 <= i < j < |r| ==> r[i].name == ks[i] && r[j].name == ks[j];
    if txs != [] {
      assert KeysOf(txs, ByCategory)[0] in ks;
    }
  }

  function SumValues(r: seq<CategoryShare>): int {
    if r == [] then 0 else r[0].value + SumValues(r[1..])
  }

  /** With non-negative amounts and a positive total, every slice is between 0 and 100 percent. */
  lemma CategorySharesBounds(txs: seq<Transaction>)
    requires NonNegative(txs) && Total(txs) > 0
    ensures forall s :: s in CategoryShares(txs) ==> 0 <= s.value <= 100
  {
    forall s | s in CategoryShares(txs) ensures 0 <= s.value <= 100 {
      KeyTotalBounds(txs, ByCategory, s.name);
      SharePercentBounds(KeyTotal(txs, ByCategory, s.name), Total(txs));
    }
  }

  /** Rounded shares over non-empty keys stay within half a point per key of the exact sum. */
  lemma {:induction false} SharesSumBounds(ks: seq<string>, txs: seq<Transaction>, total: int)
    requires total > 0 && ks != []
    ensures var p, s := SumValues(SharesFor(ks, txs, total)), SumOfKeyTotals(ks, txs, ByCategory);
      200 * s - |ks| * total < 2 * total * p <= 200 * s + |ks| * total
  {
    var r := SharesFor(ks, txs, total);
    var v, p0 := KeyTotal(txs, ByCategory, ks[0]), r[0].value;
    var p', s' := SumValues(r[1..]), SumOfKeyTotals(ks[1..], txs, ByCategory);
    assert r[1..] == SharesFor(ks[1..], txs, total);
    if |ks| > 1 {
      SharesSumBounds(ks[1..], txs, total);
    }
    AddBounds(total, |ks|, v, p0, s', p', SumOfKeyTotals(ks, txs, ByCategory), SumValues(r));
  }

  /** Adding the bound of one rounded share, `p0` of `v`, to the bound of the rest, `p'` of `s'`. */
  lemma AddBounds(total: int, k: int, v: int, p0: int, s': int, p': int, s: int, p: int)
    requires total > 0 && k >= 1 && s == v + s' && p == p0 + p'
    requires 200 * v - total < 2 * total * p0 <= 200 * v + total
    requires k == 1 ==> p' == 0 && s' == 0
    requires k > 1 ==> 200 * s' - (k - 1) * total < 2 * total * p' <= 200 * s' + (k - 1) * total
    ensures 200 * s - k * total < 2 * total * p <= 200 * s + k * total
  {
    assert 2 * total * p == 2 * total * p0 + 2 * total * p';
    assert k * total == total + (k - 1) * total;
    if k == 1 {
      assert 2 * total * p' == 0;
    }
  }

  /**
   * With a positive total the percentages add up to 100 within half a point per
   * category: 100 - k/2 < sum <= 100 + k/2 for k slices.
   */
  lemma CategorySharesSum(txs: seq<Transaction>)
    requires Total(txs) > 0
    ensures var r := CategoryShares(txs);
      200 - |r| < 2 * SumValues(r) <= 200 + |r|
  {
    var ks := FirstSeen(KeysOf(txs, ByCategory));
    var total := Total(txs);
    if txs == [] {
      assert false;
    }
    assert KeysOf(txs, ByCategory)[0] in ks;
    SharesSumBounds(ks, txs, total);
    KeyTotalsConserve(txs, ByCategory);
    DivideBounds(total, SumValues(CategoryShares(txs)), |ks|);
  }

  /** Dividing the bounds 200T - kT < 2Tp <= 200T + kT by a positive T. */
  lemma DivideBounds(total: int, p: int, k: int)
    requires total > 0
    requires 200 * total - k * total < 2 * total * p <= 200 * total + k * total
    ensures 200 - k < 2 * p <= 200 + k
  {
    assert total * (2 * p - 200 - k) == 2 * total * p - 200 * total - k * total;
    assert total * (2 * p - 200 + k) == 2 * total * p - 200 * total + k * total;
    PositiveFactor(total, 2 * p - 200 - k);
    PositiveFactor(total, 2 * p - 200 + k);
  }

  lemma PositiveFactor(a: int, x: int)
    requires a > 0
    ensures a * x <= 0 ==> x <= 0
    ensures a * x > 0 ==> x > 0
  {
    if x > 0 {
      assert a * x >= a;
    } else {
      assert a * x <= 0;
    }
  }

  /** `processTransactionsForCharts`: the month buckets and the category slices of the same transactions. */
  method ProcessForCharts(txs: seq<Transaction>) returns (monthly: seq<MonthTotal>, categories: seq<CategoryShare>)
    ensures monthly == MonthlyTotals(txs) && categories == CategoryShares(txs)
    ensures SumAmounts(monthly) == Total(txs)
    ensures |categories| == |FirstSeen(KeysOf(txs, ByCategory))|
  {
    monthly := GroupByMonth(txs);
    categories := GroupByCategory(txs);
  }

  /*** The share as written: no guard for a zero total ***/

  /** A JavaScript number as `Math.round(value / total * 100)` can produce it. */
  datatype JsNumber = Finite(n: int) | PositiveInfinity | NegativeInfinity | NaN

  /** `Math.round((value / total) * 100)` exactly as written: dividing by a zero total gives Infinity or NaN. */
  function ShareAsWritten(value: int, total: int): (r: JsNumber)
    ensures r.Finite? <==> total != 0
    ensures total == 0 ==> (r == NaN <==> value == 0)
    ensures total == 0 && value > 0 ==> r == PositiveInfinity
    ensures total == 0 && value < 0 ==> r == NegativeInfinity
  {
    if total != 0 then Finite(FloorDiv(200 * value + total, 2 * total))
    else if value > 0 then PositiveInfinity
    else if value < 0 then NegativeInfinity
    else NaN
  }

  /** The guarded share agrees with the source wherever the total is not zero. */
  lemma ShareAsWrittenAgrees(value: int, total: int)
    requires total != 0
    ensures ShareAsWritten(value, total) == Finite(SharePercent(value, total))
  {
  }

  /** The percentages `groupByCategory` computes as written. */
  function CategoryValuesAsWritten(txs: seq<Transaction>): (r: seq<JsNumber>)
    ensures |r| == |FirstSeen(KeysOf(txs, ByCategory))|
    ensures forall j :: 0 <= j < |r| ==>
      r[j] == ShareAsWritten(KeyTotal(txs, ByCategory, FirstSeen(KeysOf(txs, ByCategory))[j]), Total(txs))
  {
    var m := Grouped(txs, ByCategory);
    seq(|m|, j requires 0 <= j < |m| => ShareAsWritten(m[j].1, Total(txs)))
  }

  /**
   * Non-negative amounts that add up to 0 (all of them 0): as written every
   * slice is 0 / 0, NaN, while the guarded share is 0; there is a slice as soon
   * as there is a transaction.
   */
  lemma ZeroTotalGivesNaN(txs: seq<Transaction>)
    requires txs != [] && NonNegative(txs) && Total(txs) == 0
    ensures CategoryValuesAsWritten(txs) != []
    ensures forall v :: v in CategoryValuesAsWritten(txs) ==> v == NaN
    ensures forall s :: s in CategoryShares(txs) ==> s.value == 0
  {
    var ks := FirstSeen(KeysOf(txs, ByCategory));
    assert KeysOf(txs, ByCategory)[0] in ks;
    forall k | k in ks ensures KeyTotal(txs, ByCategory, k) == 0 {
      KeyTotalBounds(txs, ByCategory, k);
    }
  }

  /** The smallest case: one transaction of amount 0. */
  lemma ZeroAmountGivesNaN(t: Transaction)
    requires t.amount == 0
    ensures CategoryValuesAsWritten([t]) == [NaN]
  {
    OneTransactionGrouped(t);
    assert NonNegative([t]);
    ZeroTotalGivesNaN([t]);
    var w := CategoryValuesAsWritten([t]);
    assert |w| == 1 && w[0] in w;
  }

  /** One transaction alone: a single key, with its amount as the total. */
  lemma OneTransactionGrouped(t: Transaction)
    ensures Total([t]) == t.amount
    ensures FirstSeen(KeysOf([t], ByCategory)) == [t.category]
    ensures KeyTotal([t], ByCategory, t.category) == t.amount
  {
    var txs, c := [t], t.category;
    assert txs == [] + [t];
    TotalSnoc([], t);
    KeyTotalSnoc([], t, ByCategory, c);
    assert KeysOf(txs, ByCategory) == [] + [c];
    FirstSeenSnoc([], c);
  }
}
