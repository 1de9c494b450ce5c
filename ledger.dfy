/**
 * The dashboard's data: transactions and budgets as the API returns them, and
 * the sums and key lists every aggregation is built from.
 *
 * Amounts are integer cents.  `time` is the transaction's instant as
 * `new Date(tx.date).getTime()` gives it, and `month` is the label
 * `toLocaleDateString('en-US', { year: 'numeric', month: 'short' })` renders for
 * it (such as "Jul 2025"); both are given, since they depend on the time zone
 * and the locale.
 */
module Ledger {
  import opened Wrappers
  import opened AssocList

  datatype Transaction = Transaction(
    id: string,
    title: string,
    amount: int,
    time: int,
    month: string,
    category: string,
    description: Option<string>)

  datatype Budget = Budget(category: string, month: string, amount: int)

  /** The two keys transactions are grouped by. */
  datatype GroupBy = ByMonth | ByCategory

  function KeyOf(t: Transaction, key: GroupBy): string {
    match key
    case ByMonth => t.month
    case ByCategory => t.category
  }

  /** `transactions.reduce((sum, tx) => sum + tx.amount, 0)`, a left fold. */
  function Total(txs: seq<Transaction>): (r: int)
    ensures NonNegative(txs) ==> r >= 0
  {
    if txs == [] then 0
    else
      assert NonNegative(txs) ==> NonNegative(txs[..|txs| - 1]);
      Total(txs[..|txs| - 1]) + txs[|txs| - 1].amount
  }

  /** `transactions.filter(tx => key(tx) === k)`: the matching transactions, in order. */
  function Matching(txs: seq<Transaction>, key: GroupBy, k: string): (r: seq<Transaction>)
    ensures |r| <= |txs|
    ensures forall t :: t in r ==> t in txs && KeyOf(t, key) == k
    ensures (forall t :: t in txs ==> KeyOf(t, key) != k) ==> r == []
    ensures forall i :: 0 <= i < |txs| && KeyOf(txs[i], key) == k ==> txs[i] in r
  {
    if txs == [] then []
    else
      var init := Matching(txs[..|txs| - 1], key, k);
      var last := txs[|txs| - 1];
      assert forall i :: 0 <= i < |txs| - 1 ==> txs[..|txs| - 1][i] == txs[i];
      if KeyOf(last, key) == k then init + [last] else init
  }

  /** The filter keeps input order: filtering a concatenation concatenates the filtered parts. */
  lemma {:induction false} MatchingAppend(a: seq<Transaction>, b: seq<Transaction>, key: GroupBy, k: string)
    ensures Matching(a + b, key, k) == Matching(a, key, k) + Matching(b, key, k)
    decreases |b|
  {
    if b == [] {
      assert a + b == a;
    } else {
      var b', t := b[..|b| - 1], b[|b| - 1];
      assert a + b == (a + b') + [t];
      assert b == b' + [t];
      MatchingSnoc(a + b', t, key, k);
      MatchingSnoc(b', t, key, k);
      MatchingAppend(a, b', key, k);
      ConcatAssoc(Matching(a, key, k), Matching(b', key, k), if KeyOf(t, key) == k then [t] else []);
    }
  }

  lemma ConcatAssoc(x: seq<Transaction>, y: seq<Transaction>, z: seq<Transaction>)
    ensures (x + y) + z == x + (y + z)
  {
  }

  lemma MatchingSnoc(txs: seq<Transaction>, t: Transaction, key: GroupBy, k: string)
    ensures Matching(txs + [t], key, k) == Matching(txs, key, k) + (if KeyOf(t, key) == k then [t] else [])
  {
    assert (txs + [t])[..|txs|] == txs;
  }

  /** The sum of the amounts of the transactions whose key is exactly `k`. */
  function KeyTotal(txs: seq<Transaction>, key: GroupBy, k: string): int {
    if txs == [] then 0
    else
      var last := txs[|txs| - 1];
      KeyTotal(txs[..|txs| - 1], key, k) + (if KeyOf(last, key) == k then last.amount else 0)
  }

  /** The key total is the total of the filtered list, the `filter(...).reduce(...)` of the budget rows. */
  lemma {:induction false} KeyTotalIsFilteredTotal(txs: seq<Transaction>, key: GroupBy, k: string)
    ensures KeyTotal(txs, key, k) == Total(Matching(txs, key, k))
  {
    if txs != [] {
      var init, last := txs[..|txs| - 1], txs[|txs| - 1];
      KeyTotalIsFilteredTotal(init, key, k);
      if KeyOf(last, key) == k {
        TotalSnoc(Matching(init, key, k), last);
      }
    }
  }

  /** The key of every transaction, in input order. */
  function KeysOf(txs: seq<Transaction>, key: GroupBy): (ks: seq<string>)
    ensures |ks| == |txs|
    ensures forall i :: 0 <= i < |txs| ==> ks[i] == KeyOf(txs[i], key)
  {
    seq(|txs|, i requires 0 <= i < |txs| => KeyOf(txs[i], key))
  }

  /** Every amount is non-negative, as the data model intends (the code does not check it). */
  ghost predicate NonNegative(txs: seq<Transaction>) {
    forall i :: 0 <= i < |txs| ==> txs[i].amount >= 0
  }

  /** The index of the first occurrence of `x` in `s`. */
  function FirstIndex(s: seq<string>, x: string): (i: nat)
    requires x in s
    ensures i < |s| && s[i] == x && x !in s[..i]
  {
    if s[0] == x then 0 else 1 + FirstIndex(s[1..], x)
  }

  /**
   * The distinct elements of `s` in first-encountered order: the key order of a
   * `Map` filled key `set` calls in the order of `s`.
   */
  function FirstSeen(s: seq<string>): (r: seq<string>)
    ensures NoDup(r)
    ensures forall x :: x in r <==> x in s
    ensures |r| <= |s|
  {
    if s == [] then []
    else
      var init := FirstSeen(s[..|s| - 1]);
      var last := s[|s| - 1];
      assert forall x :: x in s <==> x in s[..|s| - 1] || x == last by {
        assert s == s[..|s| - 1] + [last];
      }
      if last in init then init else init + [last]
  }

  /*** Lemmas ***/

  /** Seeing one more key appends it to the first-seen order exactly when it is new. */
  lemma FirstSeenSnoc(s: seq<string>, x: string)
    ensures FirstSeen(s + [x]) == if x in FirstSeen(s) then FirstSeen(s) else FirstSeen(s) + [x]
  {
    assert (s + [x])[..|s|] == s;
  }

  lemma TotalSnoc(txs: seq<Transaction>, t: Transaction)
    ensures Total(txs + [t]) == Total(txs) + t.amount
  {
    assert (txs + [t])[..|txs|] == txs;
  }

  lemma {:induction false} TotalAppend(a: seq<Transaction>, b: seq<Transaction>)
    ensures Total(a + b) == Total(a) + Total(b)
    decreases |b|
  {
    if b != [] {
      var b' := b[..|b| - 1];
      assert a + b == (a + b') + [b[|b| - 1]];
      assert b == b' + [b[|b| - 1]];
      TotalSnoc(a + b', b[|b| - 1]);
      TotalSnoc(b', b[|b| - 1]);
      TotalAppend(a, b');
    } else {
      assert a + b == a;
    }
  }

  /** Adding one transaction adds its amount to the total of its own key only. */
  lemma KeyTotalSnoc(txs: seq<Transaction>, t: Transaction, key: GroupBy, k: string)
    ensures KeyTotal(txs + [t], key, k) == KeyTotal(txs, key, k) + (if KeyOf(t, key) == k then t.amount else 0)
  {
    assert (txs + [t])[..|txs|] == txs;
  }

  /** A key that no transaction carries totals 0. */
  lemma KeyTotalAbsent(txs: seq<Transaction>, key: GroupBy, k: string)
    requires k !in KeysOf(txs, key)
    ensures KeyTotal(txs, key, k) == 0
    decreases |txs|
  {
    if txs != [] {
      var init := txs[..|txs| - 1];
      assert KeysOf(txs, key)[|txs| - 1] == KeyOf(txs[|txs| - 1], key);
      KeysOfPrefix(txs, |txs| - 1, key);
      KeyTotalAbsent(init, key, k);
    }
  }

  lemma KeysOfSnoc(txs: seq<Transaction>, t: Transaction, key: GroupBy)
    ensures KeysOf(txs + [t], key) == KeysOf(txs, key) + [KeyOf(t, key)]
  {
  }

  lemma KeysOfPrefix(txs: seq<Transaction>, n: nat, key: GroupBy)
    requires n <= |txs|
    ensures KeysOf(txs[..n], key) == KeysOf(txs, key)[..n]
  {
  }

  /** With non-negative amounts, no key's total exceeds the grand total, and none is negative. */
  lemma {:induction false} KeyTotalBounds(txs: seq<Transaction>, key: GroupBy, k: string)
    requires NonNegative(txs)
    ensures 0 <= KeyTotal(txs, key, k) <= Total(txs)
  {
    if txs != [] {
      var init := txs[..|txs| - 1];
      assert txs == init + [txs[|txs| - 1]];
      KeyTotalBounds(init, key, k);
      KeyTotalSnoc(init, txs[|txs| - 1], key, k);
      TotalSnoc(init, txs[|txs| - 1]);
    }
  }

  /** The first-seen order: each key in `FirstSeen(s)` first occurs in `s` before the next one does. */
  lemma {:induction false} FirstSeenOrder(s: seq<string>, a: nat, b: nat)
    requires a < b < |FirstSeen(s)|
    ensures FirstSeen(s)[a] in s && FirstSeen(s)[b] in s
    ensures FirstIndex(s, FirstSeen(s)[a]) < FirstIndex(s, FirstSeen(s)[b])
  {
    var init := s[..|s| - 1];
    var last := s[|s| - 1];
    var r, r' := FirstSeen(s), FirstSeen(init);
    assert s == init + [last];
    assert r'[a] in init;
    FirstIndexPrefix(s, |s| - 1, r'[a]);
    if b < |r'| {
      FirstSeenOrder(init, a, b);
      FirstIndexPrefix(s, |s| - 1, r'[b]);
    } else {
      assert r[b] == last && last !in init;
    }
  }

  /** The first occurrence of a key already present in a prefix lies in that prefix. */
  lemma {:induction false} FirstIndexPrefix(s: seq<string>, n: nat, x: string)
    requires n <= |s| && x in s[..n]
    ensures FirstIndex(s, x) == FirstIndex(s[..n], x)
  {
    if s[0] != x {
      assert s[1..][..n - 1] == s[..n][1..];
      FirstIndexPrefix(s[1..], n - 1, x);
    }
  }

  /** The sum over the keys `ks` of each key's total. */
  function SumOfKeyTotals(ks: seq<string>, txs: seq<Transaction>, key: GroupBy): int {
    if ks == [] then 0 else KeyTotal(txs, key, ks[0]) + SumOfKeyTotals(ks[1..], txs, key)
  }

  lemma {:induction false} SumOfKeyTotalsSnoc(ks: seq<string>, txs: seq<Transaction>, t: Transaction, key: GroupBy)
    requires NoDup(ks)
    ensures SumOfKeyTotals(ks, txs + [t], key)
         == SumOfKeyTotals(ks, txs, key) + (if KeyOf(t, key) in ks then t.amount else 0)
  {
    if ks != [] {
      KeyTotalSnoc(txs, t, key, ks[0]);
      assert NoDup(ks[1..]) by {
        assert forall i :: 0 <= i < |ks| - 1 ==> ks[1..][i] == ks[i + 1];
      }
      assert KeyOf(t, key) in ks <==> KeyOf(t, key) == ks[0] || KeyOf(t, key) in ks[1..] by {
        assert ks == [ks[0]] + ks[1..];
      }
      assert KeyOf(t, key) == ks[0] ==> KeyOf(t, key) !in ks[1..];
      SumOfKeyTotalsSnoc(ks[1..], txs, t, key);
    }
  }

  lemma {:induction false} SumOfKeyTotalsAppendKey(ks: seq<string>, k: string, txs: seq<Transaction>, key: GroupBy)
    ensures SumOfKeyTotals(ks + [k], txs, key) == SumOfKeyTotals(ks, txs, key) + KeyTotal(txs, key, k)
  {
    if ks != [] {
      assert (ks + [k])[1..] == ks[1..] + [k];
      SumOfKeyTotalsAppendKey(ks[1..], k, txs, key);
    }
  }

  /** Conservation: the totals of the distinct keys add up to the grand total. */
  lemma {:induction false} KeyTotalsConserve(txs: seq<Transaction>, key: GroupBy)
    ensures SumOfKeyTotals(FirstSeen(KeysOf(txs, key)), txs, key) == Total(txs)
  {
    if txs != [] {
      var init, t := txs[..|txs| - 1], txs[|txs| - 1];
      assert txs == init + [t];
      KeysOfSnoc(init, t, key);
      var ks := FirstSeen(KeysOf(init, key));
      KeyTotalsConserve(init, key);
      SumOfKeyTotalsSnoc(ks, init, t, key);
      TotalSnoc(init, t);
      if KeyOf(t, key) !in ks {
        SumOfKeyTotalsAppendKey(ks, KeyOf(t, key), txs, key);
        KeyTotalSnoc(init, t, key, KeyOf(t, key));
        KeyTotalAbsent(init, key, KeyOf(t, key));
        SumOfKeyTotalsSnoc(ks, init, t, key);
      }
    }
  }
}
