/**
 * The summary cards and the recent-transactions list: total spending, the
 * number of transactions, the number of distinct categories, and the five
 * latest transactions, newest first.
 */
module Summary {
  import opened AssocList
  import opened Ledger

  /*** Distinct categories ***/

  /** The elements of a sequence without repeats are as many as its length. */
  lemma {:induction false} NoDupCardinality(s: seq<string>)
    requires NoDup(s)
    ensures |set x | x in s| == |s|
  {
    if s != [] {
      var init, last := s[..|s| - 1], s[|s| - 1];
      assert NoDup(init);
      NoDupCardinality(init);
      assert (set x | x in s) == (set x | x in init) + {last} by {
        assert s == init + [last];
      }
      assert last !in (set x | x in init);
    }
  }

  /** The set of categories is the set of the first-seen category keys. */
  lemma CategorySet(txs: seq<Transaction>)
    ensures (set i | 0 <= i < |txs| :: txs[i].category) == set x | x in FirstSeen(KeysOf(txs, ByCategory))
    ensures txs != [] ==> txs[0].category in (set i | 0 <= i < |txs| :: txs[i].category)
  {
    var ks := KeysOf(txs, ByCategory);
    var cats := set i | 0 <= i < |txs| :: txs[i].category;
    forall x | x in cats ensures x in FirstSeen(ks) {
      var i :| 0 <= i < |txs| && txs[i].category == x;
      assert ks[i] == x;
    }
    forall x | x in FirstSeen(ks) ensures x in cats {
      var i :| 0 <= i < |ks| && ks[i] == x;
    }
  }

  /** `new Set(transactions.map(tx => tx.category)).size`. */
  function UniqueCategories(txs: seq<Transaction>): (n: nat)
    ensures n == |FirstSeen(KeysOf(txs, ByCategory))|
    ensures n <= |txs|
    ensures n == 0 <==> txs == []
  {
    CategorySet(txs);
    NoDupCardinality(FirstSeen(KeysOf(txs, ByCategory)));
    |set i | 0 <= i < |txs| :: txs[i].category|
  }

  /*** Recent transactions ***/

  /** Newest first: times never increase along the list. */
  ghost predicate SortedByTimeDesc(s: seq<Transaction>) {
    forall i, j :: 0 <= i < j < |s| ==> s[i].time >= s[j].time
  }

  /** A newest-first list stays so with an entry at least as new as its head in front. */
  lemma SortedCons(x: Transaction, s: seq<Transaction>)
    requires SortedByTimeDesc(s) && (s == [] || x.time >= s[0].time)
    ensures SortedByTimeDesc([x] + s)
  {
    var r := [x] + s;
    forall i, j | 0 <= i < j < |r| ensures r[i].time >= r[j].time {
      if i == 0 && j > 1 {
        assert s[0].time >= s[j - 1].time;
      }
    }
  }

  /** Insert `t` into a newest-first list ahead of every entry that is not newer than it. */
  function InsertByTime(t: Transaction, s: seq<Transaction>): (r: seq<Transaction>)
    requires SortedByTimeDesc(s)
    ensures SortedByTimeDesc(r)
    ensures multiset(r) == multiset(s) + multiset{t}
    ensures |r| == |s| + 1
    ensures r[0] == t || (s != [] && r[0] == s[0])
  {
    if s == [] || t.time >= s[0].time then
      SortedCons(t, s);
      [t] + s
    else
      var rest := InsertByTime(t, s[1..]);
      InsertStep(t, s, rest);
      [s[0]] + rest
  }

  /** Putting the head back in front of the insertion into the tail. */
  lemma InsertStep(t: Transaction, s: seq<Transaction>, rest: seq<Transaction>)
    requires s != [] && t.time < s[0].time && SortedByTimeDesc(s)
    requires SortedByTimeDesc(rest) && multiset(rest) == multiset(s[1..]) + multiset{t}
    requires rest != [] && (rest[0] == t || (|s| > 1 && rest[0] == s[1]))
    ensures SortedByTimeDesc([s[0]] + rest)
    ensures multiset([s[0]] + rest) == multiset(s) + multiset{t}
  {
    assert s == [s[0]] + s[1..];
    SortedCons(s[0], rest);
  }

  /**
   * `[...transactions].sort((a, b) => b.time - a.time)`: a copy of the list,
   * newest first, with the same transactions.
   */
  function SortByTimeDesc(txs: seq<Transaction>): (r: seq<Transaction>)
    ensures SortedByTimeDesc(r)
    ensures multiset(r) == multiset(txs)
    ensures |r| == |txs|
  {
    if txs == [] then []
    else
      assert txs == [txs[0]] + txs[1..];
      InsertByTime(txs[0], SortByTimeDesc(txs[1..]))
  }

  /** How many transactions the dashboard lists as recent. */
  const RecentCount: nat := 5

  /**
   * `recentTransactions`: the sorted copy cut to at most five.  The list is
   * newest first, every entry comes from the input (with multiplicity), and no
   * transaction left out is newer than any shown.
   */
  function RecentTransactions(txs: seq<Transaction>): (r: seq<Transaction>)
    ensures |r| == if |txs| < RecentCount then |txs| else RecentCount
    ensures SortedByTimeDesc(r)
    ensures multiset(r) <= multiset(txs)
    ensures forall t :: t in multiset(txs) - multiset(r) ==>
      forall i :: 0 <= i < |r| ==> t.time <= r[i].time
  {
    var sorted := SortByTimeDesc(txs);
    var n := if |sorted| < RecentCount then |sorted| else RecentCount;
    SortedPrefix(sorted, n);
    sorted[..n]
  }

  /** A prefix of a newest-first list is newest first, and nothing after it is newer than anything in it. */
  lemma SortedPrefix(sorted: seq<Transaction>, n: nat)
    requires SortedByTimeDesc(sorted) && n <= |sorted|
    ensures SortedByTimeDesc(sorted[..n])
    ensures multiset(sorted[..n]) <= multiset(sorted)
    ensures forall t :: t in multiset(sorted) - multiset(sorted[..n]) ==>
      forall i :: 0 <= i < n ==> t.time <= sorted[i].time
  {
    var r, rest := sorted[..n], sorted[n..];
    assert sorted == r + rest;
    assert multiset(sorted) == multiset(r) + multiset(rest);
    forall t | t in multiset(sorted) - multiset(r)
      ensures forall i :: 0 <= i < n ==> t.time <= sorted[i].time
    {
      assert t in rest;
      LaterIsOlder(sorted, n, t);
    }
  }

  /** An entry past position `n` of a newest-first list is no newer than the first `n`. */
  lemma LaterIsOlder(sorted: seq<Transaction>, n: nat, t: Transaction)
    requires SortedByTimeDesc(sorted) && n <= |sorted| && t in sorted[n..]
    ensures forall i :: 0 <= i < n ==> t.time <= sorted[i].time
  {
    var k :| 0 <= k < |sorted| - n && sorted[n..][k] == t;
    assert sorted[n + k] == t;
  }
}
