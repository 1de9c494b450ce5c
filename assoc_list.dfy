/**
 * Insertion-ordered dictionaries with string keys, as a JavaScript `Map` or a
 * plain object keeps them: a sequence of (key, value) pairs.  `Put` is
 * `Map.set` and `obj[key] = value`: an existing key keeps its position and gets
 * the new value, a new key is appended at the end.
 */
module AssocList {
  import opened Wrappers

  type Assoc<V> = seq<(string, V)>

  function Keys<V>(m: Assoc<V>): (ks: seq<string>)
    ensures |ks| == |m|
    ensures forall j :: 0 <= j < |m| ==> ks[j] == m[j].0
  {
    if m == [] then [] else [m[0].0] + Keys(m[1..])
  }

  /** No element occurs twice. */
  ghost predicate NoDup<K>(s: seq<K>) {
    forall i, j :: 0 <= i < j < |s| ==> s[i] != s[j]
  }

  /** The value stored under `k` (the first pair with that key), or None. */
  function Get<V>(m: Assoc<V>, k: string): (r: Option<V>)
    ensures r.None? <==> k !in Keys(m)
    ensures forall j :: 0 <= j < |m| && m[j].0 == k && (forall i :: 0 <= i < j ==> m[i].0 != k) ==>
      r == Some(m[j].1)
  {
    if m == [] then None
    else if m[0].0 == k then Some(m[0].1)
    else
      var r := Get(m[1..], k);
      assert forall j :: 1 <= j < |m| ==> m[1..][j - 1] == m[j];
      r
  }

  /** `Map.set(k, v)`: replace the value of an existing key in place, else append. */
  function Put<V>(m: Assoc<V>, k: string, v: V): (r: Assoc<V>)
    ensures |r| == if k in Keys(m) then |m| else |m| + 1
    ensures forall j :: 0 <= j < |m| ==> r[j].0 == m[j].0
    ensures k !in Keys(m) ==> r[|m|] == (k, v)
  {
    if m == [] then [(k, v)]
    else if m[0].0 == k then
      assert Keys(m)[0] == k;
      [(k, v)] + m[1..]
    else
      var rest := Put(m[1..], k, v);
      assert k in Keys(m) <==> k in Keys(m[1..]) by {
        assert Keys(m) == [m[0].0] + Keys(m[1..]);
      }
      [m[0]] + rest
  }

  /** Under distinct keys, `Put` changes exactly the entry with key `k`. */
  lemma {:induction false} PutAt<V>(m: Assoc<V>, k: string, v: V, j: nat)
    requires NoDup(Keys(m)) && j < |m|
    ensures Put(m, k, v)[j] == if m[j].0 == k then (k, v) else m[j]
  {
    if m[0].0 != k && j > 0 {
      var t := m[1..];
      assert t[j - 1] == m[j];
      assert NoDup(Keys(t)) by {
        assert forall i :: 0 <= i < |t| ==> Keys(t)[i] == Keys(m)[i + 1];
      }
      PutAt(t, k, v, j - 1);
    } else if j > 0 {
      assert Keys(m)[0] != Keys(m)[j];
    }
  }

  /** The key order after `Put`: unchanged for a known key, the new key last otherwise. */
  lemma {:induction false} PutKeys<V>(m: Assoc<V>, k: string, v: V)
    ensures Keys(Put(m, k, v)) == if k in Keys(m) then Keys(m) else Keys(m) + [k]
    decreases |m|, 1
  {
    if m != [] {
      if m[0].0 == k {
        PutKeysHit(m, k, v);
      } else {
        PutKeysSkip(m, k, v);
      }
    }
  }

  /** `Put` on a dictionary whose first key is `k`: the keys stay as they are. */
  lemma PutKeysHit<V>(m: Assoc<V>, k: string, v: V)
    requires m != [] && m[0].0 == k
    ensures k in Keys(m) && Keys(Put(m, k, v)) == Keys(m)
  {
    KeysCons((k, v), m[1..]);
    KeysCons(m[0], m[1..]);
    assert m == [m[0]] + m[1..];
  }

  /** `Put` past a first key other than `k`: the first key stays in front of the keys of the rest after `Put`. */
  lemma {:induction false} PutKeysSkip<V>(m: Assoc<V>, k: string, v: V)
    requires m != [] && m[0].0 != k
    ensures Keys(Put(m, k, v)) == if k in Keys(m) then Keys(m) else Keys(m) + [k]
    decreases |m|, 0
  {
    var rest := Put(m[1..], k, v);
    assert m == [m[0]] + m[1..];
    KeysCons(m[0], m[1..]);
    PutKeys(m[1..], k, v);
    KeysCons(m[0], rest);
    assert Put(m, k, v) == [m[0]] + rest;
    AppendAfterHead(m[0].0, k, Keys(m[1..]), Keys(rest), Keys(m), Keys(Put(m, k, v)));
  }

  /** The key step of `PutKeysSkip` on plain key sequences. */
  lemma AppendAfterHead(a: string, k: string, ks: seq<string>, kr: seq<string>, km: seq<string>, kp: seq<string>)
    requires a != k && km == [a] + ks && kp == [a] + kr
    requires kr == if k in ks then ks else ks + [k]
    ensures kp == if k in km then km else km + [k]
  {
    assert k in km <==> k in ks;
    assert [a] + (ks + [k]) == ([a] + ks) + [k];
  }

  lemma KeysCons<V>(x: (string, V), m: Assoc<V>)
    ensures Keys([x] + m) == [x.0] + Keys(m)
  {
    assert ([x] + m)[1..] == m;
  }

  /** `Put` keeps the keys distinct. */
  lemma PutNoDup<V>(m: Assoc<V>, k: string, v: V)
    requires NoDup(Keys(m))
    ensures NoDup(Keys(Put(m, k, v)))
  {
    PutKeys(m, k, v);
  }

  /** On a dictionary with distinct keys, the value under a key is the one at its position. */
  lemma {:induction false} GetAt<V>(m: Assoc<V>, j: nat)
    requires NoDup(Keys(m)) && j < |m|
    ensures Get(m, m[j].0) == Some(m[j].1)
  {
    if j > 0 {
      assert Keys(m)[0] != Keys(m)[j];
      var t := m[1..];
      assert t[j - 1] == m[j];
      assert NoDup(Keys(t)) by {
        assert forall i :: 0 <= i < |t| ==> Keys(t)[i] == Keys(m)[i + 1];
      }
      GetAt(t, j - 1);
    }
  }

  /** After `Put(m, k, v)` the key `k` reads `v` and every other key reads as before. */
  lemma {:induction false} PutGet<V>(m: Assoc<V>, k: string, v: V, k': string)
    ensures Get(Put(m, k, v), k') == if k' == k then Some(v) else Get(m, k')
  {
    if m != [] && m[0].0 != k {
      PutGet(m[1..], k, v, k');
    }
  }
}
