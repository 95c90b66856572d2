/**
 * Python dictionaries as the scripts use them: entries kept in insertion
 * order, each key at most once; assigning to an existing key keeps its
 * position, assigning to a new key appends it.
 */
module Dicts {
  import opened Wrappers

  /** The keys of an entry list, in order. */
  function Keys<K, V>(d: seq<(K, V)>): (ks: seq<K>)
    ensures |ks| == |d| && forall i :: 0 <= i < |d| ==> ks[i] == d[i].0
  {
    seq(|d|, i requires 0 <= i < |d| => d[i].0)
  }

  /** No key occurs twice. */
  predicate DistinctKeys<K(==), V>(d: seq<(K, V)>) {
    forall i, j :: 0 <= i < j < |d| ==> d[i].0 != d[j].0
  }

  /** `d.get(k)`: the value of the first entry with key k. */
  function Get<K(==), V>(d: seq<(K, V)>, k: K): (r: Option<V>)
    ensures r.None? <==> k !in Keys(d)
  {
    if d == [] then None
    else if d[0].0 == k then Some(d[0].1)
    else
      assert Keys(d) == [d[0].0] + Keys(d[1..]);
      Get(d[1..], k)
  }

  /** `d[k] = v`. */
  function Put<K(==), V>(d: seq<(K, V)>, k: K, v: V): (r: seq<(K, V)>)
  {
    if d == [] then [(k, v)]
    else if d[0].0 == k then [(k, v)] + d[1..]
    else [d[0]] + Put(d[1..], k, v)
  }

  /**
   * After `d[k] = v`, k maps to v and every other key to what it mapped to;
   * an existing key keeps its place and a new key comes last.
   */
  lemma PutSpec<K, V>(d: seq<(K, V)>, k: K, v: V)
    requires DistinctKeys(d)
    ensures DistinctKeys(Put(d, k, v))
    ensures Get(Put(d, k, v), k) == Some(v)
    ensures forall k' :: k' != k ==> Get(Put(d, k, v), k') == Get(d, k')
    ensures Keys(Put(d, k, v)) == if k in Keys(d) then Keys(d) else Keys(d) + [k]
  {
    PutKeys(d, k, v);
    PutGet(d, k, v);
    var r := Put(d, k, v);
    forall i, j | 0 <= i < j < |r| ensures r[i].0 != r[j].0 {
      assert r[i].0 == Keys(r)[i] && r[j].0 == Keys(r)[j];
      if j < |d| {
        assert d[i].0 == Keys(d)[i] && d[j].0 == Keys(d)[j];
      }
    }
  }

  lemma {:induction false} PutKeys<K, V>(d: seq<(K, V)>, k: K, v: V)
    ensures Keys(Put(d, k, v)) == if k in Keys(d) then Keys(d) else Keys(d) + [k]
  {
    if d != [] {
      assert Keys(d) == [d[0].0] + Keys(d[1..]);
      if d[0].0 != k {
        PutKeys(d[1..], k, v);
        var r := Put(d, k, v);
        assert r == [d[0]] + Put(d[1..], k, v);
        assert Keys(r) == [d[0].0] + Keys(Put(d[1..], k, v));
        assert (k in Keys(d)) == (k in Keys(d[1..]));
        if k in Keys(d) {
          assert Keys(r) == [d[0].0] + Keys(d[1..]);
        } else {
          assert Keys(r) == [d[0].0] + (Keys(d[1..]) + [k]);
        }
      } else {
        assert Keys(Put(d, k, v)) == [k] + Keys(d[1..]);
      }
    }
  }

  lemma {:induction false} PutGet<K, V>(d: seq<(K, V)>, k: K, v: V)
    ensures Get(Put(d, k, v), k) == Some(v)
    ensures forall k' :: k' != k ==> Get(Put(d, k, v), k') == Get(d, k')
  {
    if d != [] {
      var r := Put(d, k, v);
      if d[0].0 == k {
        assert r[1..] == d[1..];
      } else {
        PutGet(d[1..], k, v);
        assert r[1..] == Put(d[1..], k, v);
      }
    }
  }

  /** `dict(pairs)`: the pairs assigned in order. */
  function FromPairs<K(==), V>(pairs: seq<(K, V)>): seq<(K, V)>
  {
    if pairs == [] then []
    else Put(FromPairs(pairs[..|pairs| - 1]), pairs[|pairs| - 1].0, pairs[|pairs| - 1].1)
  }

  /** The value of the last pair with key k, if any: what `dict(pairs)[k]` promises. */
  function LastValue<K(==), V>(pairs: seq<(K, V)>, k: K): Option<V>
  {
    if pairs == [] then None
    else if pairs[|pairs| - 1].0 == k then Some(pairs[|pairs| - 1].1)
    else LastValue(pairs[..|pairs| - 1], k)
  }

  /** `dict(pairs)` keeps each key once, and a later duplicate overwrites an earlier one. */
  lemma {:induction false} FromPairsLastWins<K, V>(pairs: seq<(K, V)>, k: K)
    ensures DistinctKeys(FromPairs(pairs))
    ensures Get(FromPairs(pairs), k) == LastValue(pairs, k)
  {
    if pairs != [] {
      var n := |pairs| - 1;
      FromPairsLastWins(pairs[..n], k);
      PutSpec(FromPairs(pairs[..n]), pairs[n].0, pairs[n].1);
    }
  }

  /** A key is present in `dict(pairs)` exactly when some pair carries it. */
  lemma {:induction false} LastValueNone<K, V>(pairs: seq<(K, V)>, k: K)
    ensures LastValue(pairs, k).None? <==> forall i :: 0 <= i < |pairs| ==> pairs[i].0 != k
  {
    if pairs != [] {
      var n := |pairs| - 1;
      LastValueNone(pairs[..n], k);
      assert forall i :: 0 <= i < n ==> pairs[..n][i] == pairs[i];
    }
  }

  /** `Get` finds an entry of the list. */
  lemma {:induction false} GetFound<K, V>(d: seq<(K, V)>, k: K)
    requires Get(d, k).Some?
    ensures exists i :: 0 <= i < |d| && d[i] == (k, Get(d, k).value)
  {
    if d[0].0 != k {
      GetFound(d[1..], k);
      var i :| 0 <= i < |d[1..]| && d[1..][i] == (k, Get(d[1..], k).value);
      assert d[i + 1] == d[1..][i];
    }
  }

  /** The value `dict(pairs)` keeps for k is carried by the last pair with key k. */
  lemma {:induction false} LastValueSome<K, V>(pairs: seq<(K, V)>, k: K)
    requires LastValue(pairs, k).Some?
    ensures exists i :: (0 <= i < |pairs| && pairs[i] == (k, LastValue(pairs, k).value)
      && forall j :: i < j < |pairs| ==> pairs[j].0 != k)
  {
    var n := |pairs| - 1;
    if pairs[n].0 != k {
      LastValueSome(pairs[..n], k);
      var i :| (0 <= i < n && pairs[..n][i] == (k, LastValue(pairs[..n], k).value)
        && forall j :: i < j < n ==> pairs[..n][j].0 != k);
      assert pairs[i] == pairs[..n][i];
      assert forall j :: i < j < n ==> pairs[j] == pairs[..n][j];
    }
  }

  /** Assigning the entries of a dictionary in order rebuilds it. */
  lemma {:induction false} FromPairsDistinct<K, V>(pairs: seq<(K, V)>)
    requires DistinctKeys(pairs)
    ensures FromPairs(pairs) == pairs
  {
    if pairs != [] {
      var n := |pairs| - 1;
      assert DistinctKeys(pairs[..n]);
      FromPairsDistinct(pairs[..n]);
      PutNew(pairs[..n], pairs[n].0, pairs[n].1);
      assert pairs == pairs[..n] + [pairs[n]];
    }
  }

  /** `d[k] = v` for a key not in d appends the entry. */
  lemma {:induction false} PutNew<K, V>(d: seq<(K, V)>, k: K, v: V)
    requires forall i :: 0 <= i < |d| ==> d[i].0 != k
    ensures Put(d, k, v) == d + [(k, v)]
  {
    if d != [] {
      PutNew(d[1..], k, v);
      assert d == [d[0]] + d[1..];
    }
  }
}
