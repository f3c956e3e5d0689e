/** Python dictionaries whose iteration order matters, as association lists
    in insertion order.  `Put` is `d[k] = v`: an existing key keeps its place
    and gets the new value, a fresh key is appended. */
module Dicts {
  import opened Fallible

  type Dict<K, V> = seq<(K, V)>

  /** `list(d.keys())`. */
  function Keys<K, V>(d: Dict<K, V>): (ks: seq<K>)
    ensures |ks| == |d|
    ensures forall i :: 0 <= i < |d| ==> ks[i] == d[i].0
  {
    if d == [] then [] else [d[0].0] + Keys(d[1..])
  }

  /** A Python dict never holds a key twice. */
  predicate DistinctKeys<K(==), V>(d: Dict<K, V>) {
    forall i, j :: 0 <= i < j < |d| ==> d[i].0 != d[j].0
  }

  /** `d.get(k)`: the value stored under `k`, or None. */
  function Get<K(==), V>(d: Dict<K, V>, k: K): Option<V>
  {
    if d == [] then None
    else if d[0].0 == k then Some(d[0].1)
    else Get(d[1..], k)
  }

  /** `d.get(k)` is None exactly when `k` is not a key of `d`. */
  lemma {:induction false} GetNone<K, V>(d: Dict<K, V>, k: K)
    ensures Get(d, k).None? <==> k !in Keys(d)
  {
    if d != [] {
      GetNone(d[1..], k);
      assert Keys(d) == [d[0].0] + Keys(d[1..]);
    }
  }

  /** `d[k] = v`. */
  function Put<K(==), V>(d: Dict<K, V>, k: K, v: V): Dict<K, V> {
    if d == [] then [(k, v)]
    else if d[0].0 == k then [(k, v)] + d[1..]
    else [d[0]] + Put(d[1..], k, v)
  }

  /** Storing a fresh key appends it. */
  lemma {:induction false} PutFresh<K, V>(d: Dict<K, V>, k: K, v: V)
    requires k !in Keys(d)
    ensures Put(d, k, v) == d + [(k, v)]
  {
    if d != [] {
      assert Keys(d)[0] == d[0].0;
      assert forall j :: 0 <= j < |d| - 1 ==> Keys(d[1..])[j] == Keys(d)[j + 1];
      PutFresh(d[1..], k, v);
      assert [d[0]] + d[1..] == d;
    }
  }

  /** Storing a key already present leaves the keys and their order alone. */
  lemma {:induction false} PutPresent<K, V>(d: Dict<K, V>, k: K, v: V)
    requires k in Keys(d)
    ensures Keys(Put(d, k, v)) == Keys(d)
  {
    if d[0].0 != k {
      assert forall j :: 0 <= j < |d| - 1 ==> Keys(d[1..])[j] == Keys(d)[j + 1];
      PutPresent(d[1..], k, v);
    }
  }

  /** After `d[k] = v`, `d[k]` is `v` and every other key keeps its value. */
  lemma {:induction false} PutGet<K, V>(d: Dict<K, V>, k: K, v: V, other: K)
    ensures Get(Put(d, k, v), k) == Some(v)
    ensures other != k ==> Get(Put(d, k, v), other) == Get(d, other)
  {
    if d != [] && d[0].0 != k {
      PutGet(d[1..], k, v, other);
    }
  }

  /** In a dict without repeated keys, the value stored under the i-th key is
      the i-th value. */
  lemma {:induction false} GetAt<K, V>(d: Dict<K, V>, i: nat)
    requires DistinctKeys(d) && i < |d|
    ensures Get(d, d[i].0) == Some(d[i].1)
  {
    if i > 0 {
      assert d[0].0 != d[i].0;
      GetAt(d[1..], i - 1);
    }
  }

  /** The dict pairing `ks[i]` with `vs[i]`. */
  function Zip<K, V>(ks: seq<K>, vs: seq<V>): (d: Dict<K, V>)
    requires |ks| == |vs|
    ensures Keys(d) == ks
  {
    seq(|ks|, i requires 0 <= i < |ks| => (ks[i], vs[i]))
  }

  /** Storing a fresh key extends both columns of a zipped dict. */
  lemma PutFreshZip<K, V>(ks: seq<K>, vs: seq<V>, k: K, v: V)
    requires |ks| == |vs| && k !in ks
    ensures Put(Zip(ks, vs), k, v) == Zip(ks + [k], vs + [v])
  {
    PutFresh(Zip(ks, vs), k, v);
    assert Zip(ks, vs) + [(k, v)] == Zip(ks + [k], vs + [v]);
  }

  /** A zipped dict of distinct keys finds the i-th value under the i-th key. */
  lemma GetZip<K, V>(ks: seq<K>, vs: seq<V>, i: nat)
    requires |ks| == |vs| && i < |ks|
    requires forall p, q :: 0 <= p < q < |ks| ==> ks[p] != ks[q]
    ensures Get(Zip(ks, vs), ks[i]) == Some(vs[i])
  {
    GetAt(Zip(ks, vs), i);
  }

  /** The dict built by storing `results[j]` under `keys[j]` for j < i, or
      the first error among those results. */
  function Collect<K(==), V, E>(keys: seq<K>, results: seq<Result<V, E>>, i: nat): Result<Dict<K, V>, E>
    requires i <= |keys| && i <= |results|
  {
    if i == 0 then Ok([])
    else
      match Collect(keys, results, i - 1)
      case Err(e) => Err(e)
      case Ok(table) =>
        match results[i - 1]
        case Err(e) => Err(e)
        case Ok(v) => Ok(Put(table, keys[i - 1], v))
  }

  lemma {:induction false} CollectErrorPersists<K, V, E>(keys: seq<K>, results: seq<Result<V, E>>, i: nat, m: nat)
    requires i <= m <= |keys| && m <= |results|
    requires Collect(keys, results, i).Err?
    ensures Collect(keys, results, m) == Collect(keys, results, i)
    decreases m - i
  {
    if i < m {
      CollectErrorPersists(keys, results, i, m - 1);
    }
  }

  /** One step of a loop that fills a dict: an error ends the loop with
      that error, a value is stored under its key. */
  lemma CollectStep<K, V, E>(keys: seq<K>, results: seq<Result<V, E>>, i: nat, n: nat, table: Dict<K, V>)
    requires i < n <= |keys| && n <= |results|
    requires Collect(keys, results, i) == Ok(table)
    ensures results[i].Err? ==> Collect(keys, results, n) == Err(results[i].error)
    ensures results[i].Ok? ==> Collect(keys, results, i + 1) == Ok(Put(table, keys[i], results[i].value))
  {
    if results[i].Err? {
      CollectErrorPersists(keys, results, i + 1, n);
    }
  }

  /** `CollectStep`, for a loop that has computed `results[i]` itself. */
  lemma CollectNext<K, V, E>(keys: seq<K>, results: seq<Result<V, E>>, i: nat, n: nat, table: Dict<K, V>, r: Result<V, E>)
    requires i < n <= |keys| && n <= |results|
    requires Collect(keys, results, i) == Ok(table) && results[i] == r
    ensures r.Err? ==> Collect(keys, results, n) == Err(r.error)
    ensures r.Ok? ==> Collect(keys, results, i + 1) == Ok(Put(table, keys[i], r.value))
  {
    CollectStep(keys, results, i, n, table);
  }

  /** An error of `Collect` is the error of one of the results it visited. */
  lemma {:induction false} CollectErrorOrigin<K, V, E>(keys: seq<K>, results: seq<Result<V, E>>, i: nat)
    requires i <= |keys| && i <= |results|
    requires Collect(keys, results, i).Err?
    ensures exists j :: 0 <= j < i && results[j] == Err(Collect(keys, results, i).error)
  {
    if Collect(keys, results, i - 1).Err? {
      CollectErrorOrigin(keys, results, i - 1);
    }
  }

  /** `Collect` succeeds exactly when every result it visits does. */
  lemma {:induction false} CollectAllOk<K, V, E>(keys: seq<K>, results: seq<Result<V, E>>, i: nat)
    requires i <= |keys| && i <= |results|
    ensures Collect(keys, results, i).Ok? <==> forall j :: 0 <= j < i ==> results[j].Ok?
  {
    if i > 0 {
      CollectAllOk(keys, results, i - 1);
    }
  }

  /** Over distinct keys, a successful `Collect` holds the keys it visited,
      in order. */
  lemma {:induction false} CollectKeys<K, V, E>(keys: seq<K>, results: seq<Result<V, E>>, i: nat)
    requires i <= |keys| && i <= |results|
    requires forall p, q :: 0 <= p < q < |keys| ==> keys[p] != keys[q]
    requires Collect(keys, results, i).Ok?
    ensures Keys(Collect(keys, results, i).value) == keys[..i]
  {
    if i > 0 {
      var table, k, ks := Collect(keys, results, i - 1).value, keys[i - 1], keys[..i - 1];
      CollectKeys(keys, results, i - 1);
      assert Collect(keys, results, i).value == Put(table, k, results[i - 1].value);
      forall p | 0 <= p < |ks| ensures ks[p] != k {
        assert ks[p] == keys[p];
      }
      PutAppend(table, k, results[i - 1].value, ks);
      assert ks + [k] == keys[..i];
    }
  }

  /** Over distinct keys, a successful `Collect` stores each result under
      its own key, in order. */
  lemma {:induction false} CollectTable<K, V, E>(keys: seq<K>, results: seq<Result<V, E>>, i: nat)
    requires i <= |keys| && i <= |results|
    requires forall p, q :: 0 <= p < q < |keys| ==> keys[p] != keys[q]
    requires Collect(keys, results, i).Ok?
    ensures Keys(Collect(keys, results, i).value) == keys[..i]
    ensures forall j :: 0 <= j < i ==>
              results[j].Ok? && Get(Collect(keys, results, i).value, keys[j]) == Some(results[j].value)
  {
    CollectKeys(keys, results, i);
    CollectAllOk(keys, results, i);
    if i > 0 {
      var table, k, v := Collect(keys, results, i - 1).value, keys[i - 1], results[i - 1].value;
      CollectTable(keys, results, i - 1);
      forall j | 0 <= j < i
        ensures Get(Put(table, k, v), keys[j]) == Some(results[j].value)
      {
        PutGet(table, k, v, keys[j]);
      }
    }
  }

  /** A `Collect` over all of its keys builds the dict exactly when every
      result is a value, and then, over distinct keys, holds every key in
      order with its own result. */
  lemma CollectDict<K, V, E>(keys: seq<K>, results: seq<Result<V, E>>)
    requires |keys| == |results|
    requires forall p, q :: 0 <= p < q < |keys| ==> keys[p] != keys[q]
    ensures Collect(keys, results, |keys|).Ok? <==> forall j :: 0 <= j < |keys| ==> results[j].Ok?
    ensures Collect(keys, results, |keys|).Ok? ==>
              && Keys(Collect(keys, results, |keys|).value) == keys
              && forall j :: 0 <= j < |keys| ==>
                   results[j].Ok? && Get(Collect(keys, results, |keys|).value, keys[j]) == Some(results[j].value)
  {
    CollectAllOk(keys, results, |keys|);
    if Collect(keys, results, |keys|).Ok? {
      CollectTable(keys, results, |keys|);
      assert keys[..|keys|] == keys;
    }
  }

  /** Storing a key the dict does not hold appends it to the keys. */
  lemma PutAppend<K, V>(table: Dict<K, V>, k: K, v: V, ks: seq<K>)
    requires Keys(table) == ks
    requires forall p :: 0 <= p < |ks| ==> ks[p] != k
    ensures Keys(Put(table, k, v)) == ks + [k]
  {
    assert k !in Keys(table);
    PutFresh(table, k, v);
    assert Keys(table + [(k, v)]) == ks + [k];
  }
}
