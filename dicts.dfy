/** Python's `dict` as the model sees it: a sequence of (key, value) pairs
    in insertion order with no key twice. Assigning to a present key keeps
    its position and replaces its value; a new key goes to the end. */
module Dicts {
  import opened Wrappers
  import opened Seqs

  type Dict<K, V> = seq<(K, V)>

  function Keys<K, V>(d: Dict<K, V>): (ks: seq<K>)
    ensures |ks| == |d|
    ensures forall i :: 0 <= i < |d| ==> ks[i] == d[i].0
  {
    if d == [] then [] else [d[0].0] + Keys(d[1..])
  }

  function Values<K, V>(d: Dict<K, V>): (vs: seq<V>)
    ensures |vs| == |d|
    ensures forall i :: 0 <= i < |d| ==> vs[i] == d[i].1
  {
    if d == [] then [] else [d[0].1] + Values(d[1..])
  }

  ghost predicate UniqueKeys<K, V>(d: Dict<K, V>) {
    forall i, j :: 0 <= i < j < |d| ==> d[i].0 != d[j].0
  }

  /** `d.get(k)`. */
  function Get<K(==), V>(d: Dict<K, V>, k: K): (r: Option<V>)
    ensures r.None? <==> k !in Keys(d)
  {
    if d == [] then None
    else if d[0].0 == k then Some(d[0].1)
    else Get(d[1..], k)
  }

  /** A key that is found is found at some position of the dictionary. */
  lemma {:induction false} GetSomeAt<K, V>(d: Dict<K, V>, k: K)
    requires Get(d, k).Some?
    ensures exists i :: 0 <= i < |d| && d[i] == (k, Get(d, k).value)
  {
    if d[0].0 != k {
      GetSomeAt(d[1..], k);
      var i :| 0 <= i < |d[1..]| && d[1..][i] == (k, Get(d[1..], k).value);
      assert d[i + 1] == d[1..][i];
    } else {
      assert d[0] == (k, Get(d, k).value);
    }
  }

  lemma GetAt<K, V>(d: Dict<K, V>, i: nat)
    requires UniqueKeys(d) && i < |d|
    ensures Get(d, d[i].0) == Some(d[i].1)
  {
    if i > 0 { GetAt(d[1..], i - 1); }
  }

  /** `d[k] = v`. */
  function Put<K(==,!new), V>(d: Dict<K, V>, k: K, v: V): (r: Dict<K, V>)
    ensures k in Keys(d) ==> Keys(r) == Keys(d)
    ensures k !in Keys(d) ==> Keys(r) == Keys(d) + [k]
    ensures Get(r, k) == Some(v)
    ensures forall k' :: k' != k ==> Get(r, k') == Get(d, k')
  {
    if d == [] then [(k, v)]
    else if d[0].0 == k then [(k, v)] + d[1..]
    else
      var r := Put(d[1..], k, v);
      assert Keys([d[0]] + r) == [d[0].0] + Keys(r);
      [d[0]] + r
  }

  /** Assigning never duplicates a key. */
  lemma PutUnique<K(!new), V>(d: Dict<K, V>, k: K, v: V)
    requires UniqueKeys(d)
    ensures UniqueKeys(Put(d, k, v))
  {
    var r := Put(d, k, v);
    var ks := Keys(d);
    assert Distinct(Keys(r)) by {
      assert Distinct(ks) by {
        forall i, j | 0 <= i < j < |ks| ensures ks[i] != ks[j] {
          assert ks[i] == d[i].0 && ks[j] == d[j].0;
        }
      }
      if k !in ks {
        DistinctSnoc(ks, k);
      }
    }
    forall i, j | 0 <= i < j < |r| ensures r[i].0 != r[j].0 {
      assert r[i].0 == Keys(r)[i] && r[j].0 == Keys(r)[j];
    }
  }

  lemma KeysAppend<K, V>(d: Dict<K, V>, e: Dict<K, V>)
    ensures Keys(d + e) == Keys(d) + Keys(e)
  {
    assert forall i :: 0 <= i < |d + e| ==> Keys(d + e)[i] == (Keys(d) + Keys(e))[i];
  }

  /** A key of the first part is looked up there; any other in the second. */
  lemma {:induction false} GetAppend<K, V>(d: Dict<K, V>, e: Dict<K, V>, k: K)
    ensures Get(d + e, k) == if k in Keys(d) then Get(d, k) else Get(e, k)
  {
    if d == [] {
      assert d + e == e;
    } else {
      assert (d + e)[1..] == d[1..] + e;
      GetAppend(d[1..], e, k);
    }
  }

  /** Assigning a new key appends it. */
  lemma {:induction false} PutFresh<K(!new), V>(d: Dict<K, V>, k: K, v: V)
    requires k !in Keys(d)
    ensures Put(d, k, v) == d + [(k, v)]
  {
    if d != [] {
      assert Keys(d) == [d[0].0] + Keys(d[1..]);
      PutFresh(d[1..], k, v);
    }
  }

  /** Building a dict from pairs, later duplicates winning, as
      `{k: v for k, v in pairs}` does. */
  function FromPairs<K(==,!new), V>(ps: seq<(K, V)>): (d: Dict<K, V>) {
    if ps == [] then [] else Put(FromPairs(ps[..|ps| - 1]), ps[|ps| - 1].0, ps[|ps| - 1].1)
  }

  /** A dict built from pairs holds each key once. */
  lemma {:induction false} FromPairsUnique<K(!new), V>(ps: seq<(K, V)>)
    ensures UniqueKeys(FromPairs(ps))
  {
    if ps != [] {
      FromPairsUnique(ps[..|ps| - 1]);
      PutUnique(FromPairs(ps[..|ps| - 1]), ps[|ps| - 1].0, ps[|ps| - 1].1);
    }
  }

  /** The first key assigned stays first. */
  lemma {:induction false} FromPairsFirst<K(!new), V>(ps: seq<(K, V)>)
    requires ps != []
    ensures FromPairs(ps) != [] && FromPairs(ps)[0].0 == ps[0].0
  {
    var init := ps[..|ps| - 1];
    var d := FromPairs(init);
    if init != [] {
      FromPairsFirst(init);
      assert Keys(FromPairs(ps))[0] == Keys(d)[0];
    }
  }

  /** Assigning the pairs one more step. */
  lemma FromPairsSnoc<K(!new), V>(ps: seq<(K, V)>, i: nat)
    requires i < |ps|
    ensures FromPairs(ps[..i + 1]) == Put(FromPairs(ps[..i]), ps[i].0, ps[i].1)
  {
    assert ps[..i + 1][..i] == ps[..i];
  }

  /** No pair after position `i` has key `k`. */
  ghost predicate LastAt<K, V>(ps: seq<(K, V)>, k: K, i: nat) {
    forall j :: i < j < |ps| ==> ps[j].0 != k
  }

  /** The value the last pair with key `k` carries, if any. */
  function LastWith<K(==), V>(ps: seq<(K, V)>, k: K): (r: Option<V>)
    ensures r.None? <==> forall i :: 0 <= i < |ps| ==> ps[i].0 != k
    ensures r.Some? ==> exists i :: 0 <= i < |ps| && ps[i] == (k, r.value) && LastAt(ps, k, i)
  {
    if ps == [] then None
    else if ps[|ps| - 1].0 == k then Some(ps[|ps| - 1].1)
    else LastWith(ps[..|ps| - 1], k)
  }

  lemma {:induction false} FromPairsGet<K(!new), V>(ps: seq<(K, V)>, k: K)
    ensures Get(FromPairs(ps), k) == LastWith(ps, k)
  {
    if ps != [] { FromPairsGet(ps[..|ps| - 1], k); }
  }

  lemma KeysSnoc<K, V>(ps: seq<(K, V)>)
    requires ps != []
    ensures Keys(ps) == Keys(ps[..|ps| - 1]) + [ps[|ps| - 1].0]
  {
  }

  lemma ValuesSnoc<K, V>(ps: seq<(K, V)>)
    requires ps != []
    ensures Values(ps) == Values(ps[..|ps| - 1]) + [ps[|ps| - 1].1]
  {
  }

  /** `d[k].append(v)` on a `defaultdict(list)`. */
  function AppendAt<K(==,!new), V>(d: Dict<K, seq<V>>, k: K, v: V): Dict<K, seq<V>> {
    Put(d, k, Get(d, k).GetOr([]) + [v])
  }

  /** The buckets a loop `for k, v in ps: bucket[k].append(v)` builds. */
  function GroupPairs<K(==,!new), V>(ps: seq<(K, V)>): Dict<K, seq<V>> {
    if ps == [] then []
    else AppendAt(GroupPairs(ps[..|ps| - 1]), ps[|ps| - 1].0, ps[|ps| - 1].1)
  }

  lemma GroupPairsSnoc<K(!new), V>(ps: seq<(K, V)>, i: nat)
    requires i < |ps|
    ensures GroupPairs(ps[..i + 1]) == AppendAt(GroupPairs(ps[..i]), ps[i].0, ps[i].1)
  {
    assert ps[..i + 1][..i] == ps[..i];
  }

  /** The values paired with `k`, in their order in `ps`. */
  function Bucket<K(==), V>(ps: seq<(K, V)>, k: K): (b: seq<V>)
    ensures |b| <= |ps|
  {
    if ps == [] then []
    else if ps[|ps| - 1].0 == k then Bucket(ps[..|ps| - 1], k) + [ps[|ps| - 1].1]
    else Bucket(ps[..|ps| - 1], k)
  }

  /** A value is in the bucket of `k` exactly when it was paired with `k`. */
  lemma {:induction false} BucketMembers<K, V>(ps: seq<(K, V)>, k: K, v: V)
    ensures v in Bucket(ps, k) <==> (k, v) in ps
  {
    if ps != [] {
      BucketMembers(ps[..|ps| - 1], k, v);
      assert ps == ps[..|ps| - 1] + [ps[|ps| - 1]];
    }
  }

  /** Each key seen gets the bucket of the values paired with it; no other
      key is present. */
  lemma {:induction false} GroupPairsGet<K(!new), V>(ps: seq<(K, V)>, k: K)
    ensures k in Keys(ps) ==> Get(GroupPairs(ps), k) == Some(Bucket(ps, k))
    ensures k !in Keys(ps) ==> Get(GroupPairs(ps), k) == None && Bucket(ps, k) == []
  {
    if ps == [] {
      assert GroupPairs(ps) == [];
    } else {
      var q := ps[..|ps| - 1];
      var g := GroupPairs(q);
      var last := ps[|ps| - 1];
      GroupPairsGet(q, k);
      KeysSnoc(ps);
      assert k in Keys(ps) <==> k in Keys(q) || k == last.0;
      if k == last.0 {
        assert Get(GroupPairs(ps), k) == Some(Get(g, k).GetOr([]) + [last.1]);
        assert Get(g, k).GetOr([]) == Bucket(q, k);
        assert Bucket(ps, k) == Bucket(q, k) + [last.1];
      } else {
        assert Get(GroupPairs(ps), k) == Get(g, k);
      }
    }
  }

  /** The buckets come in order of each key's first occurrence. */
  lemma {:induction false} GroupPairsKeys<K(!new), V>(ps: seq<(K, V)>)
    ensures Keys(GroupPairs(ps)) == Dedup(Keys(ps))
  {
    if ps != [] {
      var q := ps[..|ps| - 1];
      GroupPairsKeys(q);
      KeysSnoc(ps);
      assert Keys(ps)[..|ps| - 1] == Keys(q);
    }
  }

  /** Appending to one bucket adds one element to the concatenated buckets,
      counted under any predicate. */
  lemma {:induction false} AppendAtCount<K(!new), V>(d: Dict<K, seq<V>>, k: K, v: V, p: V -> bool)
    ensures |Filter(Flatten(Values(AppendAt(d, k, v))), p)|
         == |Filter(Flatten(Values(d)), p)| + (if p(v) then 1 else 0)
  {
    var b := Get(d, k).GetOr([]);
    if d == [] {
      var e: seq<V> := [];
      assert b == e && e + [v] == [v];
      assert AppendAt(d, k, v) == [(k, [v])];
      assert Values(AppendAt(d, k, v)) == [[v]];
      assert Flatten([[v]]) == [v] + Flatten([]);
    } else if d[0].0 == k {
      var r := AppendAt(d, k, v);
      assert r == [(k, d[0].1 + [v])] + d[1..];
      assert Values(r) == [d[0].1 + [v]] + Values(d[1..]);
      assert Flatten(Values(r)) == d[0].1 + [v] + Flatten(Values(d[1..]));
      FilterAppend(d[0].1 + [v], Flatten(Values(d[1..])), p);
      FilterAppend(d[0].1, [v], p);
      FilterAppend(d[0].1, Flatten(Values(d[1..])), p);
    } else {
      var r := AppendAt(d, k, v);
      assert r == [d[0]] + AppendAt(d[1..], k, v);
      AppendAtCount(d[1..], k, v, p);
      FilterAppend(d[0].1, Flatten(Values(AppendAt(d[1..], k, v))), p);
      FilterAppend(d[0].1, Flatten(Values(d[1..])), p);
    }
  }

  /** Grouping loses and invents nothing: the buckets together hold as many
      values satisfying `p` as the pairs do. */
  lemma {:induction false} GroupPairsCount<K(!new), V>(ps: seq<(K, V)>, p: V -> bool)
    ensures |Filter(Flatten(Values(GroupPairs(ps))), p)| == |Filter(Values(ps), p)|
  {
    if ps != [] {
      var q := ps[..|ps| - 1];
      assert GroupPairs(ps) == AppendAt(GroupPairs(q), ps[|ps| - 1].0, ps[|ps| - 1].1);
      GroupPairsCount(q, p);
      AppendAtCount(GroupPairs(q), ps[|ps| - 1].0, ps[|ps| - 1].1, p);
      ValuesSnoc(ps);
      FilterAppend(Values(q), [ps[|ps| - 1].1], p);
    }
  }

  ghost predicate NoEmptyBucket<K, V>(d: Dict<K, seq<V>>) {
    forall i :: 0 <= i < |d| ==> d[i].1 != []
  }

  lemma {:induction false} PutNonEmpty<K(!new), V>(d: Dict<K, seq<V>>, k: K, b: seq<V>)
    requires NoEmptyBucket(d) && b != []
    ensures NoEmptyBucket(Put(d, k, b))
  {
    if d != [] && d[0].0 != k {
      PutNonEmpty(d[1..], k, b);
      assert Put(d, k, b) == [d[0]] + Put(d[1..], k, b);
    }
  }

  /** A bucket only exists once something was appended to it. */
  lemma {:induction false} GroupPairsNonEmpty<K(!new), V>(ps: seq<(K, V)>)
    ensures NoEmptyBucket(GroupPairs(ps))
  {
    if ps != [] {
      var q := ps[..|ps| - 1];
      var g := GroupPairs(q);
      GroupPairsNonEmpty(q);
      PutNonEmpty(g, ps[|ps| - 1].0, Get(g, ps[|ps| - 1].0).GetOr([]) + [ps[|ps| - 1].1]);
    }
  }
}
