/** Python's insertion-ordered dictionary: assigning to a key that is present keeps the key's
    place and replaces its value, assigning to a new key appends. */
module OrderedDict {

  datatype Option<+T> = None | Some(value: T)

  type Dict<K, V> = seq<(K, V)>

  function Get<K(==), V>(d: Dict<K, V>, k: K): Option<V>
  {
    if d == [] then None
    else if d[0].0 == k then Some(d[0].1)
    else Get(d[1..], k)
  }

  /** `d[k] = v`. */
  function Put<K(==), V>(d: Dict<K, V>, k: K, v: V): Dict<K, V>
  {
    if d == [] then [(k, v)]
    else if d[0].0 == k then [(k, v)] + d[1..]
    else [d[0]] + Put(d[1..], k, v)
  }

  /** `{**d, **e}`, and equally the loop that assigns the items of `e` one by one. */
  function Merge<K(==), V>(d: Dict<K, V>, e: Dict<K, V>): Dict<K, V>
    decreases |e|
  {
    if e == [] then d else Merge(Put(d, e[0].0, e[0].1), e[1..])
  }

  /** `{k: v for k, v in d.items() if k != key}`. */
  function Without<K(==), V>(d: Dict<K, V>, key: K): Dict<K, V>
  {
    if d == [] then []
    else (if d[0].0 == key then [] else [d[0]]) + Without(d[1..], key)
  }

  function Values<K, V>(d: Dict<K, V>): (vs: seq<V>)
    ensures |vs| == |d| && forall i | 0 <= i < |d| :: vs[i] == d[i].1
  {
    seq(|d|, i requires 0 <= i < |d| => d[i].1)
  }

  predicate DistinctKeys<K(==), V>(d: Dict<K, V>)
  {
    forall i, j | 0 <= i < j < |d| :: d[i].0 != d[j].0
  }

  lemma {:induction false} GetMember<K, V>(d: Dict<K, V>, k: K)
    ensures Get(d, k).Some? <==> exists i :: 0 <= i < |d| && d[i].0 == k
    ensures Get(d, k).Some? ==> (k, Get(d, k).value) in d
  {
    if d != [] {
      GetMember(d[1..], k);
      if d[0].0 != k && exists i :: 0 <= i < |d| && d[i].0 == k {
        var i :| 0 <= i < |d| && d[i].0 == k;
        assert d[1..][i - 1].0 == k;
      }
    }
  }

  lemma {:induction false} GetAt<K, V>(d: Dict<K, V>, i: nat)
    requires DistinctKeys(d) && i < |d|
    ensures Get(d, d[i].0) == Some(d[i].1)
  {
    if i > 0 {
      GetAt(d[1..], i - 1);
    }
  }

  lemma {:induction false} GetPut<K, V>(d: Dict<K, V>, k: K, v: V, q: K)
    ensures Get(Put(d, k, v), q) == if q == k then Some(v) else Get(d, q)
  {
    if d != [] {
      GetPut(d[1..], k, v, q);
    }
  }

  lemma {:induction false} PutDistinct<K, V>(d: Dict<K, V>, k: K, v: V)
    requires DistinctKeys(d)
    ensures DistinctKeys(Put(d, k, v))
    ensures forall q :: Get(Put(d, k, v), q).Some? <==> q == k || Get(d, q).Some?
  {
    forall q { GetPut(d, k, v, q); }
    if d != [] && d[0].0 != k {
      PutDistinct(d[1..], k, v);
      var p := Put(d[1..], k, v);
      forall j | 0 <= j < |p|
        ensures p[j].0 != d[0].0
      {
        GetMember(p, d[0].0);
        GetPut(d[1..], k, v, d[0].0);
        GetMember(d[1..], d[0].0);
      }
    }
  }

  lemma {:induction false} GetMerge<K, V>(d: Dict<K, V>, e: Dict<K, V>, q: K)
    requires DistinctKeys(e)
    ensures Get(Merge(d, e), q) == if Get(e, q).Some? then Get(e, q) else Get(d, q)
    decreases |e|
  {
    if e != [] {
      GetMerge(Put(d, e[0].0, e[0].1), e[1..], q);
      GetPut(d, e[0].0, e[0].1, q);
      GetMember(e[1..], q);
    }
  }

  lemma {:induction false} MergeDistinct<K, V>(d: Dict<K, V>, e: Dict<K, V>)
    requires DistinctKeys(d)
    ensures DistinctKeys(Merge(d, e))
    decreases |e|
  {
    if e != [] {
      PutDistinct(d, e[0].0, e[0].1);
      MergeDistinct(Put(d, e[0].0, e[0].1), e[1..]);
    }
  }

  lemma {:induction false} GetWithout<K, V>(d: Dict<K, V>, key: K, q: K)
    ensures Get(Without(d, key), q) == if q == key then None else Get(d, q)
  {
    if d != [] {
      GetWithout(d[1..], key, q);
      assert d[0].0 != key ==> Without(d, key)[1..] == Without(d[1..], key);
      assert d[0].0 == key ==> Without(d, key) == Without(d[1..], key);
    }
  }

  lemma {:induction false} WithoutDistinct<K, V>(d: Dict<K, V>, key: K)
    requires DistinctKeys(d)
    ensures DistinctKeys(Without(d, key))
    ensures forall x | x in Without(d, key) :: x in d
  {
    if d != [] {
      WithoutDistinct(d[1..], key);
      var w := Without(d[1..], key);
      forall j | 0 <= j < |w|
        ensures w[j].0 != d[0].0
      {
        assert w[j] in d[1..];
      }
    }
  }

  lemma GetSingle<K, V>(k: K, v: V, q: K)
    ensures Get([(k, v)], q) == if k == q then Some(v) else None
  {
    assert [(k, v)][1..] == [];
  }

  lemma GetCons<K, V>(k: K, v: V, rest: Dict<K, V>, q: K)
    ensures Get([(k, v)] + rest, q) == if k == q then Some(v) else Get(rest, q)
  {
    assert ([(k, v)] + rest)[1..] == rest;
  }
}
