/** Python dictionaries remember the order in which keys were first inserted,
    and that order decides how later loops and stable sorts break ties.  A
    dictionary is modelled as a sequence of (key, value) pairs; `Put` is the
    assignment `d[k] = v`, which overwrites an existing key in place and
    appends a new one at the end. */
module OrderedDict {
  import opened Wrappers

  /** The keys of `d`, in insertion order. */
  function Keys<K, V>(d: seq<(K, V)>): seq<K> {
    seq(|d|, i requires 0 <= i < |d| => d[i].0)
  }

  /** The keys of a dictionary with one more entry at the end. */
  lemma KeysSnoc<K, V>(d: seq<(K, V)>)
    requires d != []
    ensures Keys(d) == Keys(d[..|d| - 1]) + [d[|d| - 1].0]
  {
  }

  /** Every key occurs once, as in a real dictionary. */
  ghost predicate DistinctKeys<K, V>(d: seq<(K, V)>) {
    forall i, j :: 0 <= i < j < |d| ==> d[i].0 != d[j].0
  }

  /** Position of key `k` in `d` (its first occurrence), or -1. */
  function Find<K(==), V>(d: seq<(K, V)>, k: K): (i: int)
    ensures -1 <= i < |d|
    ensures i >= 0 ==> d[i].0 == k && forall j :: 0 <= j < i ==> d[j].0 != k
    ensures i == -1 <==> k !in Keys(d)
  {
    if d == [] then -1
    else if d[0].0 == k then assert Keys(d)[0] == k; 0
    else
      var i := Find(d[1..], k);
      assert Keys(d) == [d[0].0] + Keys(d[1..]);
      if i == -1 then -1 else i + 1
  }

  /** The first position holding `k` is what `Find` returns. */
  lemma FindAt<K, V>(d: seq<(K, V)>, k: K, i: int)
    requires 0 <= i < |d| && d[i].0 == k
    requires forall j :: 0 <= j < i ==> d[j].0 != k
    ensures Find(d, k) == i
  {
    assert Keys(d)[i] == k;
  }

  /** `d[k]` */
  function Get<K(==), V>(d: seq<(K, V)>, k: K): V
    requires k in Keys(d)
  {
    d[Find(d, k)].1
  }

  /** `d[k] = v` */
  function Put<K(==), V>(d: seq<(K, V)>, k: K, v: V): (r: seq<(K, V)>)
    ensures Keys(r) == if k in Keys(d) then Keys(d) else Keys(d) + [k]
    ensures Get(r, k) == v
    ensures forall k' :: k' in Keys(d) && k' != k ==> Get(r, k') == Get(d, k')
  {
    var i := Find(d, k);
    if i >= 0 then
      var r := d[i := (k, v)];
      assert Keys(r) == Keys(d);
      FindAt(r, k, i);
      forall k' | k' in Keys(d) && k' != k
        ensures Find(r, k') == Find(d, k')
      {
        FindAt(r, k', Find(d, k'));
      }
      r
    else
      var r := d + [(k, v)];
      assert Keys(r) == Keys(d) + [k];
      assert forall j :: 0 <= j < |d| ==> r[j].0 == Keys(d)[j];
      FindAt(r, k, |d|);
      forall k' | k' in Keys(d) && k' != k
        ensures Find(r, k') == Find(d, k')
      {
        FindAt(r, k', Find(d, k'));
      }
      r
  }

  /** After `d[k] = v`, the keys are those of `d` and `k`. */
  lemma InKeysPut<K, V>(d: seq<(K, V)>, k: K, v: V, x: K)
    ensures x in Keys(Put(d, k, v)) <==> x == k || x in Keys(d)
  {
    if k !in Keys(d) {
      assert Keys(Put(d, k, v)) == Keys(d) + [k];
    }
  }

  /** Assignment keeps the keys distinct. */
  lemma PutDistinct<K, V>(d: seq<(K, V)>, k: K, v: V)
    requires DistinctKeys(d)
    ensures DistinctKeys(Put(d, k, v))
  {
    var r := Put(d, k, v);
    if k !in Keys(d) {
      assert forall j :: 0 <= j < |d| ==> r[j].0 == Keys(d)[j];
    }
  }

  /** In a dictionary with distinct keys, the entry at position `i` is what
      `Get` returns for its key. */
  lemma GetAt<K, V>(d: seq<(K, V)>, i: int)
    requires DistinctKeys(d) && 0 <= i < |d|
    ensures d[i].0 in Keys(d) && Get(d, d[i].0) == d[i].1
  {
    assert Keys(d)[i] == d[i].0;
  }

  /** With distinct keys, the last key does not occur before it. */
  lemma LastKeyFresh<K, V>(d: seq<(K, V)>)
    requires DistinctKeys(d) && d != []
    ensures d[|d| - 1].0 !in Keys(d[..|d| - 1])
  {
    var front := d[..|d| - 1];
    forall i | 0 <= i < |front| ensures Keys(front)[i] != d[|d| - 1].0 {
      assert Keys(front)[i] == d[i].0;
    }
  }

  /** A key found before the last entry is found at the same place in the
      whole dictionary. */
  lemma FindFront<K, V>(d: seq<(K, V)>, k: K)
    requires d != [] && k in Keys(d[..|d| - 1])
    ensures Find(d, k) == Find(d[..|d| - 1], k)
  {
    var front := d[..|d| - 1];
    var i := Find(front, k);
    assert d[i] == front[i];
    forall j | 0 <= j < i ensures d[j].0 != k {
      assert d[j] == front[j];
    }
    FindAt(d, k, i);
  }

  /** `d.get(k)` */
  function Lookup<K(==), V>(d: seq<(K, V)>, k: K): Option<V> {
    if k in Keys(d) then Some(Get(d, k)) else None
  }

  /** After `d[k] = v`, `k` reads `v` and every other key reads as before. */
  lemma LookupPut<K, V>(d: seq<(K, V)>, k: K, v: V, k': K)
    ensures Lookup(Put(d, k, v), k') == if k' == k then Some(v) else Lookup(d, k')
  {
  }

  /** Assigning a key twice leaves only the second value, in the same place. */
  lemma PutTwice<K, V>(d: seq<(K, V)>, k: K, v: V, w: V)
    ensures Put(Put(d, k, v), k, w) == Put(d, k, w)
  {
    var i := Find(d, k);
    var r := Put(d, k, v);
    if i >= 0 {
      assert r == d[i := (k, v)];
      FindAt(r, k, i);
      assert Put(r, k, w) == r[i := (k, w)];
    } else {
      assert r == d + [(k, v)];
      forall j | 0 <= j < |d| ensures r[j].0 != k {
        assert r[j] == d[j] && Keys(d)[j] == d[j].0;
      }
      FindAt(r, k, |d|);
      assert Put(r, k, w) == r[|d| := (k, w)];
    }
  }
}
