/** Python's `list.sort(key=...)` and `sorted(..., key=...)` are stable:
    elements with equal keys keep their relative order, also with
    `reverse=True`.  The model is a stable insertion sort on sequences,
    ascending by a real-valued key (a descending sort is an ascending sort
    on the negated key).  Its lemmas say what a caller may rely on: the
    result is sorted, it is a permutation of the input, and the elements
    sharing any one key appear in their original order. */
module StableSort {

  ghost predicate SortedBy<T>(s: seq<T>, key: T -> real) {
    forall i, j :: 0 <= i < j < |s| ==> key(s[i]) <= key(s[j])
  }

  /** Inserts `x` after every element whose key is at most `key(x)`. */
  function Insert<T>(x: T, s: seq<T>, key: T -> real): (r: seq<T>)
    ensures multiset(r) == multiset(s) + multiset{x}
  {
    if s == [] then [x]
    else if key(s[|s| - 1]) <= key(x) then s + [x]
    else
      assert s == s[..|s| - 1] + [s[|s| - 1]];
      Insert(x, s[..|s| - 1], key) + [s[|s| - 1]]
  }

  /** A sorted sequence stays sorted when an element no smaller than all
      of it is appended. */
  lemma SortedSnoc<T>(s: seq<T>, x: T, key: T -> real)
    requires SortedBy(s, key)
    requires forall i :: 0 <= i < |s| ==> key(s[i]) <= key(x)
    ensures SortedBy(s + [x], key)
  {
    var r := s + [x];
    forall i, j | 0 <= i < j < |r| ensures key(r[i]) <= key(r[j]) {
      assert r[i] == s[i];
      if j < |s| {
        assert r[j] == s[j];
      }
    }
  }

  lemma {:induction false} InsertSorted<T>(x: T, s: seq<T>, key: T -> real)
    requires SortedBy(s, key)
    ensures SortedBy(Insert(x, s, key), key)
    decreases |s|
  {
    if s == [] {
    } else if key(s[|s| - 1]) <= key(x) {
      SortedSnoc(s, x, key);
    } else {
      var last := s[|s| - 1];
      var front := s[..|s| - 1];
      assert SortedBy(front, key);
      InsertSorted(x, front, key);
      var r := Insert(x, front, key);
      forall k | 0 <= k < |r| ensures key(r[k]) <= key(last) {
        var y := r[k];
        assert y in multiset(r);
        if y != x {
          assert y in multiset(front);
          var i :| 0 <= i < |front| && front[i] == y;
          assert s[i] == y;
        }
      }
      SortedSnoc(r, last, key);
    }
  }

  /** `sorted(s, key=key)` */
  function SortBy<T>(s: seq<T>, key: T -> real): (r: seq<T>)
    ensures multiset(r) == multiset(s)
  {
    if s == [] then []
    else
      assert s == s[..|s| - 1] + [s[|s| - 1]];
      Insert(s[|s| - 1], SortBy(s[..|s| - 1], key), key)
  }

  lemma {:induction false} SortBySorted<T>(s: seq<T>, key: T -> real)
    ensures SortedBy(SortBy(s, key), key)
    decreases |s|
  {
    if s != [] {
      SortBySorted(s[..|s| - 1], key);
      InsertSorted(s[|s| - 1], SortBy(s[..|s| - 1], key), key);
    }
  }

  /** `[x]` when `x` has key `k`, else `[]`. */
  function Keep<T>(x: T, key: T -> real, k: real): seq<T> {
    if key(x) == k then [x] else []
  }

  /** The elements of `s` whose key is `k`, in their order in `s`. */
  function WithKey<T>(s: seq<T>, key: T -> real, k: real): seq<T> {
    if s == [] then []
    else WithKey(s[..|s| - 1], key, k) + Keep(s[|s| - 1], key, k)
  }

  lemma WithKeyAppend<T>(s: seq<T>, x: T, key: T -> real, k: real)
    ensures WithKey(s + [x], key, k) == WithKey(s, key, k) + Keep(x, key, k)
  {
    assert (s + [x])[..|s|] == s;
  }

  lemma {:induction false} InsertWithKey<T>(x: T, s: seq<T>, key: T -> real, k: real)
    ensures WithKey(Insert(x, s, key), key, k) == WithKey(s, key, k) + Keep(x, key, k)
    decreases |s|
  {
    if s == [] {
      WithKeyAppend([], x, key, k);
    } else if key(s[|s| - 1]) <= key(x) {
      WithKeyAppend(s, x, key, k);
    } else {
      var last := s[|s| - 1];
      var front := s[..|s| - 1];
      assert s == front + [last];
      assert Keep(x, key, k) + Keep(last, key, k) == Keep(last, key, k) + Keep(x, key, k);
      calc {
        WithKey(Insert(x, s, key), key, k);
        WithKey(Insert(x, front, key) + [last], key, k);
        { WithKeyAppend(Insert(x, front, key), last, key, k); }
        WithKey(Insert(x, front, key), key, k) + Keep(last, key, k);
        { InsertWithKey(x, front, key, k); }
        WithKey(front, key, k) + Keep(x, key, k) + Keep(last, key, k);
        WithKey(front, key, k) + Keep(last, key, k) + Keep(x, key, k);
        { WithKeyAppend(front, last, key, k); }
        WithKey(s, key, k) + Keep(x, key, k);
      }
    }
  }

  /** Stability: sorting does not reorder elements that share a key. */
  lemma {:induction false} SortByStable<T>(s: seq<T>, key: T -> real, k: real)
    ensures WithKey(SortBy(s, key), key, k) == WithKey(s, key, k)
    decreases |s|
  {
    if s != [] {
      var front := s[..|s| - 1];
      var last := s[|s| - 1];
      assert s == front + [last];
      calc {
        WithKey(SortBy(s, key), key, k);
        WithKey(Insert(last, SortBy(front, key), key), key, k);
        { InsertWithKey(last, SortBy(front, key), key, k); }
        WithKey(SortBy(front, key), key, k) + Keep(last, key, k);
        { SortByStable(front, key, k); }
        WithKey(front, key, k) + Keep(last, key, k);
      }
    }
  }

  /** Sorting an already sorted sequence changes nothing. */
  lemma {:induction false} SortBySortedIdentity<T>(s: seq<T>, key: T -> real)
    requires SortedBy(s, key)
    ensures SortBy(s, key) == s
    decreases |s|
  {
    if s != [] {
      var front, last := s[..|s| - 1], s[|s| - 1];
      assert SortedBy(front, key);
      SortBySortedIdentity(front, key);
      assert SortBy(s, key) == Insert(last, front, key);
      assert front != [] ==> key(front[|front| - 1]) <= key(last);
      assert Insert(last, front, key) == front + [last];
      assert s == front + [last];
    }
  }

  /** Sorting keeps exactly the elements it was given. */
  lemma SortByMembers<T>(s: seq<T>, key: T -> real)
    ensures forall x :: x in SortBy(s, key) <==> x in s
  {
    forall x ensures x in SortBy(s, key) <==> x in s {
      assert x in SortBy(s, key) <==> x in multiset(SortBy(s, key));
      assert x in s <==> x in multiset(s);
    }
  }
}
