/** Stable sorting by a natural-number key, the behaviour of Rust's `slice::sort_by_key`:
    the result is ordered by key, is a permutation of the input, and keeps entries with equal
    keys in their original order. */
module StableSort {

  predicate SortedBy<T>(s: seq<T>, key: T -> nat) {
    forall i, j :: 0 <= i < j < |s| ==> key(s[i]) <= key(s[j])
  }

  /** The entries whose key is `k`, in order. */
  function WithKey<T>(s: seq<T>, key: T -> nat, k: nat): seq<T> {
    if s == [] then []
    else WithKey(s[..|s| - 1], key, k) + (if key(s[|s| - 1]) == k then [s[|s| - 1]] else [])
  }

  /** Put `x` into `t` after the trailing entries whose key is not larger. */
  function Insert<T>(x: T, t: seq<T>, key: T -> nat): (r: seq<T>)
    ensures multiset(r) == multiset(t) + multiset{x}
  {
    if t == [] || key(t[|t| - 1]) <= key(x) then t + [x]
    else
      assert t == t[..|t| - 1] + [t[|t| - 1]];
      Insert(x, t[..|t| - 1], key) + [t[|t| - 1]]
  }

  /** Insertion sort, taking the entries from the front. */
  function SortBy<T>(s: seq<T>, key: T -> nat): (r: seq<T>)
    ensures multiset(r) == multiset(s)
  {
    if s == [] then []
    else
      assert s == s[..|s| - 1] + [s[|s| - 1]];
      Insert(s[|s| - 1], SortBy(s[..|s| - 1], key), key)
  }

  predicate KeysAtMost<T>(s: seq<T>, key: T -> nat, k: nat) {
    forall i :: 0 <= i < |s| ==> key(s[i]) <= k
  }

  lemma {:induction false} InsertKeysAtMost<T>(x: T, t: seq<T>, key: T -> nat, k: nat)
    requires KeysAtMost(t, key, k) && key(x) <= k
    ensures KeysAtMost(Insert(x, t, key), key, k)
    decreases |t|
  {
    if !(t == [] || key(t[|t| - 1]) <= key(x)) {
      InsertKeysAtMost(x, t[..|t| - 1], key, k);
    }
  }

  lemma {:induction false} InsertSorted<T>(x: T, t: seq<T>, key: T -> nat)
    requires SortedBy(t, key)
    ensures SortedBy(Insert(x, t, key), key)
    decreases |t|
  {
    if !(t == [] || key(t[|t| - 1]) <= key(x)) {
      var t' := t[..|t| - 1];
      var y := t[|t| - 1];
      InsertSorted(x, t', key);
      assert KeysAtMost(t', key, key(y));
      InsertKeysAtMost(x, t', key, key(y));
    }
  }

  /** The result is ordered by key. */
  lemma {:induction false} SortBySorted<T>(s: seq<T>, key: T -> nat)
    ensures SortedBy(SortBy(s, key), key)
  {
    if s != [] {
      SortBySorted(s[..|s| - 1], key);
      InsertSorted(s[|s| - 1], SortBy(s[..|s| - 1], key), key);
    }
  }

  lemma WithKeyAppend<T>(s: seq<T>, x: T, key: T -> nat, k: nat)
    ensures WithKey(s + [x], key, k) == WithKey(s, key, k) + (if key(x) == k then [x] else [])
  {
    assert (s + [x])[..|s + [x]| - 1] == s;
  }

  lemma {:induction false} InsertWithKey<T>(x: T, t: seq<T>, key: T -> nat, k: nat)
    ensures WithKey(Insert(x, t, key), key, k) == WithKey(t, key, k) + (if key(x) == k then [x] else [])
    decreases |t|
  {
    if t == [] || key(t[|t| - 1]) <= key(x) {
      WithKeyAppend(t, x, key, k);
    } else {
      var t' := t[..|t| - 1];
      var y := t[|t| - 1];
      var u := Insert(x, t', key);
      assert t == t' + [y];
      InsertWithKey(x, t', key, k);
      WithKeyAppend(u, y, key, k);
      WithKeyAppend(t', y, key, k);
      var xs := if key(x) == k then [x] else [];
      var ys := if key(y) == k then [y] else [];
      assert xs == [] || ys == [];
      assert WithKey(t', key, k) + xs + ys == WithKey(t', key, k) + ys + xs;
    }
  }

  /** Entries with equal keys keep their relative order. */
  lemma {:induction false} SortByStable<T>(s: seq<T>, key: T -> nat, k: nat)
    ensures WithKey(SortBy(s, key), key, k) == WithKey(s, key, k)
  {
    if s != [] {
      var s' := s[..|s| - 1];
      SortByStable(s', key, k);
      InsertWithKey(s[|s| - 1], SortBy(s', key), key, k);
    }
  }
}
