/** `slice::sort_by` with a comparator on a real key (`partial_cmp` with
    `Equal` as the fallback), followed by `truncate` / `take`. The sort is
    stable like Rust's: an element is inserted after every element whose
    key is not larger. */
module Sorting {

  predicate SortedBy<T>(s: seq<T>, key: T -> real) {
    forall i, j :: 0 <= i < j < |s| ==> key(s[i]) <= key(s[j])
  }

  function Min(a: int, b: int): int {
    if a <= b then a else b
  }

  /** Inserts `x` after the last element whose key is at most `key(x)`. */
  function InsertBy<T>(s: seq<T>, x: T, key: T -> real): (r: seq<T>)
    requires SortedBy(s, key)
    ensures |r| == |s| + 1
    ensures multiset(r) == multiset(s) + multiset{x}
    ensures forall y :: y in r ==> y in s || y == x
    ensures SortedBy(r, key)
  {
    if s == [] then [x]
    else
      var last := s[|s| - 1];
      if key(last) <= key(x) then s + [x]
      else
        var init := s[..|s| - 1];
        assert s == init + [last];
        var u := InsertBy(init, x, key);
        forall y | y in u ensures key(y) <= key(last) {
          if y in init {
            var i :| 0 <= i < |init| && init[i] == y;
            assert s[i] == y;
          }
        }
        AppendLargest(u, last, key);
        u + [last]
  }

  /** Appending an element whose key is at least every key keeps the order. */
  lemma AppendLargest<T>(u: seq<T>, last: T, key: T -> real)
    requires SortedBy(u, key)
    requires forall y :: y in u ==> key(y) <= key(last)
    ensures SortedBy(u + [last], key)
  {
    var r := u + [last];
    forall i, j | 0 <= i < j < |r| ensures key(r[i]) <= key(r[j]) {
      assert r[i] == u[i];
      if j < |u| {
        assert r[j] == u[j];
      }
    }
  }

  /** A stable sort by ascending key. */
  function SortBy<T>(s: seq<T>, key: T -> real): (r: seq<T>)
    ensures |r| == |s|
    ensures multiset(r) == multiset(s)
    ensures SortedBy(r, key)
  {
    if s == [] then []
    else
      assert s == s[..|s| - 1] + [s[|s| - 1]];
      InsertBy(SortBy(s[..|s| - 1], key), s[|s| - 1], key)
  }

  /** The elements of `s` whose key is `k`, in their order in `s`. */
  function WithKey<T>(s: seq<T>, key: T -> real, k: real): (r: seq<T>)
    ensures |r| <= |s|
    ensures forall y :: y in r ==> y in s && key(y) == k
  {
    if s == [] then []
    else
      var last := s[|s| - 1];
      WithKey(s[..|s| - 1], key, k) + if key(last) == k then [last] else []
  }

  /** Inserting `x` puts it after every element with the same key, so the
      elements of its key keep their order and `x` comes last among them. */
  lemma {:induction false} InsertByStable<T>(s: seq<T>, x: T, key: T -> real, k: real)
    requires SortedBy(s, key)
    ensures WithKey(InsertBy(s, x, key), key, k) == WithKey(s, key, k) + if key(x) == k then [x] else []
    decreases |s|
  {
    if s != [] {
      var last := s[|s| - 1];
      var init := s[..|s| - 1];
      if key(last) <= key(x) {
        assert (s + [x])[..|s|] == s;
      } else {
        PrefixSorted(s, |s| - 1, key);
        InsertByStable(init, x, key, k);
        var u := InsertBy(init, x, key);
        assert InsertBy(s, x, key) == u + [last];
        assert (u + [last])[..|u|] == u;
      }
    }
  }

  /** `SortBy` is stable: the elements of any one key come out in the
      order they went in. */
  lemma {:induction false} SortByStable<T>(s: seq<T>, key: T -> real, k: real)
    ensures WithKey(SortBy(s, key), key, k) == WithKey(s, key, k)
  {
    if s != [] {
      var init := s[..|s| - 1];
      SortByStable(init, key, k);
      InsertByStable(SortBy(init, key), s[|s| - 1], key, k);
    }
  }

  /** A prefix of a sorted sequence is sorted. */
  lemma PrefixSorted<T>(t: seq<T>, m: nat, key: T -> real)
    requires SortedBy(t, key) && m <= |t|
    ensures SortedBy(t[..m], key)
  {
    var r := t[..m];
    forall i, j | 0 <= i < j < |r| ensures key(r[i]) <= key(r[j]) {
      assert r[i] == t[i] && r[j] == t[j];
    }
  }

  /** Cutting a sorted sequence after `m` elements keeps the `m` smallest. */
  lemma PrefixHoldsSmallest<T>(t: seq<T>, m: nat, key: T -> real)
    requires SortedBy(t, key) && m <= |t|
    ensures forall x, y :: x in multiset(t) - multiset(t[..m]) && y in t[..m] ==> key(y) <= key(x)
  {
    var r := t[..m];
    assert t == r + t[m..];
    assert multiset(t) - multiset(r) == multiset(t[m..]);
    forall x, y | x in multiset(t[m..]) && y in r ensures key(y) <= key(x) {
      var j :| 0 <= j < |t[m..]| && t[m..][j] == x;
      var i :| 0 <= i < m && r[i] == y;
      assert t[i] == y && t[m + j] == x;
    }
  }

  /** `sort_by` then `truncate(k)`: the result is drawn from the input, and
      every input element left out has a key at least as large as every
      element kept. */
  lemma SortThenTruncate<T>(s: seq<T>, k: nat, key: T -> real)
    ensures var r := SortBy(s, key)[..Min(k, |s|)];
            && |r| == Min(k, |s|)
            && multiset(r) <= multiset(s)
            && SortedBy(r, key)
            && forall x, y :: x in multiset(s) - multiset(r) && y in r ==> key(y) <= key(x)
  {
    var t := SortBy(s, key);
    var m := Min(k, |s|);
    assert t == t[..m] + t[m..];
    PrefixSorted(t, m, key);
    PrefixHoldsSmallest(t, m, key);
  }
}
