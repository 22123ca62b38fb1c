/** Keys ordered by an integer sort key: the model of an SQL `ORDER BY` over
    the rows of a table, where rows whose keys tie may come in any order. */
module Ordering {

  /** `s` is in non-decreasing order of `key`. */
  predicate SortedBy(s: seq<int>, key: int -> int) {
    forall i, j :: 0 <= i < j < |s| ==> key(s[i]) <= key(s[j])
  }

  /** Inserts `x` before the first element whose key is not smaller. */
  function InsertBy(s: seq<int>, x: int, key: int -> int): (r: seq<int>)
    requires SortedBy(s, key)
    ensures SortedBy(r, key)
    ensures multiset(r) == multiset(s) + multiset{x}
  {
    if |s| == 0 then [x]
    else if key(x) <= key(s[0]) then [x] + s
    else
      var tail := InsertBy(s[1..], x, key);
      assert s == [s[0]] + s[1..];
      SortedTailBounded(s, key);
      BoundCarriesOver(tail, s[1..], x, key(s[0]), key);
      ConsSorted(s[0], tail, key);
      [s[0]] + tail
  }

  /** Every element of `s` has a key of at least `b`. */
  predicate KeysAtLeast(s: seq<int>, b: int, key: int -> int) {
    forall i :: 0 <= i < |s| ==> b <= key(s[i])
  }

  /** In a sorted sequence, every later key is at least the first. */
  lemma SortedTailBounded(s: seq<int>, key: int -> int)
    requires SortedBy(s, key) && |s| > 0
    ensures KeysAtLeast(s[1..], key(s[0]), key)
  {
    forall i | 0 <= i < |s| - 1
      ensures key(s[0]) <= key(s[1..][i])
    {
      assert s[1..][i] == s[i + 1];
    }
  }

  /** A bound on the keys of `u` and on the key of `x` bounds every element
      of a sequence holding exactly `u` and `x`. */
  lemma BoundCarriesOver(t: seq<int>, u: seq<int>, x: int, b: int, key: int -> int)
    requires multiset(t) == multiset(u) + multiset{x}
    requires KeysAtLeast(u, b, key) && b <= key(x)
    ensures KeysAtLeast(t, b, key)
  {
    forall k | 0 <= k < |t|
      ensures b <= key(t[k])
    {
      assert t[k] in multiset(t);
      if t[k] != x {
        assert t[k] in multiset(u);
        var m :| 0 <= m < |u| && u[m] == t[k];
      }
    }
  }

  lemma ConsSorted(h: int, t: seq<int>, key: int -> int)
    requires SortedBy(t, key) && KeysAtLeast(t, key(h), key)
    ensures SortedBy([h] + t, key)
  {
    forall i, j | 0 <= i < j < |[h] + t|
      ensures key(([h] + t)[i]) <= key(([h] + t)[j])
    {
      if i > 0 {
        assert ([h] + t)[i] == t[i - 1];
      }
      assert ([h] + t)[j] == t[j - 1];
    }
  }

  /** Lists every element of `keys` once, in non-decreasing order of `key`. */
  method SortedKeys(keys: set<int>, key: int -> int) returns (ks: seq<int>)
    ensures SortedBy(ks, key)
    ensures multiset(ks) == multiset(keys)
  {
    ks := [];
    var rest := keys;
    while rest != {}
      invariant SortedBy(ks, key)
      invariant multiset(ks) + multiset(rest) == multiset(keys)
      decreases |rest|
    {
      HasElement(rest);
      var k :| k in rest;
      ks := InsertBy(ks, k, key);
      rest := rest - {k};
    }
  }

  lemma HasElement(s: set<int>)
    requires s != {}
    ensures exists y :: y in s
  {
    if forall y :: y !in s { assert false; }
  }
}
