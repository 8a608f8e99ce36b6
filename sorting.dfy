/**
 * Python's `sorted(xs, key=key, reverse=True)`: a stable sort into non-increasing
 * key order, in which items with equal keys keep their original relative order.
 */
module Sorting {

  ghost predicate Descending<T>(xs: seq<T>, key: T -> int) {
    forall i, j :: 0 <= i < j < |xs| ==> key(xs[i]) >= key(xs[j])
  }

  /** Places `x` before the first element whose key is not larger than its own. */
  function Insert<T>(x: T, ys: seq<T>, key: T -> int): (r: seq<T>)
    requires Descending(ys, key)
    ensures |r| == |ys| + 1
    ensures multiset(r) == multiset(ys) + multiset{x}
    ensures Descending(r, key)
    ensures r[0] == x || (ys != [] && r[0] == ys[0])
  {
    if ys == [] || key(ys[0]) <= key(x) then
      ConsDescending(x, ys, key);
      [x] + ys
    else
      var rest := Insert(x, ys[1..], key);
      assert ys == [ys[0]] + ys[1..];
      ConsDescending(ys[0], rest, key);
      [ys[0]] + rest
  }

  lemma ConsDescending<T>(a: T, s: seq<T>, key: T -> int)
    requires Descending(s, key)
    requires s == [] || key(a) >= key(s[0])
    ensures Descending([a] + s, key)
  {
    var r := [a] + s;
    forall i, j | 0 <= i < j < |r| ensures key(r[i]) >= key(r[j]) {
      if i == 0 {
        assert r[j] == s[j - 1];
      } else {
        assert r[i] == s[i - 1] && r[j] == s[j - 1];
      }
    }
  }

  function SortDesc<T>(xs: seq<T>, key: T -> int): (r: seq<T>)
    ensures |r| == |xs|
    ensures multiset(r) == multiset(xs)
    ensures Descending(r, key)
  {
    if xs == [] then []
    else
      assert xs == [xs[0]] + xs[1..];
      Insert(xs[0], SortDesc(xs[1..], key), key)
  }

  /**
   * Taking a prefix of a sorted list keeps the largest keys: nothing left out
   * has a larger key than anything kept.
   */
  lemma PrefixKeepsLargest<T>(r: seq<T>, key: T -> int, n: nat)
    requires Descending(r, key)
    requires n <= |r|
    ensures Descending(r[..n], key)
    ensures forall i, j :: 0 <= i < n <= j < |r| ==> key(r[i]) >= key(r[j])
  {
  }
}
