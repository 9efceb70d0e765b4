/** Descending order on a two-part rank, as an SQL `ORDER BY a DESC, b DESC`
    produces it, and an insertion sort that establishes it. The store's order
    among rows of equal rank is unspecified; the sort keeps their input order. */
module Ordering {

  /** A sort key: the first component decides, the second breaks ties. */
  type Rank = (int, int)

  /** `a` may stand before `b` in a descending listing. */
  predicate Outranks(a: Rank, b: Rank) {
    a.0 > b.0 || (a.0 == b.0 && a.1 >= b.1)
  }

  predicate SortedDesc<T>(s: seq<T>, key: T -> Rank) {
    forall i, j :: 0 <= i < j < |s| ==> Outranks(key(s[i]), key(s[j]))
  }

  /** Insert `x` before the first element it outranks. */
  function Insert<T>(x: T, s: seq<T>, key: T -> Rank): (r: seq<T>)
    requires SortedDesc(s, key)
    ensures SortedDesc(r, key)
    ensures multiset(r) == multiset(s) + multiset{x}
  {
    if s == [] then [x]
    else if Outranks(key(x), key(s[0])) then
      assert forall j :: 0 <= j < |s| ==> Outranks(key(x), key(s[j]));
      [x] + s
    else
      var tail := Insert(x, s[1..], key);
      assert s == [s[0]] + s[1..];
      forall k | 0 <= k < |tail| ensures Outranks(key(s[0]), key(tail[k])) {
        assert tail[k] in multiset(tail);
        if tail[k] != x {
          assert tail[k] in multiset(s[1..]);
          var j :| 0 <= j < |s[1..]| && s[1..][j] == tail[k];
          assert s[j + 1] == tail[k];
        }
      }
      [s[0]] + tail
  }

  /** The rows of `s`, ordered by descending `key`. */
  function SortDesc<T>(s: seq<T>, key: T -> Rank): (r: seq<T>)
    ensures SortedDesc(r, key)
    ensures multiset(r) == multiset(s)
    ensures |r| == |s|
  {
    if s == [] then []
    else
      assert s == [s[0]] + s[1..];
      Insert(s[0], SortDesc(s[1..], key), key)
  }
}
