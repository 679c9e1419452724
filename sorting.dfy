/** The `sort` and `limit` stages the listings and the dashboard use: a sort
    on one numeric key, ascending or descending, and the first `k` of a
    descending sort. Among documents with equal keys the database promises
    no order; the model fixes one. */
module Sorting {
  import opened Common
  import opened Tables

  /** Keys never increase from left to right. */
  ghost predicate SortedDesc<T>(s: seq<T>, key: T -> int) {
    forall i, j :: 0 <= i < j < |s| ==> key(s[i]) >= key(s[j])
  }

  /** Keys never decrease from left to right. */
  ghost predicate SortedAsc<T>(s: seq<T>, key: T -> int) {
    forall i, j :: 0 <= i < j < |s| ==> key(s[i]) <= key(s[j])
  }

  /** Putting an element that outranks all of a descending sequence in
      front of it keeps it descending. */
  lemma ConsSorted<T>(a: T, s: seq<T>, key: T -> int)
    requires SortedDesc(s, key)
    requires forall y :: y in s ==> key(a) >= key(y)
    ensures SortedDesc([a] + s, key)
  {
    forall i, j | 0 <= i < j < |[a] + s| ensures key(([a] + s)[i]) >= key(([a] + s)[j]) {
      assert ([a] + s)[j] == s[j - 1];
      assert s[j - 1] in s;
    }
  }

  /** The head of a descending `s` outranks `x` and the rest of `s`, so it
      outranks everything the rest holds after `x` was added. */
  lemma HeadOutranks<T>(x: T, s: seq<T>, rest: seq<T>, key: T -> int)
    requires s != [] && SortedDesc(s, key) && key(x) < key(s[0])
    requires multiset(rest) == multiset(s[1..]) + multiset{x}
    ensures forall y :: y in rest ==> key(s[0]) >= key(y)
  {
    forall y | y in rest ensures key(s[0]) >= key(y) {
      assert y in multiset(rest);
      if y != x {
        assert y in multiset(s[1..]);
        var j :| 0 <= j < |s[1..]| && s[1..][j] == y;
        assert s[j + 1] == y;
      }
    }
  }

  /** Inserts `x` into a descending sequence, keeping it descending. */
  function Insert<T(==)>(x: T, s: seq<T>, key: T -> int): (r: seq<T>)
    requires SortedDesc(s, key)
    ensures SortedDesc(r, key)
    ensures multiset(r) == multiset(s) + multiset{x}
  {
    if s == [] || key(x) >= key(s[0]) then
      assert forall y :: y in s ==> key(x) >= key(y) by {
        forall y | y in s ensures key(x) >= key(y) {
          var j :| 0 <= j < |s| && s[j] == y;
        }
      }
      ConsSorted(x, s, key);
      [x] + s
    else
      var rest := Insert(x, s[1..], key);
      assert s == [s[0]] + s[1..];
      HeadOutranks(x, s, rest, key);
      ConsSorted(s[0], rest, key);
      [s[0]] + rest
  }

  /** `$sort: {key: -1}`: a descending permutation of `s`. */
  function SortDesc<T(==)>(s: seq<T>, key: T -> int): (r: seq<T>)
    ensures SortedDesc(r, key)
    ensures multiset(r) == multiset(s)
    ensures |r| == |s|
  {
    if s == [] then []
    else
      assert s == [s[0]] + s[1..];
      Insert(s[0], SortDesc(s[1..], key), key)
  }

  /** `$sort: {key: 1}`: an ascending permutation of `s`. */
  function SortAsc<T(==)>(s: seq<T>, key: T -> int): (r: seq<T>)
    ensures SortedAsc(r, key)
    ensures multiset(r) == multiset(s)
    ensures |r| == |s|
  {
    var neg := (x: T) => -key(x);
    var r := SortDesc(s, neg);
    assert forall i, j :: 0 <= i < j < |r| ==> neg(r[i]) >= neg(r[j]);
    r
  }

  /** In a descending sequence, every element before position `m` outranks
      every element from `m` on. */
  lemma PrefixOutranksSuffix<T>(t: seq<T>, key: T -> int, m: nat)
    requires SortedDesc(t, key) && m <= |t|
    ensures forall x, y :: x in t[..m] && y in t[m..] ==> key(x) >= key(y)
  {
    forall x, y | x in t[..m] && y in t[m..] ensures key(x) >= key(y) {
      var i :| 0 <= i < m && t[..m][i] == x;
      var j :| 0 <= j < |t| - m && t[m..][j] == y;
      assert t[i] == x && t[m + j] == y;
    }
  }

  /** `$sort: {key: -1}` followed by `$limit: k`: at most `k` elements, in
      descending order, drawn from `s`, none outranked by an element left out. */
  function TopK<T(==)>(s: seq<T>, key: T -> int, k: nat): (r: seq<T>)
    ensures |r| == if |s| < k then |s| else k
    ensures SortedDesc(r, key)
    ensures multiset(r) <= multiset(s)
    ensures forall x, y :: x in r && y in multiset(s) - multiset(r) ==> key(x) >= key(y)
  {
    var t := SortDesc(s, key);
    var m := if |s| < k then |s| else k;
    assert t == t[..m] + t[m..];
    assert multiset(s) == multiset(t[..m]) + multiset(t[m..]);
    PrefixOutranksSuffix(t, key, m);
    t[..m]
  }

  /** The creation timestamp of a document, the default sort key. */
  function CreatedAt<T>(d: Doc<T>): int {
    d.createdAt
  }

  /** `$sort: {createdAt: -1}`: newest first. */
  function NewestFirst<T(==)>(t: seq<Doc<T>>): (r: seq<Doc<T>>)
    ensures forall i, j :: 0 <= i < j < |r| ==> r[i].createdAt >= r[j].createdAt
    ensures multiset(r) == multiset(t)
  {
    SortDesc(t, CreatedAt)
  }

  /** A `$match` on `p` followed by `$sort: {createdAt: -1}`: exactly the
      documents satisfying `p`, newest first. */
  function NewestMatching<T(==,!new)>(t: seq<Doc<T>>, p: Doc<T> -> bool): (r: seq<Doc<T>>)
    ensures forall d :: d in r <==> d in t && p(d)
    ensures forall i, j :: 0 <= i < j < |r| ==> r[i].createdAt >= r[j].createdAt
    ensures multiset(r) == multiset(Filter(t, p))
    ensures |r| <= |t|
  {
    var matching := Filter(t, p);
    var r := NewestFirst(matching);
    assert forall d :: d in r <==> d in multiset(r);
    assert forall d :: d in matching <==> d in multiset(matching);
    assert |r| == |multiset(r)| == |multiset(matching)| == |matching|;
    r
  }
}
