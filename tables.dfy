/** A collection of the document database, as the controllers see it: a
    sequence of documents in natural (insertion) order whose `_id`s are
    distinct. `find` is `Filter`, `findOne`/`findById` is `FindFirst`/`IndexOf`,
    `create` appends, `findByIdAndDelete` is `RemoveAt` and
    `findByIdAndUpdate` replaces one document in place. */
module Tables {
  import opened Common

  /** The ids in use in a collection. */
  function Ids<T(==)>(t: seq<Doc<T>>): set<Id> {
    set d | d in t :: d.id
  }

  /** No two documents share an `_id`. */
  ghost predicate UniqueIds<T>(t: seq<Doc<T>>) {
    forall i, j :: 0 <= i < j < |t| ==> t[i].id != t[j].id
  }

  /** The position of the first element satisfying `p`, as `findOne` returns it. */
  function FindFirst<T>(s: seq<T>, p: T -> bool): (r: Option<nat>)
    ensures r.Some? ==> r.value < |s| && p(s[r.value])
    ensures r.Some? ==> forall j :: 0 <= j < r.value ==> !p(s[j])
    ensures r.None? <==> forall j :: 0 <= j < |s| ==> !p(s[j])
  {
    if |s| == 0 then None
    else if p(s[0]) then Some(0)
    else match FindFirst(s[1..], p)
      case None => None
      case Some(k) => Some(k + 1)
  }

  /** `findById`: the position of the document with `_id == id`, if any. */
  function IndexOf<T(==)>(t: seq<Doc<T>>, id: Id): (r: Option<nat>)
    ensures r.Some? ==> r.value < |t| && t[r.value].id == id
    ensures r.None? <==> id !in Ids(t)
  {
    var r := FindFirst(t, (d: Doc<T>) => d.id == id);
    assert r.None? ==> forall d :: d in t ==> d.id != id by {
      if r.None? {
        forall d | d in t ensures d.id != id {
          var j :| 0 <= j < |t| && t[j] == d;
        }
      }
    }
    r
  }

  /** `findById`: the document with `_id == id`, if any. */
  function FindById<T(==)>(t: seq<Doc<T>>, id: Id): (r: Option<Doc<T>>)
    ensures r.Some? ==> r.value in t && r.value.id == id
    ensures r.None? <==> id !in Ids(t)
  {
    match IndexOf(t, id)
    case Some(i) => Some(t[i])
    case None => None
  }

  /** In a collection with distinct ids, looking up a document's id finds
      that document. */
  lemma FindByIdUnique<T>(t: seq<Doc<T>>, i: nat)
    requires UniqueIds(t) && i < |t|
    ensures FindById(t, t[i].id) == Some(t[i])
  {
    assert t[i] in t;
  }

  /** The sequence without its element at position `i`. */
  function RemoveAt<T(==)>(s: seq<T>, i: nat): (r: seq<T>)
    requires i < |s|
    ensures |r| == |s| - 1
    ensures multiset(r) == multiset(s) - multiset{s[i]}
  {
    assert s == s[..i] + [s[i]] + s[i+1..];
    s[..i] + s[i+1..]
  }

  /** Removing position `i` keeps every other element and, when the ids
      were distinct, keeps them distinct. */
  lemma RemoveAtKeeps<T>(t: seq<Doc<T>>, i: nat)
    requires i < |t|
    ensures forall d :: d in RemoveAt(t, i) ==> d in t
    ensures forall d :: d != t[i] ==> (d in RemoveAt(t, i) <==> d in t)
    ensures UniqueIds(t) ==> UniqueIds(RemoveAt(t, i))
  {
    var rest := RemoveAt(t, i);
    assert forall d :: d in rest <==> d in multiset(rest);
    forall d | d != t[i] ensures d in rest <==> d in t {
      assert multiset(rest)[d] == multiset(t)[d];
    }
    if UniqueIds(t) { RemoveAtDoc(t, i); }
  }

  /** Removing a document from a collection with distinct ids removes exactly
      that document (and its id) and keeps the ids distinct. */
  lemma RemoveAtDoc<T>(t: seq<Doc<T>>, i: nat)
    requires i < |t| && UniqueIds(t)
    ensures UniqueIds(RemoveAt(t, i))
    ensures forall d :: d in RemoveAt(t, i) <==> d in t && d.id != t[i].id
    ensures Ids(RemoveAt(t, i)) == Ids(t) - {t[i].id}
  {
    var r := RemoveAt(t, i);
    assert forall j :: 0 <= j < i ==> r[j] == t[j];
    assert forall j :: i <= j < |r| ==> r[j] == t[j + 1];
    forall d | d in t && d.id != t[i].id ensures d in r {
      var j :| 0 <= j < |t| && t[j] == d;
      if j < i { assert r[j] == d; } else { assert r[j - 1] == d; }
    }
  }

  /** Replacing a document by one with the same id keeps the ids distinct and
      leaves every other document where it was. */
  lemma ReplaceDoc<T>(t: seq<Doc<T>>, i: nat, d: Doc<T>)
    requires i < |t| && UniqueIds(t) && d.id == t[i].id
    ensures UniqueIds(t[i := d])
    ensures Ids(t[i := d]) == Ids(t)
    ensures forall e :: e in t[i := d] <==> e == d || (e in t && e.id != d.id)
  {
    var r := t[i := d];
    assert r[i] == d;
    forall e | e in t && e.id != d.id ensures e in r {
      var j :| 0 <= j < |t| && t[j] == e;
      assert r[j] == e;
    }
    forall e | e in r ensures e.id in Ids(t) && (e == d || (e in t && e.id != d.id)) {
      var j :| 0 <= j < |r| && r[j] == e;
      assert t[j].id == e.id && t[j] in t;
      if j != i { assert t[j].id != t[i].id; }
    }
    forall k | k in Ids(t) ensures k in Ids(r) {
      var e :| e in t && e.id == k;
      var j :| 0 <= j < |t| && t[j] == e;
      assert r[j].id == k;
    }
  }

  /** Appending a document whose id is new keeps the ids distinct. */
  lemma AppendDoc<T>(t: seq<Doc<T>>, d: Doc<T>)
    requires UniqueIds(t) && d.id !in Ids(t)
    ensures UniqueIds(t + [d])
    ensures Ids(t + [d]) == Ids(t) + {d.id}
  {
    var r := t + [d];
    forall i, j | 0 <= i < j < |r| ensures r[i].id != r[j].id {
      if j == |t| { assert r[i] in t; }
    }
  }

  /** A string of `n` copies of `c`. */
  function Repeat(c: char, n: nat): (s: string)
    ensures |s| == n
  {
    if n == 0 then "" else [c] + Repeat(c, n - 1)
  }

  /** The length of the longest id in the collection. */
  function MaxIdLength<T(==)>(t: seq<Doc<T>>): (n: nat)
    ensures forall d :: d in t ==> |d.id| <= n
  {
    if t == [] then 0
    else
      var m := MaxIdLength(t[1..]);
      if |t[0].id| > m then |t[0].id| else m
  }

  /** The `_id` the database assigns to a new document: one no document of
      the collection has. */
  function FreshId<T(==)>(t: seq<Doc<T>>): (k: Id)
    ensures k !in Ids(t) && k != ""
  {
    Repeat('n', MaxIdLength(t) + 1)
  }

  /** `find(filter)`: the elements satisfying `p`, in their order. */
  function Filter<T(==,!new)>(s: seq<T>, p: T -> bool): (r: seq<T>)
    ensures |r| <= |s|
    ensures forall x :: x in r <==> x in s && p(x)
    ensures multiset(r) <= multiset(s)
  {
    if s == [] then []
    else
      assert s == [s[0]] + s[1..];
      (if p(s[0]) then [s[0]] else []) + Filter(s[1..], p)
  }

  /** `find` answers each matching document as often as the collection holds
      it, and no other. */
  lemma {:induction false} FilterCounts<T(!new)>(s: seq<T>, p: T -> bool)
    ensures forall x :: multiset(Filter(s, p))[x] == if p(x) then multiset(s)[x] else 0
  {
    if s != [] {
      assert s == [s[0]] + s[1..];
      assert multiset(s) == multiset([s[0]]) + multiset(s[1..]);
      FilterCounts(s[1..], p);
    }
  }

  /** Filtering distributes over concatenation. */
  lemma {:induction false} FilterConcat<T(!new)>(a: seq<T>, b: seq<T>, p: T -> bool)
    ensures Filter(a + b, p) == Filter(a, p) + Filter(b, p)
  {
    if a == [] {
      assert a + b == b;
    } else {
      var head := if p(a[0]) then [a[0]] else [];
      assert (a + b)[0] == a[0] && (a + b)[1..] == a[1..] + b;
      FilterConcat(a[1..], b, p);
      calc {
        Filter(a + b, p);
        head + Filter(a[1..] + b, p);
        head + (Filter(a[1..], p) + Filter(b, p));
        (head + Filter(a[1..], p)) + Filter(b, p);
      }
    }
  }

  /** Filtering with a predicate that every element satisfies changes nothing. */
  lemma {:induction false} FilterAll<T(!new)>(s: seq<T>, p: T -> bool)
    requires forall x :: x in s ==> p(x)
    ensures Filter(s, p) == s
  {
    if s != [] {
      FilterAll(s[1..], p);
    }
  }

  /** The reference count: one for every element that satisfies `p`. */
  function Tally<T>(s: seq<T>, p: T -> bool): nat {
    if s == [] then 0 else (if p(s[0]) then 1 else 0) + Tally(s[1..], p)
  }

  /** Filtering keeps exactly the elements the reference count counts. */
  lemma {:induction false} FilterTally<T(!new)>(s: seq<T>, p: T -> bool)
    ensures |Filter(s, p)| == Tally(s, p)
  {
    if s != [] {
      FilterTally(s[1..], p);
    }
  }

  /** Appending one element adds one to the count exactly when it matches. */
  lemma {:induction false} TallyAppend<T>(s: seq<T>, x: T, p: T -> bool)
    ensures Tally(s + [x], p) == Tally(s, p) + (if p(x) then 1 else 0)
  {
    if s != [] {
      assert (s + [x])[1..] == s[1..] + [x];
      TallyAppend(s[1..], x, p);
    }
  }

  /** `countDocuments(filter)`: the number of documents matching `p`. */
  function Count<T(==,!new)>(s: seq<T>, p: T -> bool): (n: nat)
    ensures n == Tally(s, p)
    ensures n <= |s|
    ensures n == 0 <==> forall x :: x in s ==> !p(x)
  {
    var r := Filter(s, p);
    FilterTally(s, p);
    assert r != [] ==> r[0] in r;
    |r|
  }
}
