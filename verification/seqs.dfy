/** The collection operations the handlers use: `Array.prototype.filter`,
    MongoDB's `$addToSet` and `$pull`, `sort` on one key and `limit`. */
module Seqs {
  import opened Base

  /** `s.filter(p)`: the elements satisfying `p`, in their original order,
      each as often as it occurs in `s`. */
  function Filter<T(!new)>(s: seq<T>, p: T -> bool): (r: seq<T>)
    ensures |r| <= |s|
    ensures forall i :: 0 <= i < |r| ==> p(r[i])
    ensures forall x :: x in r <==> x in s && p(x)
    ensures forall x :: multiset(r)[x] == if p(x) then multiset(s)[x] else 0
  {
    if s == [] then []
    else
      assert s == [s[0]] + s[1..];
      if p(s[0]) then [s[0]] + Filter(s[1..], p) else Filter(s[1..], p)
  }

  /** `a` is `b` with some elements deleted: the relative order of what is
      kept is the order in `b`. */
  ghost predicate IsSubsequence<T>(a: seq<T>, b: seq<T>)
    decreases |b|
  {
    if a == [] then true
    else if b == [] then false
    else (a[0] == b[0] && IsSubsequence(a[1..], b[1..])) || IsSubsequence(a, b[1..])
  }

  /** Filtering keeps the relative order of the elements it keeps. */
  lemma {:induction false} FilterIsSubsequence<T(!new)>(s: seq<T>, p: T -> bool)
    ensures IsSubsequence(Filter(s, p), s)
  {
    if s != [] {
      FilterIsSubsequence(s[1..], p);
      if p(s[0]) {
        assert Filter(s, p)[1..] == Filter(s[1..], p);
      }
    }
  }

  /** Filtering distributes over concatenation. */
  lemma {:induction false} FilterAppend<T(!new)>(a: seq<T>, b: seq<T>, p: T -> bool)
    ensures Filter(a + b, p) == Filter(a, p) + Filter(b, p)
  {
    if a == [] {
      assert a + b == b;
    } else {
      assert (a + b)[1..] == a[1..] + b;
      FilterAppend(a[1..], b, p);
    }
  }

  /** Applying `f` to each element `p` keeps: every result comes from a
      kept element, and every kept element's image is among the results. */
  lemma MapOfFilter<T(!new), U>(s: seq<T>, p: T -> bool, f: T -> U, r: seq<U>)
    requires |r| == |Filter(s, p)|
    requires forall i :: 0 <= i < |r| ==> r[i] == f(Filter(s, p)[i])
    ensures forall i :: 0 <= i < |r| ==> exists x :: x in s && p(x) && r[i] == f(x)
    ensures forall x :: x in s && p(x) ==> f(x) in r
  {
    var kept := Filter(s, p);
    forall i | 0 <= i < |r|
      ensures exists x :: x in s && p(x) && r[i] == f(x)
    {
      assert kept[i] in kept;
    }
    forall x | x in s && p(x)
      ensures f(x) in r
    {
      var k :| 0 <= k < |kept| && kept[k] == x;
      assert r[k] == f(x);
    }
  }

  /** Filtering a one-element sequence. */
  lemma FilterSingleton<T(!new)>(x: T, p: T -> bool)
    ensures Filter([x], p) == if p(x) then [x] else []
  {
    assert [x][1..] == [];
  }

  /** Replacing the element at `k` changes the filtered sequence only in
      the part that element contributes. */
  lemma FilterUpdate<T(!new)>(s: seq<T>, k: nat, v: T, p: T -> bool)
    requires k < |s|
    ensures Filter(s, p) == Filter(s[..k], p) + Filter([s[k]], p) + Filter(s[k + 1..], p)
    ensures Filter(s[k := v], p) == Filter(s[..k], p) + Filter([v], p) + Filter(s[k + 1..], p)
  {
    assert s == s[..k] + [s[k]] + s[k + 1..];
    assert s[k := v] == s[..k] + [v] + s[k + 1..];
    FilterAppend(s[..k] + [s[k]], s[k + 1..], p);
    FilterAppend(s[..k], [s[k]], p);
    FilterAppend(s[..k] + [v], s[k + 1..], p);
    FilterAppend(s[..k], [v], p);
  }

  /** Filtering with a predicate every element satisfies changes nothing. */
  lemma {:induction false} FilterKeepsAll<T(!new)>(s: seq<T>, p: T -> bool)
    requires forall i :: 0 <= i < |s| ==> p(s[i])
    ensures Filter(s, p) == s
  {
    if s != [] {
      FilterKeepsAll(s[1..], p);
    }
  }

  /** Filtering depends on the predicate's values only. */
  lemma {:induction false} FilterSameValues<T(!new)>(s: seq<T>, p: T -> bool, q: T -> bool)
    requires forall x :: p(x) == q(x)
    ensures Filter(s, p) == Filter(s, q)
  {
    if s != [] {
      FilterSameValues(s[1..], p, q);
    }
  }

  /** Two filters in a row are one filter by the conjunction. */
  lemma {:induction false} FilterTwice<T(!new)>(s: seq<T>, p: T -> bool, q: T -> bool, both: T -> bool)
    requires forall x :: both(x) == (p(x) && q(x))
    ensures Filter(Filter(s, p), q) == Filter(s, both)
  {
    if s != [] {
      FilterTwice(s[1..], p, q, both);
      if p(s[0]) {
        var t := Filter(s[1..], p);
        assert ([s[0]] + t)[0] == s[0] && ([s[0]] + t)[1..] == t;
      }
    }
  }

  /** Every value occurs at most once. */
  ghost predicate NoDuplicates<T(!new)>(s: seq<T>) {
    forall x :: multiset(s)[x] <= 1
  }

  /** MongoDB `$addToSet`: append `x` unless it is already an element. */
  function AddToSet<T(==,!new)>(s: seq<T>, x: T): (r: seq<T>)
    ensures forall y :: y in r <==> y in s || y == x
    ensures NoDuplicates(s) ==> NoDuplicates(r)
    ensures x in s ==> r == s
  {
    if x in s then s else s + [x]
  }

  /** The test `y => y !== x`. */
  function Other<T(==)>(x: T): T -> bool {
    y => y != x
  }

  /** MongoDB `$pull` of a value, and `filter(y => y !== x)`: every
      occurrence of `x` is removed and the rest keep their order. */
  function RemoveAll<T(==,!new)>(s: seq<T>, x: T): (r: seq<T>)
    ensures forall y :: y in r <==> y in s && y != x
    ensures NoDuplicates(s) ==> NoDuplicates(r)
    ensures x !in s ==> r == s
    ensures IsSubsequence(r, s)
  {
    FilterIsSubsequence(s, Other(x));
    if x !in s then
      FilterKeepsAll(s, Other(x));
      Filter(s, Other(x))
    else Filter(s, Other(x))
  }

  /** `$pull` after a successful `$addToSet` restores the original array. */
  lemma PullUndoesAddToSet<T(!new)>(s: seq<T>, x: T)
    requires x !in s
    ensures RemoveAll(AddToSet(s, x), x) == s
  {
    FilterAppend(s, [x], Other(x));
    FilterKeepsAll(s, Other(x));
  }

  /** `key(s[i])` never decreases along `s`. */
  ghost predicate SortedBy<T>(s: seq<T>, key: T -> int) {
    forall i, j :: 0 <= i < j < |s| ==> key(s[i]) <= key(s[j])
  }

  /** Insert `x` into a sorted sequence before the first element whose key is
      not smaller. */
  function InsertBy<T>(x: T, s: seq<T>, key: T -> int): (r: seq<T>)
    requires SortedBy(s, key)
    ensures |r| == |s| + 1
    ensures multiset(r) == multiset(s) + multiset{x}
    ensures r[0] == x || (s != [] && r[0] == s[0])
    ensures SortedBy(r, key)
  {
    if s == [] then [x]
    else if key(x) <= key(s[0]) then
      SortedCons(x, s, key);
      [x] + s
    else
      var rest := InsertBy(x, s[1..], key);
      InsertAfterHead(x, s, rest, key);
      [s[0]] + rest
  }

  /** The step of `InsertBy` that keeps the head in front. */
  lemma InsertAfterHead<T>(x: T, s: seq<T>, rest: seq<T>, key: T -> int)
    requires s != [] && SortedBy(s, key) && key(s[0]) < key(x)
    requires multiset(rest) == multiset(s[1..]) + multiset{x}
    requires rest[0] == x || (s[1..] != [] && rest[0] == s[1])
    requires SortedBy(rest, key)
    ensures multiset([s[0]] + rest) == multiset(s) + multiset{x}
    ensures SortedBy([s[0]] + rest, key)
  {
    assert s == [s[0]] + s[1..];
    SortedCons(s[0], rest, key);
  }

  /** An element no larger than the head of a sorted sequence can go in front. */
  lemma SortedCons<T>(a: T, s: seq<T>, key: T -> int)
    requires SortedBy(s, key)
    requires s != [] ==> key(a) <= key(s[0])
    ensures SortedBy([a] + s, key)
  {
    var r := [a] + s;
    forall i, j | 0 <= i < j < |r| ensures key(r[i]) <= key(r[j]) {
      if i == 0 && j > 1 {
        assert key(s[0]) <= key(s[j - 1]);
      }
    }
  }

  /** Two sequences with the same multiset have the same elements. */
  lemma SameMultisetSameElements<T>(a: seq<T>, b: seq<T>)
    requires multiset(a) == multiset(b)
    ensures forall x :: x in a <==> x in b
  {
    forall x ensures x in a <==> x in b {
      assert x in a <==> x in multiset(a);
      assert x in b <==> x in multiset(b);
    }
  }

  /** `sort({ key: 1 })`: the same elements, ordered by ascending key. */
  function SortBy<T(!new)>(s: seq<T>, key: T -> int): (r: seq<T>)
    ensures |r| == |s|
    ensures multiset(r) == multiset(s)
    ensures forall x :: x in r <==> x in s
    ensures SortedBy(r, key)
  {
    if s == [] then []
    else
      assert s == [s[0]] + s[1..];
      var r := InsertBy(s[0], SortBy(s[1..], key), key);
      SameMultisetSameElements(r, s);
      r
  }

  /** `sort({ key: -1 })`: the same elements, ordered by descending key. */
  function SortDescendingBy<T(!new)>(s: seq<T>, key: T -> int): (r: seq<T>)
    ensures |r| == |s|
    ensures multiset(r) == multiset(s)
    ensures forall x :: x in r <==> x in s
    ensures forall a, b :: 0 <= a < b < |r| ==> key(r[a]) >= key(r[b])
  {
    var r := SortBy(s, (x: T) => -key(x));
    assert forall a, b :: 0 <= a < b < |r| ==> -key(r[a]) <= -key(r[b]);
    r
  }

  /** `limit(n)`: the first `n` elements, or all of them when there are fewer. */
  function Take<T>(s: seq<T>, n: nat): (r: seq<T>)
    ensures |r| == if |s| < n then |s| else n
    ensures forall i :: 0 <= i < |r| ==> r[i] == s[i]
    ensures multiset(r) <= multiset(s)
  {
    if |s| < n then s
    else
      assert s == s[..n] + s[n..];
      s[..n]
  }

  /** Taking a prefix of a sequence sorted by descending key keeps the
      elements with the largest keys: whatever is left out is no larger than
      anything kept. */
  lemma TakeKeepsLargest<T>(s: seq<T>, key: T -> int, n: nat)
    requires forall a, b :: 0 <= a < b < |s| ==> key(s[a]) >= key(s[b])
    ensures forall x :: x in s && x !in Take(s, n) ==>
              forall i :: 0 <= i < |Take(s, n)| ==> key(Take(s, n)[i]) >= key(x)
  {
    var t := Take(s, n);
    forall x | x in s && x !in t
      ensures forall i :: 0 <= i < |t| ==> key(t[i]) >= key(x)
    {
      var k :| 0 <= k < |s| && s[k] == x;
    }
  }

  /** `sort({ key: -1 }).limit(n)`: the `n` elements with the largest keys,
      largest first. */
  function TopBy<T(!new)>(s: seq<T>, key: T -> int, n: nat): (r: seq<T>)
    ensures |r| == if |s| < n then |s| else n
    ensures forall i :: 0 <= i < |r| ==> r[i] in s
    ensures multiset(r) <= multiset(s)
    ensures forall a, b :: 0 <= a < b < |r| ==> key(r[a]) >= key(r[b])
    ensures forall x :: x in s && x !in r ==> forall i :: 0 <= i < |r| ==> key(r[i]) >= key(x)
  {
    var sorted := SortDescendingBy(s, key);
    TakeKeepsLargest(sorted, key, n);
    Take(sorted, n)
  }

  function Count<T(!new)>(s: seq<T>, p: T -> bool): nat {
    |Filter(s, p)|
  }

  /** The position of the first element satisfying `p`, as `findOne` and
      `findOneAndDelete` pick the first stored match. */
  function FirstIndex<T>(s: seq<T>, p: T -> bool): (r: Option<nat>)
    ensures r.Some? ==> r.value < |s| && p(s[r.value])
    ensures r.Some? ==> forall j :: 0 <= j < r.value ==> !p(s[j])
    ensures r.None? <==> forall j :: 0 <= j < |s| ==> !p(s[j])
  {
    if s == [] then None
    else if p(s[0]) then Some(0)
    else match FirstIndex(s[1..], p)
      case None => None
      case Some(i) => Some(i + 1)
  }

  /** Deleting the row at position `i`; the others keep their order. */
  function RemoveAt<T>(s: seq<T>, i: nat): (r: seq<T>)
    requires i < |s|
    ensures |r| == |s| - 1
    ensures forall j :: 0 <= j < i ==> r[j] == s[j]
    ensures forall j :: i <= j < |r| ==> r[j] == s[j + 1]
  {
    s[..i] + s[i + 1..]
  }
}
