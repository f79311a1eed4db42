/**
 Sequence specifications shared by the front end and the back end: an
 order-preserving filter, the subsequence relation it is measured against,
 and sorting by an integer key (the meaning given here to SQL `ORDER BY`).
 */
module Seqs {

  /** `a` can be obtained from `b` by deleting elements, keeping the order of the rest. */
  predicate Subseq<T(==)>(a: seq<T>, b: seq<T>)
    decreases |b|
  {
    if |a| == 0 then true
    else if |b| == 0 then false
    else (a[0] == b[0] && Subseq(a[1..], b[1..])) || Subseq(a, b[1..])
  }

  /** The elements of `xs` that satisfy `p`, in their original order (JavaScript's `Array.filter`). */
  function Filter<T(==)>(xs: seq<T>, p: T -> bool): (r: seq<T>)
    ensures |r| <= |xs|
    ensures forall i :: 0 <= i < |r| ==> p(r[i]) && r[i] in xs
    ensures forall i :: 0 <= i < |xs| && p(xs[i]) ==> xs[i] in r
  {
    if |xs| == 0 then []
    else if p(xs[0]) then [xs[0]] + Filter(xs[1..], p)
    else Filter(xs[1..], p)
  }

  /** Number of elements of `xs` that satisfy `p`. */
  function CountWhere<T>(xs: seq<T>, p: T -> bool): nat
  {
    if |xs| == 0 then 0
    else (if p(xs[0]) then 1 else 0) + CountWhere(xs[1..], p)
  }

  /** Applies `f` to every element, keeping the order. */
  function Map<T, U>(xs: seq<T>, f: T -> U): (r: seq<U>)
    ensures |r| == |xs|
    ensures forall i :: 0 <= i < |xs| ==> r[i] == f(xs[i])
  {
    if |xs| == 0 then [] else [f(xs[0])] + Map(xs[1..], f)
  }

  /** The filter keeps the relative order of its input. */
  lemma {:induction false} FilterIsSubseq<T>(xs: seq<T>, p: T -> bool)
    ensures Subseq(Filter(xs, p), xs)
  {
    if |xs| > 0 {
      FilterIsSubseq(xs[1..], p);
      if !p(xs[0]) {
        SubseqDropHead(Filter(xs[1..], p), xs);
      }
    }
  }

  /** A subsequence of the tail is a subsequence of the whole. */
  lemma SubseqDropHead<T>(a: seq<T>, b: seq<T>)
    requires |b| > 0 && Subseq(a, b[1..])
    ensures Subseq(a, b)
  {
  }

  /** Every sequence is a subsequence of itself. */
  lemma {:induction false} SubseqRefl<T>(xs: seq<T>)
    ensures Subseq(xs, xs)
  {
    if |xs| > 0 {
      SubseqRefl(xs[1..]);
    }
  }

  /** Filters by two predicates that agree everywhere are equal. */
  lemma {:induction false} FilterExtensional<T>(xs: seq<T>, p: T -> bool, q: T -> bool)
    requires forall x :: p(x) == q(x)
    ensures Filter(xs, p) == Filter(xs, q)
  {
    if |xs| > 0 {
      FilterExtensional(xs[1..], p, q);
    }
  }

  /** A filter that accepts everything returns its input unchanged. */
  lemma {:induction false} FilterAll<T>(xs: seq<T>, p: T -> bool)
    requires forall x :: p(x)
    ensures Filter(xs, p) == xs
  {
    if |xs| > 0 {
      FilterAll(xs[1..], p);
      assert xs == [xs[0]] + xs[1..];
    }
  }

  /**
   The filter drops nothing it should keep and keeps nothing it should drop,
   counting duplicates: each value occurs in the result exactly as often as in
   the input when it satisfies `p`, and not at all otherwise.
   */
  lemma {:induction false} FilterMultiset<T>(xs: seq<T>, p: T -> bool)
    ensures forall x :: multiset(Filter(xs, p))[x] == if p(x) then multiset(xs)[x] else 0
  {
    if |xs| > 0 {
      FilterMultiset(xs[1..], p);
      assert xs == [xs[0]] + xs[1..];
    }
  }

  /** Appending an element the filter rejects does not change the filter. */
  lemma {:induction false} FilterAppendRejected<T>(xs: seq<T>, x: T, p: T -> bool)
    requires !p(x)
    ensures Filter(xs + [x], p) == Filter(xs, p)
  {
    if |xs| > 0 {
      assert (xs + [x])[1..] == xs[1..] + [x];
      FilterAppendRejected(xs[1..], x, p);
    }
  }

  /**
   An answer that orders the projection `f` of the elements of `xs` selected
   by `p` holds the projection of every selected element, and every entry
   of it is the projection of a selected element.
   */
  lemma SelectedProjection<T, U>(xs: seq<T>, p: T -> bool, f: T -> U, out: seq<U>, key: U -> int)
    requires SortedPermutation(out, Map(Filter(xs, p), f), key)
    ensures forall x :: x in xs && p(x) ==> f(x) in out
    ensures forall o :: o in out ==> exists x :: x in xs && p(x) && f(x) == o
  {
    var sel := Filter(xs, p);
    forall x | x in xs && p(x)
      ensures f(x) in out
    {
      var i :| 0 <= i < |xs| && xs[i] == x;
      MapMember(sel, f, x);
      SameMembers(out, Map(sel, f), f(x));
    }
    forall o | o in out
      ensures exists x :: x in xs && p(x) && f(x) == o
    {
      SameMembers(out, Map(sel, f), o);
      var j := MapPreimage(sel, f, o);
      assert sel[j] in xs && p(sel[j]);
    }
  }

  /** Two sequences with the same multiset of elements have the same members. */
  lemma SameMembers<T>(a: seq<T>, b: seq<T>, o: T)
    requires multiset(a) == multiset(b)
    ensures o in a <==> o in b
  {
    assert o in a <==> o in multiset(a);
    assert o in b <==> o in multiset(b);
  }

  /** The image of a member is a member of the image. */
  lemma MapMember<T, U>(xs: seq<T>, f: T -> U, x: T)
    requires x in xs
    ensures f(x) in Map(xs, f)
  {
    var j :| 0 <= j < |xs| && xs[j] == x;
    assert Map(xs, f)[j] == f(x);
  }

  /** Every member of the image is the image of some position. */
  lemma MapPreimage<T, U>(xs: seq<T>, f: T -> U, o: U) returns (j: int)
    requires o in Map(xs, f)
    ensures 0 <= j < |xs| && f(xs[j]) == o
  {
    j :| 0 <= j < |Map(xs, f)| && Map(xs, f)[j] == o;
  }

  /** The length of the filter is the number of elements satisfying `p`. */
  lemma {:induction false} FilterLength<T>(xs: seq<T>, p: T -> bool)
    ensures |Filter(xs, p)| == CountWhere(xs, p)
  {
    if |xs| > 0 {
      FilterLength(xs[1..], p);
    }
  }

  /** A subsequence whose elements all satisfy `p` has at most `CountWhere(b, p)` elements. */
  lemma {:induction false} SubseqCountBound<T>(a: seq<T>, b: seq<T>, p: T -> bool)
    requires Subseq(a, b)
    requires forall i :: 0 <= i < |a| ==> p(a[i])
    ensures |a| <= CountWhere(b, p)
    decreases |b|
  {
    if |a| > 0 {
      if a[0] == b[0] && Subseq(a[1..], b[1..]) {
        SubseqCountBound(a[1..], b[1..], p);
      } else {
        SubseqCountBound(a, b[1..], p);
      }
    }
  }

  /**
   The filter is the only order-preserving selection of `xs` that contains
   only elements satisfying `p` and is as long as the number of such elements:
   any list with those three properties is exactly `Filter(xs, p)`.
   */
  lemma {:induction false} FilterUnique<T>(xs: seq<T>, p: T -> bool, r: seq<T>)
    requires Subseq(r, xs)
    requires forall i :: 0 <= i < |r| ==> p(r[i])
    requires |r| == CountWhere(xs, p)
    ensures r == Filter(xs, p)
    decreases |xs|
  {
    if |xs| == 0 {
    } else if |r| == 0 {
      FilterLength(xs, p);
    } else if p(xs[0]) {
      if r[0] == xs[0] && Subseq(r[1..], xs[1..]) {
        FilterUnique(xs[1..], p, r[1..]);
        assert r == [r[0]] + r[1..];
      } else {
        SubseqCountBound(r, xs[1..], p);
        assert false;
      }
    } else {
      assert r[0] != xs[0];
      FilterUnique(xs[1..], p, r);
    }
  }

  /** `xs` is in ascending order of `key` (ties in any order). */
  predicate SortedBy<T>(xs: seq<T>, key: T -> int)
  {
    forall i, j :: 0 <= i < j < |xs| ==> key(xs[i]) <= key(xs[j])
  }

  /** Inserts `x` into a sorted list, before the first element whose key is not smaller. */
  function InsertBy<T>(x: T, xs: seq<T>, key: T -> int): (r: seq<T>)
    requires SortedBy(xs, key)
    ensures SortedBy(r, key)
    ensures multiset(r) == multiset(xs) + multiset{x}
    ensures r[0] == x || (|xs| > 0 && r[0] == xs[0])
  {
    if |xs| == 0 then [x]
    else if key(x) <= key(xs[0]) then [x] + xs
    else
      assert xs == [xs[0]] + xs[1..];
      [xs[0]] + InsertBy(x, xs[1..], key)
  }

  /** A sorted permutation of `xs` (insertion sort, stable). */
  function SortBy<T>(xs: seq<T>, key: T -> int): (r: seq<T>)
    ensures SortedBy(r, key)
    ensures multiset(r) == multiset(xs)
  {
    if |xs| == 0 then []
    else
      assert xs == [xs[0]] + xs[1..];
      InsertBy(xs[0], SortBy(xs[1..], key), key)
  }

  /**
   What an `ORDER BY key` query over the rows `selected` by its `WHERE`
   clause may answer: a permutation of exactly those rows, in ascending order
   of `key`. Rows with equal keys may come in any order.
   */
  predicate SortedPermutation<T(==)>(out: seq<T>, selected: seq<T>, key: T -> int)
  {
    multiset(out) == multiset(selected) && SortedBy(out, key)
  }

  /**
   Two lists sorted by the same key that hold the same elements agree on the
   key at every position: an `ORDER BY` answer is determined up to the order
   of rows with equal keys.
   */
  lemma {:induction false} SortedPermutationSameKeys<T>(a: seq<T>, b: seq<T>, key: T -> int)
    requires SortedBy(a, key) && SortedBy(b, key)
    requires multiset(a) == multiset(b)
    ensures |a| == |b|
    ensures forall i :: 0 <= i < |a| ==> key(a[i]) == key(b[i])
    decreases |a|
  {
    assert |a| == |multiset(a)| == |multiset(b)| == |b|;
    if |a| > 0 {
      var j := IndexOf(b, a[0]);
      FirstKeysAgree(a, b, key);
      var b' := RemoveAt(b, j);
      TailsStaySortedPermutations(a, b, j, key);
      SortedPermutationSameKeys(a[1..], b', key);
      KeysAfterRemoval(a, b, j, key);
    }
  }

  /** Sorted lists with the same elements start with the same key. */
  lemma FirstKeysAgree<T>(a: seq<T>, b: seq<T>, key: T -> int)
    requires SortedBy(a, key) && SortedBy(b, key)
    requires multiset(a) == multiset(b) && |a| > 0 && |b| > 0
    ensures key(a[0]) == key(b[0])
  {
    var j := IndexOf(b, a[0]);
    var k := IndexOf(a, b[0]);
    assert key(a[0]) <= key(a[k]);
    assert key(b[0]) <= key(b[j]);
  }

  /** Dropping `a`'s head and its occurrence at `j` in `b` leaves sorted lists with the same elements. */
  lemma TailsStaySortedPermutations<T>(a: seq<T>, b: seq<T>, j: int, key: T -> int)
    requires SortedBy(a, key) && SortedBy(b, key)
    requires multiset(a) == multiset(b) && |a| > 0 && 0 <= j < |b| && b[j] == a[0]
    ensures SortedBy(a[1..], key) && SortedBy(RemoveAt(b, j), key)
    ensures multiset(a[1..]) == multiset(RemoveAt(b, j))
  {
    SortedRemoveAt(b, j, key);
    RemoveAtMultiset(b, j);
    RemoveAtMultiset(a, 0);
    assert a[1..] == RemoveAt(a, 0);
  }

  /** A position of `x` in `xs`, which must hold it. */
  ghost function IndexOf<T>(xs: seq<T>, x: T): (j: int)
    requires x in multiset(xs)
    ensures 0 <= j < |xs| && xs[j] == x
  {
    if xs[0] == x then 0
    else
      assert xs == [xs[0]] + xs[1..];
      1 + IndexOf(xs[1..], x)
  }

  /**
   If `a` agrees on keys with `b` once `b[j]` is removed and `a[0]` is moved
   to the front, and `b[0]`, `b[j]` and `a[0]` share a key, then `a` and `b`
   agree on keys everywhere.
   */
  lemma KeysAfterRemoval<T>(a: seq<T>, b: seq<T>, j: int, key: T -> int)
    requires SortedBy(b, key) && 0 <= j < |b| && |a| == |b|
    requires key(a[0]) == key(b[0]) == key(b[j])
    requires forall i :: 0 <= i < |a| - 1 ==> key(a[i + 1]) == key(RemoveAt(b, j)[i])
    ensures forall i :: 0 <= i < |a| ==> key(a[i]) == key(b[i])
  {
    var b' := RemoveAt(b, j);
    forall i | 0 <= i < |a|
      ensures key(a[i]) == key(b[i])
    {
      if i == 0 {
      } else if i <= j {
        assert key(a[i]) == key(b'[i - 1]) == key(b[i - 1]);
        SortedBetween(b, i - 1, j, key);
        SortedBetween(b, i, j, key);
      } else {
        assert key(a[i]) == key(b'[i - 1]) == key(b[i]);
      }
    }
  }

  /** In a sorted list, every element from position 0 to `j` has a key between those of the ends. */
  lemma SortedBetween<T>(xs: seq<T>, i: int, j: int, key: T -> int)
    requires SortedBy(xs, key) && 0 <= i <= j < |xs|
    ensures key(xs[0]) <= key(xs[i]) <= key(xs[j])
  {
  }

  /** `xs` without its element at position `j`. */
  function RemoveAt<T>(xs: seq<T>, j: int): (r: seq<T>)
    requires 0 <= j < |xs|
    ensures |r| == |xs| - 1
    ensures forall i :: 0 <= i < j ==> r[i] == xs[i]
    ensures forall i :: j <= i < |r| ==> r[i] == xs[i + 1]
  {
    xs[..j] + xs[j + 1..]
  }

  lemma SortedRemoveAt<T>(xs: seq<T>, j: int, key: T -> int)
    requires 0 <= j < |xs| && SortedBy(xs, key)
    ensures SortedBy(RemoveAt(xs, j), key)
  {
    var r := RemoveAt(xs, j);
    forall i, i' | 0 <= i < i' < |r|
      ensures key(r[i]) <= key(r[i'])
    {
      var k := if i < j then i else i + 1;
      var k' := if i' < j then i' else i' + 1;
      assert r[i] == xs[k] && r[i'] == xs[k'];
    }
  }

  lemma RemoveAtMultiset<T>(xs: seq<T>, j: int)
    requires 0 <= j < |xs|
    ensures multiset(RemoveAt(xs, j)) == multiset(xs) - multiset{xs[j]}
  {
    assert xs == xs[..j] + [xs[j]] + xs[j + 1..];
  }
}
