/** Ordering, truncating and filtering of record slices, as done with
    sort.Slice, slice truncation and append-if loops in the collectors and
    the report. `sort.Slice` is not stable; the model sorts with one particular
    algorithm (insertion sort), and no contract below says how it orders ties. */
module Ranking {

  /** A sort key compared lexicographically: first `major`, then `minor`.
      A descending order by some value v is the ascending order by -v. */
  datatype Rank = Rank(major: real, minor: real)

  /** The `less` of a `sort.Slice` call: `a` must come before `b`. */
  predicate Before(a: Rank, b: Rank)
  {
    a.major < b.major || (a.major == b.major && a.minor < b.minor)
  }

  /** No element must come before an element placed earlier. */
  predicate SortedBy<T>(s: seq<T>, key: T -> Rank)
  {
    forall i, j :: 0 <= i < j < |s| ==> !Before(key(s[j]), key(s[i]))
  }

  predicate Distinct<T(==)>(s: seq<T>)
  {
    forall i, j :: 0 <= i < j < |s| ==> s[i] != s[j]
  }

  /** `!Before(b, a)` is a total preorder. */
  lemma NotBeforeTransitive(a: Rank, b: Rank, c: Rank)
    requires !Before(b, a) && !Before(c, b)
    ensures !Before(c, a)
  {
  }

  lemma SortedCons<T>(h: T, t: seq<T>, key: T -> Rank)
    requires SortedBy(t, key)
    requires forall y :: y in t ==> !Before(key(y), key(h))
    ensures SortedBy([h] + t, key)
  {
    var s := [h] + t;
    forall i, j | 0 <= i < j < |s|
      ensures !Before(key(s[j]), key(s[i]))
    {
      if i == 0 {
        assert s[j] == t[j - 1] && t[j - 1] in t;
      } else {
        assert s[i] == t[i - 1] && s[j] == t[j - 1];
      }
    }
  }

  /** Insertion of `x` before the first element that may not come before it. */
  function Insert<T(==)>(x: T, s: seq<T>, key: T -> Rank): (r: seq<T>)
    ensures |r| == |s| + 1
    ensures multiset(r) == multiset(s) + multiset{x}
  {
    if s == [] then [x]
    else if !Before(key(s[0]), key(x)) then [x] + s
    else
      assert s == [s[0]] + s[1..];
      [s[0]] + Insert(x, s[1..], key)
  }

  lemma {:induction false} InsertSorted<T>(x: T, s: seq<T>, key: T -> Rank)
    requires SortedBy(s, key)
    ensures SortedBy(Insert(x, s, key), key)
  {
    if s == [] {
    } else if !Before(key(s[0]), key(x)) {
      forall y | y in s
        ensures !Before(key(y), key(x))
      {
        var j :| 0 <= j < |s| && s[j] == y;
        if j > 0 {
          NotBeforeTransitive(key(x), key(s[0]), key(y));
        }
      }
      SortedCons(x, s, key);
    } else {
      var rest := Insert(x, s[1..], key);
      InsertSorted(x, s[1..], key);
      assert s == [s[0]] + s[1..];
      forall y | y in rest
        ensures !Before(key(y), key(s[0]))
      {
        assert y in multiset(rest);
        if y != x {
          var j :| 0 <= j < |s[1..]| && s[1..][j] == y;
          assert s[j + 1] == y;
        }
      }
      SortedCons(s[0], rest, key);
    }
  }

  lemma InsertDistinct<T>(x: T, s: seq<T>, key: T -> Rank)
    requires Distinct(s) && x !in s
    ensures Distinct(Insert(x, s, key))
  {
    var r := Insert(x, s, key);
    forall i, j | 0 <= i < j < |r|
      ensures r[i] != r[j]
    {
      assert multiset(r)[r[i]] >= 1 + (if r[i] == r[j] then 1 else 0) by {
        assert r == r[..i] + [r[i]] + r[i + 1..];
        assert r[j] in r[i + 1..];
      }
      if r[i] == x {
        assert multiset(s)[x] == 0;
      } else {
        DistinctCount(s, r[i]);
      }
    }
  }

  lemma DistinctCount<T>(s: seq<T>, y: T)
    requires Distinct(s)
    ensures multiset(s)[y] <= 1
  {
    if s != [] {
      assert s == [s[0]] + s[1..];
      DistinctCount(s[1..], y);
    }
  }

  lemma DistinctHead<T>(s: seq<T>)
    requires s != [] && Distinct(s)
    ensures s[0] !in s[1..] && Distinct(s[1..])
  {
  }

  /** The model of `sort.Slice`: a permutation of `s` in which no element must
      come before an earlier one. Sorting keeps a duplicate-free slice duplicate-free. */
  function SortBy<T(==)>(s: seq<T>, key: T -> Rank): (r: seq<T>)
    ensures |r| == |s|
    ensures multiset(r) == multiset(s)
    ensures SortedBy(r, key)
    ensures Distinct(s) ==> Distinct(r)
  {
    if s == [] then []
    else
      var rest := SortBy(s[1..], key);
      assert s == [s[0]] + s[1..];
      InsertSorted(s[0], rest, key);
      if Distinct(s) then
        DistinctHead(s);
        assert s[0] !in multiset(rest);
        InsertDistinct(s[0], rest, key);
        Insert(s[0], rest, key)
      else
        Insert(s[0], rest, key)
  }

  /** `s` cut to its first `limit` elements when `limit` is positive and smaller
      than its length. */
  function Truncate<T>(s: seq<T>, limit: int): seq<T>
  {
    if limit > 0 && |s| > limit then s[..limit] else s
  }

  /** The length of a slice of `n` elements after Truncate. */
  function Capped(n: nat, limit: int): nat
  {
    if limit > 0 && n > limit then limit else n
  }

  /** A prefix of a sorted sequence is sorted, drawn from it, and no element
      after the prefix comes before one in it. */
  lemma PrefixIsTop<T>(t: seq<T>, n: nat, key: T -> Rank)
    requires n <= |t| && SortedBy(t, key)
    ensures SortedBy(t[..n], key)
    ensures multiset(t[..n]) <= multiset(t)
    ensures Distinct(t) ==> Distinct(t[..n])
    ensures forall x :: x in t && x !in t[..n] ==> forall y :: y in t[..n] ==> !Before(key(x), key(y))
  {
    assert t == t[..n] + t[n..];
    assert multiset(t) == multiset(t[..n]) + multiset(t[n..]);
    forall x | x in t && x !in t[..n]
      ensures forall y :: y in t[..n] ==> !Before(key(x), key(y))
    {
      var j :| 0 <= j < |t| && t[j] == x;
      forall y | y in t[..n]
        ensures !Before(key(x), key(y))
      {
        var i :| 0 <= i < n && t[..n][i] == y;
        assert i < j;
      }
    }
  }

  /** Sort, then truncate: the result is as long as the limit allows, ordered,
      drawn from `s`, and every element of `s` it leaves out may come no earlier
      than any element it keeps (the result is a top-`limit` selection). */
  function TopBy<T(==,!new)>(s: seq<T>, key: T -> Rank, limit: int): (r: seq<T>)
    ensures |r| == Capped(|s|, limit)
    ensures SortedBy(r, key)
    ensures multiset(r) <= multiset(s)
    ensures Distinct(s) ==> Distinct(r)
    ensures forall x :: x in s && x !in r ==> forall y :: y in r ==> !Before(key(x), key(y))
  {
    var t := SortBy(s, key);
    PrefixIsTop(t, Capped(|s|, limit), key);
    assert forall x :: x in s <==> x in multiset(t);
    Truncate(t, limit)
  }

  /** The elements of `s` for which `p` holds, in their order in `s` (an append-if loop). */
  function Filter<T(==,!new)>(s: seq<T>, p: T -> bool): (r: seq<T>)
    ensures |r| <= |s|
    ensures forall x :: multiset(r)[x] == if p(x) then multiset(s)[x] else 0
  {
    if s == [] then []
    else
      var last := s[|s| - 1];
      assert s == s[..|s| - 1] + [last];
      Filter(s[..|s| - 1], p) + (if p(last) then [last] else [])
  }

  /** Filter keeps exactly the elements for which `p` holds. */
  lemma FilterMembers<T(!new)>(s: seq<T>, p: T -> bool)
    ensures forall x :: x in Filter(s, p) <==> x in s && p(x)
  {
    forall x
      ensures x in Filter(s, p) <==> x in s && p(x)
    {
      assert x in Filter(s, p) <==> x in multiset(Filter(s, p));
      assert x in s <==> x in multiset(s);
    }
  }

  /** One more loop iteration of an append-if loop. */
  lemma FilterStep<T(!new)>(s: seq<T>, i: nat, p: T -> bool)
    requires i < |s|
    ensures Filter(s[..i + 1], p) == Filter(s[..i], p) + (if p(s[i]) then [s[i]] else [])
  {
    assert s[..i + 1][..i] == s[..i];
  }
}
