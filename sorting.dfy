/**
 * Sorting as Rust's `slice::sort` does it, for a total order: the result is
 * the unique ordered permutation of the input, whichever algorithm computes
 * it. `Sort` is one such computation; `SortedUnique` shows any other agrees.
 */
module Sorting {

  /** `le` is reflexive, antisymmetric, transitive and total. */
  ghost predicate TotalOrder<T(!new)>(le: (T, T) -> bool) {
    && (forall a :: le(a, a))
    && (forall a, b :: le(a, b) && le(b, a) ==> a == b)
    && (forall a, b, c :: le(a, b) && le(b, c) ==> le(a, c))
    && (forall a, b :: le(a, b) || le(b, a))
  }

  predicate Sorted<T>(le: (T, T) -> bool, s: seq<T>) {
    forall i, j :: 0 <= i < j < |s| ==> le(s[i], s[j])
  }

  /** `x` placed before the first element it does not follow. */
  function Insert<T>(le: (T, T) -> bool, x: T, s: seq<T>): (r: seq<T>)
    ensures |r| == |s| + 1
    decreases |s|
  {
    if s == [] then [x]
    else if le(x, s[0]) then [x] + s
    else [s[0]] + Insert(le, x, s[1..])
  }

  function Sort<T>(le: (T, T) -> bool, s: seq<T>): (r: seq<T>)
    ensures |r| == |s|
    decreases |s|
  {
    if s == [] then [] else Insert(le, s[0], Sort(le, s[1..]))
  }

  lemma {:induction false} InsertPerm<T>(le: (T, T) -> bool, x: T, s: seq<T>)
    ensures multiset(Insert(le, x, s)) == multiset(s) + multiset{x}
    decreases |s|
  {
    if s != [] && !le(x, s[0]) {
      InsertPerm(le, x, s[1..]);
      assert s == [s[0]] + s[1..];
    }
  }

  /** Inserting a value no smaller than `a` into values no smaller than `a` keeps every value no smaller than `a`. */
  lemma {:induction false} InsertLowerBound<T>(le: (T, T) -> bool, a: T, x: T, s: seq<T>)
    requires le(a, x) && forall j :: 0 <= j < |s| ==> le(a, s[j])
    ensures forall j :: 0 <= j < |Insert(le, x, s)| ==> le(a, Insert(le, x, s)[j])
    decreases |s|
  {
    if s != [] && !le(x, s[0]) {
      InsertLowerBound(le, a, x, s[1..]);
      assert Insert(le, x, s) == [s[0]] + Insert(le, x, s[1..]);
    }
  }

  lemma {:induction false} InsertSorted<T(!new)>(le: (T, T) -> bool, x: T, s: seq<T>)
    requires TotalOrder(le) && Sorted(le, s)
    ensures Sorted(le, Insert(le, x, s))
    decreases |s|
  {
    if s == [] {
    } else if le(x, s[0]) {
      var r := Insert(le, x, s);
      assert r == [x] + s;
      forall i, j | 0 <= i < j < |r|
        ensures le(r[i], r[j])
      {
        if i == 0 {
          assert le(s[0], s[j - 1]) || j == 1;
        }
      }
    } else {
      var rest := Insert(le, x, s[1..]);
      InsertSorted(le, x, s[1..]);
      assert le(s[0], x);
      InsertLowerBound(le, s[0], x, s[1..]);
      var r := Insert(le, x, s);
      assert r == [s[0]] + rest;
      forall i, j | 0 <= i < j < |r|
        ensures le(r[i], r[j])
      {
        if i == 0 {
          assert r[j] == rest[j - 1];
        } else {
          assert r[i] == rest[i - 1] && r[j] == rest[j - 1];
        }
      }
    }
  }

  /** The sorted permutation: `Sort` orders its input and keeps every element as often as it occurs. */
  lemma {:induction false} SortSpec<T(!new)>(le: (T, T) -> bool, s: seq<T>)
    requires TotalOrder(le)
    ensures Sorted(le, Sort(le, s))
    ensures multiset(Sort(le, s)) == multiset(s)
    decreases |s|
  {
    if s != [] {
      SortSpec(le, s[1..]);
      InsertSorted(le, s[0], Sort(le, s[1..]));
      InsertPerm(le, s[0], Sort(le, s[1..]));
      assert s == [s[0]] + s[1..];
    }
  }

  /** Two ordered sequences holding the same elements are equal: the result of any sort is `Sort`'s. */
  lemma {:induction false} SortedUnique<T(!new)>(le: (T, T) -> bool, s: seq<T>, t: seq<T>)
    requires TotalOrder(le) && Sorted(le, s) && Sorted(le, t) && multiset(s) == multiset(t)
    ensures s == t
    decreases |s|
  {
    if s != [] {
      assert |t| == |multiset(t)| == |s|;
      assert s[0] in multiset(t);
      var j :| 0 <= j < |t| && t[j] == s[0];
      assert t[0] in multiset(s);
      var i :| 0 <= i < |s| && s[i] == t[0];
      assert le(s[0], s[i]) by { if i > 0 { } }
      assert le(t[0], t[j]) by { if j > 0 { } }
      assert s[0] == t[0];
      assert s == [s[0]] + s[1..];
      assert t == [t[0]] + t[1..];
      assert multiset(s) == multiset{s[0]} + multiset(s[1..]);
      assert multiset(t) == multiset{s[0]} + multiset(t[1..]);
      assert multiset(s[1..]) == multiset(s) - multiset{s[0]};
      assert multiset(t[1..]) == multiset(t) - multiset{s[0]};
      SortedUnique(le, s[1..], t[1..]);
    }
  }
}
