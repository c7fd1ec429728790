/** `Array.prototype.sort` with a numeric comparator `(a, b) => key(b) - key(a)`:
    a stable sort into descending key order.  An ascending sort
    (`key(a) - key(b)`) is the same sort on the negated key.  Keys are exact
    reals, so averages and ratios compare without rounding. */
module Sorting {

  predicate SortedDesc<T>(s: seq<T>, key: T -> real) {
    forall i, j :: 0 <= i < j < |s| ==> key(s[i]) >= key(s[j])
  }

  /** Puts `x` in front of the first element whose key is not greater than
      its own, so `x` precedes every element with an equal key. */
  function Insert<T>(x: T, s: seq<T>, key: T -> real): (r: seq<T>)
    requires SortedDesc(s, key)
    ensures |r| == |s| + 1
    ensures multiset(r) == multiset(s) + multiset{x}
    ensures SortedDesc(r, key)
    ensures s != [] && key(x) < key(s[0]) ==> r[0] == s[0]
    ensures s == [] || key(s[0]) <= key(x) ==> r[0] == x
  {
    if s == [] || key(s[0]) <= key(x) then
      ConsSorted(x, s, key);
      [x] + s
    else
      var t := Insert(x, s[1..], key);
      BoundedBy(t, s[1..], x, key(s[0]), key);
      ConsSorted(s[0], t, key);
      assert s == [s[0]] + s[1..];
      [s[0]] + t
  }

  /** Every element of a permutation of `rest` and `x` is bounded when
      `x` and the elements of `rest` are. */
  lemma BoundedBy<T>(t: seq<T>, rest: seq<T>, x: T, bound: real, key: T -> real)
    requires multiset(t) == multiset(rest) + multiset{x}
    requires key(x) <= bound
    requires forall j :: 0 <= j < |rest| ==> key(rest[j]) <= bound
    ensures forall k :: 0 <= k < |t| ==> key(t[k]) <= bound
  {
    forall k | 0 <= k < |t| ensures key(t[k]) <= bound {
      assert t[k] in multiset(t);
      if t[k] != x {
        assert t[k] in multiset(rest);
        var j :| 0 <= j < |rest| && rest[j] == t[k];
      }
    }
  }

  /** A sorted list stays sorted behind an element whose key bounds all
      of its keys. */
  lemma ConsSorted<T>(h: T, t: seq<T>, key: T -> real)
    requires SortedDesc(t, key)
    requires forall k :: 0 <= k < |t| ==> key(t[k]) <= key(h)
    ensures SortedDesc([h] + t, key)
  {
  }

  /** The stable descending sort. */
  function SortDesc<T>(s: seq<T>, key: T -> real): (r: seq<T>)
    ensures |r| == |s|
    ensures multiset(r) == multiset(s)
    ensures SortedDesc(r, key)
  {
    if s == [] then []
    else
      assert s == [s[0]] + s[1..];
      Insert(s[0], SortDesc(s[1..], key), key)
  }

  /** The elements of `s` whose key is `v`, in order. */
  function KeyFilter<T>(s: seq<T>, key: T -> real, v: real): (r: seq<T>)
    ensures forall k :: 0 <= k < |r| ==> key(r[k]) == v
  {
    if s == [] then []
    else if key(s[0]) == v then [s[0]] + KeyFilter(s[1..], key, v)
    else KeyFilter(s[1..], key, v)
  }

  /** Position of the earliest element with the greatest key. */
  function FirstMaxIndex<T>(s: seq<T>, key: T -> real): (i: nat)
    requires |s| > 0
    ensures i < |s|
    ensures forall j :: 0 <= j < |s| ==> key(s[j]) <= key(s[i])
    ensures forall j :: 0 <= j < i ==> key(s[j]) < key(s[i])
  {
    if |s| == 1 then 0
    else
      var j := FirstMaxIndex(s[1..], key);
      if key(s[0]) >= key(s[1..][j]) then 0 else 1 + j
  }

  lemma {:induction false} InsertKeyFilter<T>(x: T, s: seq<T>, key: T -> real, v: real)
    requires SortedDesc(s, key)
    ensures KeyFilter(Insert(x, s, key), key, v)
         == if key(x) == v then [x] + KeyFilter(s, key, v) else KeyFilter(s, key, v)
  {
    if s != [] && key(x) < key(s[0]) {
      InsertKeyFilter(x, s[1..], key, v);
      assert Insert(x, s, key) == [s[0]] + Insert(x, s[1..], key);
      assert Insert(x, s, key)[1..] == Insert(x, s[1..], key);
    } else {
      assert ([x] + s)[1..] == s;
    }
  }

  /** Stability: elements with equal keys keep their input order. */
  lemma {:induction false} SortDescStable<T>(s: seq<T>, key: T -> real, v: real)
    ensures KeyFilter(SortDesc(s, key), key, v) == KeyFilter(s, key, v)
  {
    if s != [] {
      SortDescStable(s[1..], key, v);
      InsertKeyFilter(s[0], SortDesc(s[1..], key), key, v);
    }
  }

  /** The first element of the sorted list is the earliest element of the
      input with the greatest key. */
  lemma {:induction false} SortDescHead<T>(s: seq<T>, key: T -> real)
    requires |s| > 0
    ensures SortDesc(s, key)[0] == s[FirstMaxIndex(s, key)]
  {
    if |s| > 1 {
      var t := SortDesc(s[1..], key);
      SortDescHead(s[1..], key);
    }
  }

  /** The head of the sorted list has the greatest key of all. */
  lemma SortDescHeadMax<T>(s: seq<T>, key: T -> real, x: T)
    requires x in s
    ensures key(SortDesc(s, key)[0]) >= key(x)
  {
    SortDescHead(s, key);
  }
}
