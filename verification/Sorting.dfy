/**
 Stable sorting by insertion, the reference meaning of Python's `sorted` and `list.sort`
 wherever the modelled code sorts.
 */
module Sorting {

  ghost predicate TotalPreorder<T(!new)>(le: (T, T) -> bool) {
    && (forall x, y :: le(x, y) || le(y, x))
    && (forall x, y, z :: le(x, y) && le(y, z) ==> le(x, z))
  }

  ghost predicate Sorted<T>(le: (T, T) -> bool, s: seq<T>) {
    forall i, j :: 0 <= i < j < |s| ==> le(s[i], s[j])
  }

  /** Puts `x` in front of the first element it does not exceed. */
  function Insert<T>(le: (T, T) -> bool, x: T, s: seq<T>): seq<T> {
    if s == [] || le(x, s[0]) then [x] + s else [s[0]] + Insert(le, x, s[1..])
  }

  function Sort<T>(le: (T, T) -> bool, s: seq<T>): seq<T> {
    if s == [] then [] else Insert(le, s[0], Sort(le, s[1..]))
  }

  lemma {:induction false} InsertPermutes<T>(le: (T, T) -> bool, x: T, s: seq<T>)
    ensures multiset(Insert(le, x, s)) == multiset(s) + multiset{x}
  {
    if s == [] || le(x, s[0]) {
    } else {
      InsertPermutes(le, x, s[1..]);
      assert s == [s[0]] + s[1..];
    }
  }

  lemma {:induction false} InsertSorted<T(!new)>(le: (T, T) -> bool, x: T, s: seq<T>)
    requires TotalPreorder(le) && Sorted(le, s)
    ensures Sorted(le, Insert(le, x, s))
  {
    if s == [] || le(x, s[0]) {
    } else {
      var rest := Insert(le, x, s[1..]);
      InsertSorted(le, x, s[1..]);
      InsertPermutes(le, x, s[1..]);
      forall j | 0 <= j < |rest|
        ensures le(s[0], rest[j])
      {
        assert rest[j] in multiset(rest);
        if rest[j] != x {
          assert rest[j] in s[1..];
        }
      }
    }
  }

  /** `Sort` returns a sorted permutation of its input. */
  lemma {:induction false} SortCorrect<T(!new)>(le: (T, T) -> bool, s: seq<T>)
    requires TotalPreorder(le)
    ensures Sorted(le, Sort(le, s))
    ensures multiset(Sort(le, s)) == multiset(s)
    ensures |Sort(le, s)| == |s|
  {
    if s == [] {
    } else {
      SortCorrect(le, s[1..]);
      InsertSorted(le, s[0], Sort(le, s[1..]));
      InsertPermutes(le, s[0], Sort(le, s[1..]));
      assert s == [s[0]] + s[1..];
      assert |multiset(Sort(le, s))| == |multiset(s)|;
    }
  }

  /** Membership is untouched by sorting. */
  lemma SortMembers<T(!new)>(le: (T, T) -> bool, s: seq<T>, x: T)
    requires TotalPreorder(le)
    ensures x in Sort(le, s) <==> x in s
  {
    SortCorrect(le, s);
    assert x in Sort(le, s) <==> x in multiset(Sort(le, s));
  }

  /** Sorting a sorted sequence changes nothing, ties included. */
  lemma {:induction false} SortSorted<T>(le: (T, T) -> bool, s: seq<T>)
    requires Sorted(le, s)
    ensures Sort(le, s) == s
  {
    if s == [] {
    } else {
      SortSorted(le, s[1..]);
    }
  }

  lemma {:induction false} InsertBefore<T>(le: (T, T) -> bool, x: T, a: seq<T>, b: seq<T>)
    requires b != [] ==> le(x, b[0])
    ensures Insert(le, x, a + b) == Insert(le, x, a) + b
  {
    if a == [] {
      assert a + b == b;
    } else if !le(x, a[0]) {
      InsertBefore(le, x, a[1..], b);
      assert (a + b)[1..] == a[1..] + b;
    } else {
      assert [x] + (a + b) == [x] + a + b;
    }
  }

  /** A sorted tail that nothing in front exceeds stays where it is. */
  lemma {:induction false} SortAppend<T>(le: (T, T) -> bool, a: seq<T>, b: seq<T>)
    requires Sorted(le, b) && forall x, y :: x in a && y in b ==> le(x, y)
    ensures Sort(le, a + b) == Sort(le, a) + b
  {
    if a == [] {
      assert a + b == b;
      SortSorted(le, b);
    } else {
      assert (a + b)[1..] == a[1..] + b;
      SortAppend(le, a[1..], b);
      InsertBefore(le, a[0], Sort(le, a[1..]), b);
    }
  }

  ghost predicate Symmetric<T(!new)>(r: (T, T) -> bool) {
    forall x, y :: r(x, y) ==> r(y, x)
  }

  ghost predicate Pairwise<T>(r: (T, T) -> bool, s: seq<T>) {
    forall i, j :: 0 <= i < j < |s| ==> r(s[i], s[j])
  }

  ghost predicate RelatedToAll<T>(r: (T, T) -> bool, x: T, s: seq<T>) {
    forall i :: 0 <= i < |s| ==> r(x, s[i])
  }

  lemma PairwiseCons<T>(r: (T, T) -> bool, x: T, s: seq<T>)
    ensures Pairwise(r, [x] + s) <==> RelatedToAll(r, x, s) && Pairwise(r, s)
  {
    var all := [x] + s;
    if Pairwise(r, all) {
      forall i | 0 <= i < |s|
        ensures r(x, s[i])
      {
        assert r(all[0], all[i + 1]);
      }
      forall i, j | 0 <= i < j < |s|
        ensures r(s[i], s[j])
      {
        assert r(all[i + 1], all[j + 1]);
      }
    }
  }

  lemma {:induction false} InsertRelated<T>(le: (T, T) -> bool, r: (T, T) -> bool, x: T, y: T, s: seq<T>)
    ensures RelatedToAll(r, y, Insert(le, x, s)) <==> r(y, x) && RelatedToAll(r, y, s)
  {
    InsertPermutes(le, x, s);
    var t := Insert(le, x, s);
    if RelatedToAll(r, y, t) {
      forall i | 0 <= i < |s|
        ensures r(y, s[i])
      {
        assert s[i] in multiset(t);
      }
      assert x in multiset(t);
    } else {
      var i :| 0 <= i < |t| && !r(y, t[i]);
      assert t[i] in multiset(t);
    }
  }

  lemma {:induction false} InsertPairwise<T(!new)>(le: (T, T) -> bool, r: (T, T) -> bool, x: T, s: seq<T>)
    requires Symmetric(r)
    ensures Pairwise(r, Insert(le, x, s)) <==> Pairwise(r, [x] + s)
  {
    if s == [] || le(x, s[0]) {
    } else {
      assert s == [s[0]] + s[1..];
      InsertPairwise(le, r, x, s[1..]);
      InsertRelated(le, r, x, s[0], s[1..]);
      PairwiseCons(r, x, s);
      PairwiseCons(r, x, s[1..]);
      PairwiseCons(r, s[0], s[1..]);
      PairwiseCons(r, s[0], Insert(le, x, s[1..]));
    }
  }

  /** A symmetric relation holds between all pairs before sorting exactly when it does after. */
  lemma {:induction false} SortPairwise<T(!new)>(le: (T, T) -> bool, r: (T, T) -> bool, s: seq<T>)
    requires Symmetric(r) && TotalPreorder(le)
    ensures Pairwise(r, Sort(le, s)) <==> Pairwise(r, s)
  {
    if s != [] {
      var rest := Sort(le, s[1..]);
      SortPairwise(le, r, s[1..]);
      InsertPairwise(le, r, s[0], rest);
      PairwiseCons(r, s[0], rest);
      PairwiseCons(r, s[0], s[1..]);
      assert s == [s[0]] + s[1..];
      SortCorrect(le, s[1..]);
      if RelatedToAll(r, s[0], rest) {
        forall i | 0 <= i < |s[1..]|
          ensures r(s[0], s[1..][i])
        {
          SortMembers(le, s[1..], s[1..][i]);
        }
      }
      if RelatedToAll(r, s[0], s[1..]) {
        forall i | 0 <= i < |rest|
          ensures r(s[0], rest[i])
        {
          SortMembers(le, s[1..], rest[i]);
        }
      }
    }
  }
}
