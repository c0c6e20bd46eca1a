/** Python's stable `sorted`, and why its result is canonical. */
module Sorting {

  ghost predicate TotalOrder<T(!new)>(le: (T, T) -> bool)
  {
    && (forall x, y :: le(x, y) || le(y, x))
    && (forall x, y, z :: le(x, y) && le(y, z) ==> le(x, z))
  }

  ghost predicate SortedBy<T>(xs: seq<T>, le: (T, T) -> bool)
  {
    forall i, j :: 0 <= i < j < |xs| ==> le(xs[i], xs[j])
  }

  /** Puts `x` before the first element it may precede, so equal elements keep their order. */
  function Insert<T>(x: T, xs: seq<T>, le: (T, T) -> bool): (r: seq<T>)
    ensures multiset(r) == multiset(xs) + multiset{x}
    ensures |r| == |xs| + 1
  {
    if xs == [] then [x]
    else if le(x, xs[0]) then [x] + xs
    else
      assert xs == [xs[0]] + xs[1..];
      [xs[0]] + Insert(x, xs[1..], le)
  }

  function Sort<T>(xs: seq<T>, le: (T, T) -> bool): (r: seq<T>)
    ensures multiset(r) == multiset(xs)
    ensures |r| == |xs|
  {
    if xs == [] then []
    else
      assert xs == [xs[0]] + xs[1..];
      Insert(xs[0], Sort(xs[1..], le), le)
  }

  lemma SameMembers<T>(xs: seq<T>, ys: seq<T>)
    requires multiset(xs) == multiset(ys)
    ensures |xs| == |ys|
    ensures forall x :: x in xs <==> x in ys
  {
    assert |multiset(xs)| == |multiset(ys)|;
    forall x
      ensures x in xs <==> x in ys
    {
      assert x in xs <==> x in multiset(xs);
      assert x in ys <==> x in multiset(ys);
    }
  }

  lemma {:induction false} SortMembers<T>(xs: seq<T>, le: (T, T) -> bool)
    ensures |Sort(xs, le)| == |xs|
    ensures forall x :: x in Sort(xs, le) <==> x in xs
  {
    SameMembers(Sort(xs, le), xs);
  }

  lemma {:induction false} InsertSorted<T(!new)>(x: T, xs: seq<T>, le: (T, T) -> bool)
    requires TotalOrder(le) && SortedBy(xs, le)
    ensures SortedBy(Insert(x, xs, le), le)
  {
    if xs == [] {
    } else if le(x, xs[0]) {
      forall i, j | 0 <= i < j < |xs| + 1
        ensures le(([x] + xs)[i], ([x] + xs)[j])
      {
        if i == 0 && j > 1 {
          assert le(xs[0], xs[j - 1]);
        }
      }
    } else {
      InsertSorted(x, xs[1..], le);
      var rest := Insert(x, xs[1..], le);
      SameMembers(rest, xs[1..] + [x]);
      forall j | 0 <= j < |rest|
        ensures le(xs[0], rest[j])
      {
        assert rest[j] in xs[1..] + [x];
      }
    }
  }

  lemma {:induction false} SortIsSorted<T(!new)>(xs: seq<T>, le: (T, T) -> bool)
    requires TotalOrder(le)
    ensures SortedBy(Sort(xs, le), le)
  {
    if xs != [] {
      SortIsSorted(xs[1..], le);
      InsertSorted(xs[0], Sort(xs[1..], le), le);
    }
  }

  /** Distinct elements of `xs` are never equivalent under `le`. */
  ghost predicate Antisymmetric<T(!new)>(xs: seq<T>, le: (T, T) -> bool)
  {
    forall x, y :: x in xs && y in xs && le(x, y) && le(y, x) ==> x == y
  }

  lemma TailMultiset<T>(xs: seq<T>)
    requires xs != []
    ensures xs == [xs[0]] + xs[1..] && multiset(xs[1..]) == multiset(xs) - multiset{xs[0]}
  {
    assert xs == [xs[0]] + xs[1..];
  }

  lemma AntisymmetricTail<T(!new)>(xs: seq<T>, le: (T, T) -> bool)
    requires xs != [] && Antisymmetric(xs, le)
    ensures Antisymmetric(xs[1..], le)
  {
    assert forall x :: x in xs[1..] ==> x in xs;
  }

  lemma SortedHeads<T(!new)>(xs: seq<T>, ys: seq<T>, le: (T, T) -> bool)
    requires SortedBy(xs, le) && SortedBy(ys, le) && Antisymmetric(xs, le)
    requires xs != [] && multiset(xs) == multiset(ys)
    ensures ys != [] && xs[0] == ys[0]
  {
    SameMembers(xs, ys);
    assert xs[0] in ys && ys[0] in xs;
    var i :| 0 <= i < |ys| && ys[i] == xs[0];
    var j :| 0 <= j < |xs| && xs[j] == ys[0];
    if i != 0 && j != 0 {
      assert le(ys[0], ys[i]) && le(xs[0], xs[j]);
    }
  }

  /** A sorted list is determined by its multiset of elements. */
  lemma {:induction false} SortedUnique<T(!new)>(xs: seq<T>, ys: seq<T>, le: (T, T) -> bool)
    requires SortedBy(xs, le) && SortedBy(ys, le) && Antisymmetric(xs, le)
    requires multiset(xs) == multiset(ys)
    ensures xs == ys
  {
    if xs == [] {
      SameMembers(xs, ys);
    } else {
      SortedHeads(xs, ys, le);
      TailMultiset(xs);
      TailMultiset(ys);
      AntisymmetricTail(xs, le);
      SortedUnique(xs[1..], ys[1..], le);
    }
  }

  /** Sorting ignores the order its input came in. */
  lemma {:induction false} SortCanonical<T(!new)>(xs: seq<T>, ys: seq<T>, le: (T, T) -> bool)
    requires TotalOrder(le) && Antisymmetric(xs, le)
    requires multiset(xs) == multiset(ys)
    ensures Sort(xs, le) == Sort(ys, le)
  {
    SortIsSorted(xs, le);
    SortIsSorted(ys, le);
    SortMembers(xs, le);
    SortedUnique(Sort(xs, le), Sort(ys, le), le);
  }

  /** Sorting a sorted list changes nothing (the sort is stable, so ties stay put). */
  lemma {:induction false} SortFixes<T>(xs: seq<T>, le: (T, T) -> bool)
    requires SortedBy(xs, le)
    ensures Sort(xs, le) == xs
  {
    if xs != [] {
      SortFixes(xs[1..], le);
      if |xs| > 1 {
        assert le(xs[0], xs[1]);
      }
      assert xs == [xs[0]] + xs[1..];
    }
  }

  ghost predicate DistinctBy<T, K>(xs: seq<T>, keyOf: T -> K)
  {
    forall i, j :: 0 <= i < j < |xs| ==> keyOf(xs[i]) != keyOf(xs[j])
  }

  lemma {:induction false} InsertDistinct<T(!new), K>(x: T, xs: seq<T>, le: (T, T) -> bool, keyOf: T -> K)
    requires DistinctBy(xs, keyOf)
    requires forall i :: 0 <= i < |xs| ==> keyOf(xs[i]) != keyOf(x)
    ensures DistinctBy(Insert(x, xs, le), keyOf)
  {
    if xs != [] && !le(x, xs[0]) {
      InsertDistinct(x, xs[1..], le, keyOf);
      var rest := Insert(x, xs[1..], le);
      SameMembers(rest, xs[1..] + [x]);
      forall j | 0 <= j < |rest|
        ensures keyOf(xs[0]) != keyOf(rest[j])
      {
        assert rest[j] in xs[1..] + [x];
      }
    }
  }

  /** Sorting keeps keys distinct. */
  lemma {:induction false} SortDistinct<T(!new), K>(xs: seq<T>, le: (T, T) -> bool, keyOf: T -> K)
    requires DistinctBy(xs, keyOf)
    ensures DistinctBy(Sort(xs, le), keyOf)
  {
    if xs != [] {
      SortDistinct(xs[1..], le, keyOf);
      var rest := Sort(xs[1..], le);
      SortMembers(xs[1..], le);
      forall i | 0 <= i < |rest|
        ensures keyOf(rest[i]) != keyOf(xs[0])
      {
        assert rest[i] in xs[1..];
      }
      InsertDistinct(xs[0], rest, le, keyOf);
    }
  }
}
