/** Stable insertion sort by a total preorder, standing for Python's `sorted`.

    The facts the rest of the project relies on: the result is ordered, it is a
    permutation of the input, and when the order tells the elements apart it is
    the only ordered permutation, so the order of the input does not matter.
 */
module Sorting {

  ghost predicate TotalPreorder<T(!new)>(le: (T, T) -> bool) {
    && (forall a, b :: le(a, b) || le(b, a))
    && (forall a, b, c :: le(a, b) && le(b, c) ==> le(a, c))
  }

  /** Elements of `s` that tie under `le` are equal. */
  ghost predicate Discerns<T(!new)>(le: (T, T) -> bool, s: seq<T>) {
    forall a, b :: a in s && b in s && le(a, b) && le(b, a) ==> a == b
  }

  ghost predicate Sorted<T>(s: seq<T>, le: (T, T) -> bool) {
    forall i, j :: 0 <= i < j < |s| ==> le(s[i], s[j])
  }

  /** Where a stable insertion puts `x`: after every leading element strictly before it. */
  function Position<T>(x: T, s: seq<T>, le: (T, T) -> bool): (p: nat)
    ensures p <= |s|
  {
    if s == [] || le(x, s[0]) then 0 else 1 + Position(x, s[1..], le)
  }

  function Insert<T>(x: T, s: seq<T>, le: (T, T) -> bool): seq<T> {
    var p := Position(x, s, le);
    s[..p] + [x] + s[p..]
  }

  function Sort<T>(s: seq<T>, le: (T, T) -> bool): seq<T> {
    if s == [] then [] else Insert(s[0], Sort(s[1..], le), le)
  }

  lemma InsertKeeps<T>(x: T, s: seq<T>, le: (T, T) -> bool)
    ensures multiset(Insert(x, s, le)) == multiset(s) + multiset{x}
  {
    var p := Position(x, s, le);
    assert s == s[..p] + s[p..];
  }

  /** Nothing is lost or added. */
  lemma {:induction false} SortKeeps<T>(s: seq<T>, le: (T, T) -> bool)
    ensures multiset(Sort(s, le)) == multiset(s)
    ensures |Sort(s, le)| == |s|
  {
    if s != [] {
      SortKeeps(s[1..], le);
      InsertKeeps(s[0], Sort(s[1..], le), le);
      assert s == [s[0]] + s[1..];
    }
  }

  lemma {:induction false} PositionSplits<T(!new)>(x: T, s: seq<T>, le: (T, T) -> bool)
    requires TotalPreorder(le)
    requires Sorted(s, le)
    ensures forall i :: 0 <= i < Position(x, s, le) ==> le(s[i], x)
    ensures forall i :: Position(x, s, le) <= i < |s| ==> le(x, s[i])
  {
    if s == [] {
    } else if le(x, s[0]) {
    } else {
      PositionSplits(x, s[1..], le);
      var p := Position(x, s[1..], le);
      forall i | 1 + p <= i < |s| ensures le(x, s[i]) {
        assert s[i] == s[1..][i - 1];
      }
      forall i | 0 < i < 1 + p ensures le(s[i], x) {
        assert s[i] == s[1..][i - 1];
      }
    }
  }

  /** An element that is earlier in the order is inserted no later. */
  lemma {:induction false} PositionMonotone<T(!new)>(x: T, y: T, s: seq<T>, le: (T, T) -> bool)
    requires TotalPreorder(le)
    requires le(x, y)
    ensures Position(x, s, le) <= Position(y, s, le)
  {
    if s == [] || le(x, s[0]) {
    } else {
      assert !le(y, s[0]);
      PositionMonotone(x, y, s[1..], le);
    }
  }

  lemma InsertSorted<T(!new)>(x: T, s: seq<T>, le: (T, T) -> bool)
    requires TotalPreorder(le)
    requires Sorted(s, le)
    ensures Sorted(Insert(x, s, le), le)
  {
    PositionSplits(x, s, le);
  }

  lemma {:induction false} SortSorted<T(!new)>(s: seq<T>, le: (T, T) -> bool)
    requires TotalPreorder(le)
    ensures Sorted(Sort(s, le), le)
  {
    if s != [] {
      SortSorted(s[1..], le);
      InsertSorted(s[0], Sort(s[1..], le), le);
    }
  }

  lemma MultisetMembers<T(!new)>(a: seq<T>, b: seq<T>)
    requires multiset(a) == multiset(b)
    ensures |a| == |b|
    ensures forall x :: x in a <==> x in b
  {
    assert |multiset(a)| == |a| && |multiset(b)| == |b|;
    forall x ensures x in a <==> x in b {
      assert x in a <==> x in multiset(a);
      assert x in b <==> x in multiset(b);
    }
  }

  /** An ordered sequence starts with its least element, so equal contents give equal heads. */
  lemma HeadsAgree<T(!new)>(a: seq<T>, b: seq<T>, le: (T, T) -> bool)
    requires TotalPreorder(le)
    requires Sorted(a, le) && Sorted(b, le)
    requires multiset(a) == multiset(b) && a != [] && b != []
    requires Discerns(le, a)
    ensures a[0] == b[0]
  {
    MultisetMembers(a, b);
    assert a[0] in b && b[0] in a;
    var i :| 0 <= i < |a| && a[i] == b[0];
    var j :| 0 <= j < |b| && b[j] == a[0];
    assert le(a[0], a[0]) && le(b[0], b[0]);
    assert le(a[0], a[i]) && le(b[0], b[j]);
  }

  lemma TailsAgree<T(!new)>(a: seq<T>, b: seq<T>)
    requires multiset(a) == multiset(b) && a != [] && b != [] && a[0] == b[0]
    ensures multiset(a[1..]) == multiset(b[1..])
  {
    assert a == [a[0]] + a[1..] && b == [b[0]] + b[1..];
    assert multiset(a[1..]) == multiset(a) - multiset{a[0]};
    assert multiset(b[1..]) == multiset(b) - multiset{b[0]};
  }

  /** Two ordered sequences with the same elements are the same sequence. */
  lemma {:induction false} SortedUnique<T(!new)>(a: seq<T>, b: seq<T>, le: (T, T) -> bool)
    requires TotalPreorder(le)
    requires Sorted(a, le) && Sorted(b, le)
    requires multiset(a) == multiset(b)
    requires Discerns(le, a)
    ensures a == b
  {
    MultisetMembers(a, b);
    if a != [] {
      HeadsAgree(a, b, le);
      TailsAgree(a, b);
      assert Discerns(le, a[1..]) by {
        assert forall x :: x in a[1..] ==> x in a;
      }
      SortedUnique(a[1..], b[1..], le);
      assert a == [a[0]] + a[1..] && b == [b[0]] + b[1..];
    }
  }

  /** Sorting forgets the order of its input. */
  lemma SortPermutation<T(!new)>(a: seq<T>, b: seq<T>, le: (T, T) -> bool)
    requires TotalPreorder(le)
    requires multiset(a) == multiset(b)
    requires Discerns(le, a)
    ensures Sort(a, le) == Sort(b, le)
  {
    SortSorted(a, le);
    SortSorted(b, le);
    SortKeeps(a, le);
    SortKeeps(b, le);
    MultisetMembers(a, Sort(a, le));
    SortedUnique(Sort(a, le), Sort(b, le), le);
  }

  /** Sorting with one element taken out and put back: only its insertion point depends on it. */
  lemma SortAround<T(!new)>(s: seq<T>, j: nat, le: (T, T) -> bool)
    requires TotalPreorder(le)
    requires j < |s|
    requires Discerns(le, s)
    ensures Sort(s, le) == Insert(s[j], Sort(s[..j] + s[j + 1..], le), le)
  {
    var rest := s[..j] + s[j + 1..];
    var t := [s[j]] + rest;
    BringToFront(s, j);
    SortPermutation(s, t, le);
    assert t[1..] == rest;
  }

  lemma BringToFront<T>(s: seq<T>, j: nat)
    requires j < |s|
    ensures multiset([s[j]] + (s[..j] + s[j + 1..])) == multiset(s)
  {
    assert s == s[..j] + ([s[j]] + s[j + 1..]);
  }
}
