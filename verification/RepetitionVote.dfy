/** The repetition vote: the verdict ordinals of the completed repetitions, reduced to their lower median. */
module RepetitionVote {
  import opened Sorting

  function AtMost(): (int, int) -> bool {
    (x: int, y: int) => x <= y
  }

  lemma AtMostIsTotal(s: seq<int>)
    ensures TotalPreorder(AtMost())
    ensures Discerns(AtMost(), s)
  {
  }

  function Middle(n: nat): nat
    requires n > 0
  {
    (n - 1) / 2
  }

  /** The vote: sort, and take the lower of the middle ordinals. */
  function LowerMedian(s: seq<int>): int
    requires s != []
  {
    SortKeeps(s, AtMost());
    Sort(s, AtMost())[Middle(|s|)]
  }

  /** How many votes are below `v`. */
  function Below(s: seq<int>, v: int): nat {
    if s == [] then 0 else (if s[0] < v then 1 else 0) + Below(s[1..], v)
  }

  lemma {:induction false} BelowAppend(s: seq<int>, t: seq<int>, v: int)
    ensures Below(s + t, v) == Below(s, v) + Below(t, v)
  {
    if s == [] {
      assert s + t == t;
    } else {
      assert (s + t)[1..] == s[1..] + t;
      BelowAppend(s[1..], t, v);
    }
  }

  lemma {:induction false} BelowSorted(s: seq<int>, v: int)
    ensures Below(Sort(s, AtMost()), v) == Below(s, v)
  {
    if s != [] {
      var r := Sort(s[1..], AtMost());
      BelowSorted(s[1..], v);
      var p := Position(s[0], r, AtMost());
      BelowAppend(r[..p], r[p..], v);
      BelowAppend(r[..p] + [s[0]], r[p..], v);
      BelowAppend(r[..p], [s[0]], v);
      assert r == r[..p] + r[p..];
      assert [s[0]][1..] == [];
    }
  }

  /** In an ordered list the entries below `v` are exactly the first `Below(s, v)` ones. */
  lemma {:induction false} BelowLocates(s: seq<int>, v: int, k: nat)
    requires Sorted(s, AtMost())
    requires k < |s|
    ensures s[k] < v <==> k < Below(s, v)
  {
    if s[0] >= v {
      assert s[0] <= s[k] by { if k > 0 { assert AtMost()(s[0], s[k]); } }
      NoneBelow(s, v);
    } else if k > 0 {
      assert Sorted(s[1..], AtMost());
      BelowLocates(s[1..], v, k - 1);
    }
  }

  lemma {:induction false} NoneBelow(s: seq<int>, v: int)
    requires Sorted(s, AtMost())
    requires s != [] && s[0] >= v
    ensures Below(s, v) == 0
  {
    if |s| > 1 {
      assert AtMost()(s[0], s[1]);
      assert Sorted(s[1..], AtMost());
      NoneBelow(s[1..], v);
    }
  }

  /** The vote is below `v` exactly when more than the lower half of the votes are. */
  lemma MedianBelow(s: seq<int>, v: int)
    requires s != []
    ensures LowerMedian(s) < v <==> Middle(|s|) < Below(s, v)
  {
    AtMostIsTotal(s);
    SortSorted(s, AtMost());
    SortKeeps(s, AtMost());
    BelowSorted(s, v);
    BelowLocates(Sort(s, AtMost()), v, Middle(|s|));
  }

  /** The vote does not depend on the order of the repetitions. */
  lemma VoteIgnoresOrder(s: seq<int>, t: seq<int>)
    requires s != [] && t != []
    requires multiset(s) == multiset(t)
    ensures LowerMedian(s) == LowerMedian(t)
  {
    AtMostIsTotal(s);
    SortPermutation(s, t, AtMost());
    MultisetMembers(s, t);
  }

  /** How many votes lie between `lo` and `hi`. */
  function Cast(s: seq<int>, lo: int, hi: int): nat {
    if s == [] then 0 else (if lo <= s[0] <= hi then 1 else 0) + Cast(s[1..], lo, hi)
  }

  lemma {:induction false} CastCounts(s: seq<int>, lo: int, hi: int)
    requires lo <= hi
    ensures Cast(s, lo, hi) == Below(s, hi + 1) - Below(s, lo)
    ensures Below(s, hi + 1) <= |s|
  {
    if s != [] {
      CastCounts(s[1..], lo, hi);
    }
  }

  /** The vote cannot leave a range that a strict majority voted inside. */
  lemma VoteStaysInMajorityRange(s: seq<int>, lo: int, hi: int)
    requires s != [] && lo <= hi
    requires 2 * Cast(s, lo, hi) > |s|
    ensures lo <= LowerMedian(s) <= hi
  {
    CastCounts(s, lo, hi);
    MedianBelow(s, lo);
    MedianBelow(s, hi + 1);
  }

  /** A strict majority for one verdict is the verdict. */
  lemma MajorityWins(s: seq<int>, v: int)
    requires s != []
    requires 2 * Cast(s, v, v) > |s|
    ensures LowerMedian(s) == v
  {
    VoteStaysInMajorityRange(s, v, v);
  }

  /** On an even split between two verdicts the lower one is taken. */
  lemma EvenSplitTakesLower(s: seq<int>, low: int, high: int)
    requires s != [] && low < high
    requires 2 * Cast(s, low, low) == |s| == 2 * Cast(s, high, high)
    ensures LowerMedian(s) == low
  {
    CastCounts(s, low, low);
    CastCounts(s, high, high);
    MedianBelow(s, low);
    MedianBelow(s, low + 1);
    BelowMonotone(s, low + 1, high);
  }

  lemma {:induction false} BelowMonotone(s: seq<int>, v: int, w: int)
    requires v <= w
    ensures Below(s, v) <= Below(s, w)
  {
    if s != [] {
      BelowMonotone(s[1..], v, w);
    }
  }

  lemma {:induction false} RaisedBelow(s: seq<int>, i: nat, x: int, v: int)
    requires i < |s| && x >= s[i]
    ensures Below(s[i := x], v) <= Below(s, v)
  {
    if i > 0 {
      assert s[i := x][1..] == s[1..][i - 1 := x];
      RaisedBelow(s[1..], i - 1, x, v);
    } else {
      assert s[i := x][1..] == s[1..];
    }
  }

  /** Raising one repetition's verdict never lowers the vote. */
  lemma VoteIsMonotone(s: seq<int>, i: nat, x: int)
    requires i < |s| && x >= s[i]
    ensures LowerMedian(s[i := x]) >= LowerMedian(s)
  {
    var v := LowerMedian(s);
    RaisedBelow(s, i, x, v);
    MedianBelow(s, v);
    MedianBelow(s[i := x], v);
  }
}
