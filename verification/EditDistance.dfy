/** The typosquat test of the reference agent: a two-pointer scan that decides whether two
    names are exactly one edit apart, against the recursive Levenshtein distance. */
module EditDistance {

  function Min(x: nat, y: nat): nat {
    if x <= y then x else y
  }

  /** The distance: delete from either string, or keep or substitute the first characters. */
  function Lev(a: string, b: string): nat
    decreases |a| + |b|
  {
    if a == "" then |b|
    else if b == "" then |a|
    else
      Min(Min(Lev(a[1..], b), Lev(a, b[1..])) + 1,
          Lev(a[1..], b[1..]) + if a[0] == b[0] then 0 else 1)
  }

  lemma {:induction false} LevZero(a: string, b: string)
    ensures Lev(a, b) == 0 <==> a == b
    decreases |a| + |b|
  {
    if a != "" && b != "" {
      LevZero(a[1..], b[1..]);
      assert a == [a[0]] + a[1..] && b == [b[0]] + b[1..];
    }
  }

  lemma {:induction false} LevLength(a: string, b: string)
    ensures |a| - |b| <= Lev(a, b) && |b| - |a| <= Lev(a, b)
    decreases |a| + |b|
  {
    if a != "" && b != "" {
      LevLength(a[1..], b);
      LevLength(a, b[1..]);
      LevLength(a[1..], b[1..]);
    }
  }

  /** Dropping the first character of either string costs at most one edit. */
  lemma {:induction false} LevDrop(a: string, b: string)
    ensures a != "" ==> Lev(a[1..], b) <= Lev(a, b) + 1
    ensures b != "" ==> Lev(a, b[1..]) <= Lev(a, b) + 1
    decreases |a| + |b|
  {
    if a != "" && b != "" {
      LevDrop(a, b[1..]);
      LevDrop(a[1..], b);
    }
  }

  /** Skipping an equal first character loses no solution. */
  lemma LevSkip(a: string, b: string)
    requires a != "" && b != "" && a[0] == b[0]
    ensures Lev(a, b) == Lev(a[1..], b[1..])
  {
    LevDrop(a[1..], b);
    LevDrop(a, b[1..]);
  }

  /** One edit apart, deciding at the first mismatch. */
  predicate OneApart(a: string, b: string)
    decreases |a|
  {
    if a == "" || b == "" then |a| + |b| == 1
    else if a[0] == b[0] then OneApart(a[1..], b[1..])
    else a[1..] == b || a == b[1..] || a[1..] == b[1..]
  }

  lemma {:induction false} OneApartIsLevOne(a: string, b: string)
    ensures OneApart(a, b) <==> Lev(a, b) == 1
    decreases |a|
  {
    if a == "" || b == "" {
    } else if a[0] == b[0] {
      LevSkip(a, b);
      OneApartIsLevOne(a[1..], b[1..]);
    } else {
      LevZero(a[1..], b);
      LevZero(a, b[1..]);
      LevZero(a[1..], b[1..]);
    }
  }

  /** After the one allowed edit only equality of the rest is left to decide. */
  lemma SkipEqual(a: string, b: string)
    requires a != "" && b != "" && a[0] == b[0]
    ensures a == b <==> a[1..] == b[1..]
  {
    assert a == [a[0]] + a[1..] && b == [b[0]] + b[1..];
  }

  /** `_edit_distance_one` answers exactly "the Levenshtein distance is one", for all strings. */
  method EditDistanceOne(a: string, b: string) returns (one: bool)
    ensures one <==> Lev(a, b) == 1
  {
    OneApartIsLevOne(a, b);
    LevZero(a, b);
    if |a| - |b| > 1 || |b| - |a| > 1 {
      LevLength(a, b);
      return false;
    }
    if a == b {
      return false;
    }
    var i, j, edits := 0, 0, 0;
    assert a[0..] == a && b[0..] == b;
    while i < |a| && j < |b|
      invariant 0 <= i <= |a| && 0 <= j <= |b| && 0 <= edits <= 1
      invariant edits == 0 ==> i == j && (OneApart(a, b) <==> OneApart(a[i..], b[j..])) && a[i..] != b[j..]
      invariant edits == 1 ==> |a| - i == |b| - j && (OneApart(a, b) <==> a[i..] == b[j..])
      decreases |a| + |b| - i - j
    {
      assert a[i..][1..] == a[i + 1..] && b[j..][1..] == b[j + 1..];
      if a[i] == b[j] {
        SkipEqual(a[i..], b[j..]);
        i, j := i + 1, j + 1;
      } else {
        edits := edits + 1;
        if edits > 1 {
          return false;
        }
        if |a| > |b| {
          i := i + 1;
        } else if |b| > |a| {
          j := j + 1;
        } else {
          i, j := i + 1, j + 1;
        }
      }
    }
    return true;
  }
}
