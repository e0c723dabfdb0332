/** Greedy one-to-one matching of reported findings against expected ones, for any matcher.
    The same loop scores repositories (`_match_counts`) and behavioural findings (`finding_quality`). */
module Matching {
  import opened Collections

  /** An entry of a findings list: a dictionary, or something the scorer skips. */
  datatype Entry<+T> = Finding(value: T) | Junk

  function Findings<T>(entries: seq<Entry<T>>): seq<T> {
    if entries == [] then []
    else (if entries[0].Finding? then [entries[0].value] else []) + Findings(entries[1..])
  }

  /** The first unused report from `k` on that matches `e`, or the end of the list. */
  function FirstFree<E, R>(e: E, rep: seq<R>, used: set<nat>, k: nat, m: (E, R) -> bool): nat
    requires k <= |rep|
    decreases |rep| - k
  {
    if k == |rep| || (k !in used && m(e, rep[k])) then k else FirstFree(e, rep, used, k + 1, m)
  }

  /** The pairing the loop builds: each expected finding in turn takes its first free report. */
  function Greedy<E, R>(exp: seq<E>, rep: seq<R>, m: (E, R) -> bool): map<nat, nat>
    decreases |exp|
  {
    if exp == [] then map[]
    else
      var n := |exp| - 1;
      var g := Greedy(exp[..n], rep, m);
      var j := FirstFree(exp[n], rep, g.Values, 0, m);
      if j < |rep| then g[n := j] else g
  }

  /** A one-to-one pairing of expected with reported positions that respects the matcher. */
  ghost predicate IsMatching<E, R>(p: map<nat, nat>, exp: seq<E>, rep: seq<R>, m: (E, R) -> bool) {
    && (forall i :: i in p ==> i < |exp| && p[i] < |rep| && m(exp[i], rep[p[i]]))
    && (forall i, k :: i in p && k in p && p[i] == p[k] ==> i == k)
  }

  /** No further pair could be added. */
  ghost predicate IsMaximal<E, R>(p: map<nat, nat>, exp: seq<E>, rep: seq<R>, m: (E, R) -> bool) {
    forall i, j :: 0 <= i < |exp| && 0 <= j < |rep| && m(exp[i], rep[j]) ==> i in p || j in p.Values
  }

  lemma {:induction false} FirstFreeFacts<E, R>(e: E, rep: seq<R>, used: set<nat>, k: nat, m: (E, R) -> bool)
    requires k <= |rep|
    ensures var j := FirstFree(e, rep, used, k, m);
            && k <= j <= |rep|
            && (j < |rep| ==> j !in used && m(e, rep[j]))
            && (forall i: nat :: k <= i < j ==> i in used || !m(e, rep[i]))
    decreases |rep| - k
  {
    if k == |rep| || (k !in used && m(e, rep[k])) {
    } else {
      FirstFreeFacts(e, rep, used, k + 1, m);
    }
  }

  /** The greedy pairing is one-to-one and respects the matcher. */
  lemma {:induction false} GreedyMatches<E, R>(exp: seq<E>, rep: seq<R>, m: (E, R) -> bool)
    ensures IsMatching(Greedy(exp, rep, m), exp, rep, m)
    decreases |exp|
  {
    if exp != [] {
      var n := |exp| - 1;
      GreedyMatches(exp[..n], rep, m);
      FirstFreeFacts(exp[n], rep, Greedy(exp[..n], rep, m).Values, 0, m);
    }
  }

  /** The greedy pairing leaves no matching pair of unpaired findings behind. */
  lemma {:induction false} GreedyIsMaximal<E, R>(exp: seq<E>, rep: seq<R>, m: (E, R) -> bool)
    ensures IsMaximal(Greedy(exp, rep, m), exp, rep, m)
    decreases |exp|
  {
    if exp != [] {
      var n := |exp| - 1;
      var g := Greedy(exp[..n], rep, m);
      GreedyIsMaximal(exp[..n], rep, m);
      FirstFreeFacts(exp[n], rep, g.Values, 0, m);
      var h := Greedy(exp, rep, m);
      GreedyMatches(exp[..n], rep, m);
      assert n !in g;
      assert g.Values <= h.Values by {
        forall v | v in g.Values ensures v in h.Values {
          var i :| i in g && g[i] == v;
          assert h[i] == v;
        }
      }
      forall i, j | 0 <= i < |exp| && 0 <= j < |rep| && m(exp[i], rep[j]) ensures i in h || j in h.Values {
        if i < n {
          assert exp[..n][i] == exp[i];
        }
      }
    }
  }

  lemma {:induction false} InjectiveSize(p: map<nat, nat>, target: set<nat>)
    requires forall i :: i in p ==> p[i] in target
    requires forall i, k :: i in p && k in p && p[i] == p[k] ==> i == k
    ensures |p| <= |target|
    decreases |p|
  {
    if p != map[] {
      var i :| i in p;
      InjectiveSize(p - {i}, target - {p[i]});
      assert |p - {i}| == |p| - 1 by {
        assert (p - {i}).Keys == p.Keys - {i};
      }
    }
  }

  lemma ValuesSize(p: map<nat, nat>)
    ensures |p.Values| <= |p|
  {
    ImageSize(p, p.Keys);
    assert p.Values == set i | i in p.Keys :: p[i];
  }

  lemma {:induction false} ImageSize(p: map<nat, nat>, keys: set<nat>)
    requires keys <= p.Keys
    ensures |set i | i in keys :: p[i]| <= |keys|
  {
    if keys != {} {
      var k :| k in keys;
      ImageSize(p, keys - {k});
      assert (set i | i in keys :: p[i]) == (set i | i in keys - {k} :: p[i]) + {p[k]};
    }
  }

  /** Greedy is never worse than half of the best: any one-to-one matching of the same lists
      has at most twice as many pairs. */
  lemma HalfOfMaximum<E, R>(p: map<nat, nat>, exp: seq<E>, rep: seq<R>, m: (E, R) -> bool)
    requires IsMatching(p, exp, rep, m)
    ensures |p| <= 2 * |Greedy(exp, rep, m)|
  {
    var g := Greedy(exp, rep, m);
    GreedyIsMaximal(exp, rep, m);
    var inside := map i | i in p && i in g :: p[i];
    var outside := map i | i in p && i !in g :: p[i];
    SubsetSize(inside.Keys, g.Keys);
    InjectiveSize(outside, g.Values);
    ValuesSize(g);
    assert p.Keys == inside.Keys + outside.Keys;
    assert |p.Keys| == |inside.Keys| + |outside.Keys|;
  }

  /** The bound is reached: where the first finding takes the only report the second one matches. */
  lemma HalfIsReached<E, R>(a: E, b: E, x: R, y: R, m: (E, R) -> bool)
    requires m(a, x) && m(a, y) && m(b, x) && !m(b, y)
    ensures Greedy([a, b], [x, y], m) == map[0 := 0]
    ensures IsMatching(map[0 := 1, 1 := 0], [a, b], [x, y], m)
  {
    assert [a, b][..1] == [a] && [a][..0] == [];
    GreedyLast([a], [x, y], m);
    GreedyLast([a, b], [x, y], m);
    assert FirstFree(a, [x, y], Greedy([], [x, y], m).Values, 0, m) == 0;
    var g: map<nat, nat> := map[0 := 0];
    assert g[0] == 0;
    assert FirstFree(b, [x, y], g.Values, 2, m) == 2;
    assert FirstFree(b, [x, y], g.Values, 1, m) == 2;
  }

  function Below(n: nat): set<nat> {
    if n == 0 then {} else Below(n - 1) + {n - 1}
  }

  lemma {:induction false} BelowSize(n: nat)
    ensures |Below(n)| == n
    ensures forall i: nat :: i in Below(n) <==> i < n
  {
    if n > 0 {
      BelowSize(n - 1);
    }
  }

  /** Hits never exceed either list. */
  lemma HitsBounded<E, R>(exp: seq<E>, rep: seq<R>, m: (E, R) -> bool)
    ensures |Greedy(exp, rep, m)| <= |exp| && |Greedy(exp, rep, m)| <= |rep|
  {
    var g := Greedy(exp, rep, m);
    GreedyMatches(exp, rep, m);
    BelowSize(|exp|);
    BelowSize(|rep|);
    SubsetSize(g.Keys, Below(|exp|));
    InjectiveSize(g, Below(|rep|));
  }

  // ----- one more reported finding

  lemma {:induction false} FirstFreeExtended<E, R>(e: E, rep: seq<R>, r: R, used: set<nat>, used': set<nat>,
                                                   k: nat, m: (E, R) -> bool)
    requires k <= |rep|
    requires used' == used || used' == used + {|rep|}
    requires |rep| !in used
    ensures var j, j' := FirstFree(e, rep, used, k, m), FirstFree(e, rep + [r], used', k, m);
            j' == if j < |rep| then j else if |rep| !in used' && m(e, r) then |rep| else |rep| + 1
    decreases |rep| - k
  {
    if k == |rep| {
      assert (rep + [r])[k] == r;
    } else if k !in used && m(e, rep[k]) {
    } else {
      assert (rep + [r])[k] == rep[k];
      FirstFreeExtended(e, rep, r, used, used', k + 1, m);
    }
  }

  /** Is there an expected finding that found no report and matches `r`? */
  ghost predicate Wanted<E, R>(exp: seq<E>, rep: seq<R>, r: R, m: (E, R) -> bool) {
    exists i: nat :: i < |exp| && i !in Greedy(exp, rep, m) && m(exp[i], r)
  }

  /** Appending one report changes no existing pair, and adds exactly one pair, of the new report
      with `w`, when some unmatched expected finding matches it. */
  lemma {:induction false} AppendedReport<E, R>(exp: seq<E>, rep: seq<R>, r: R, m: (E, R) -> bool) returns (w: nat)
    ensures !Wanted(exp, rep, r, m) ==> Greedy(exp, rep + [r], m) == Greedy(exp, rep, m)
    ensures Wanted(exp, rep, r, m) ==>
              w < |exp| && w !in Greedy(exp, rep, m) && m(exp[w], r)
              && Greedy(exp, rep + [r], m) == Greedy(exp, rep, m)[w := |rep|]
    decreases |exp|
  {
    w := 0;
    if exp != [] {
      var n := |exp| - 1;
      w := AppendedReport(exp[..n], rep, r, m);
      GreedyMatches(exp[..n], rep, m);
      if Wanted(exp[..n], rep, r, m) {
        StepAfterTaken(exp, rep, r, m, w);
        assert exp[..n][w] == exp[w];
      } else {
        StepBeforeTaken(exp, rep, r, m);
        WantedAtLast(exp, rep, r, m);
        if Wanted(exp, rep, r, m) {
          w := n;
        }
      }
    }
  }

  lemma GreedyLast<E, R>(exp: seq<E>, rep: seq<R>, m: (E, R) -> bool)
    requires exp != []
    ensures var n := |exp| - 1;
            var g := Greedy(exp[..n], rep, m);
            var j := FirstFree(exp[n], rep, g.Values, 0, m);
            Greedy(exp, rep, m) == if j < |rep| then g[n := j] else g
  {
  }

  /** The new report is already taken: the last expected finding does what it did. */
  lemma StepAfterTaken<E, R>(exp: seq<E>, rep: seq<R>, r: R, m: (E, R) -> bool, w: nat)
    requires exp != [] && w < |exp| - 1
    requires w !in Greedy(exp[..|exp| - 1], rep, m) && |rep| !in Greedy(exp[..|exp| - 1], rep, m).Values
    requires Greedy(exp[..|exp| - 1], rep + [r], m) == Greedy(exp[..|exp| - 1], rep, m)[w := |rep|]
    ensures w !in Greedy(exp, rep, m) && Greedy(exp, rep + [r], m) == Greedy(exp, rep, m)[w := |rep|]
  {
    hide Greedy, FirstFree;
    var n := |exp| - 1;
    var g := Greedy(exp[..n], rep, m);
    GreedyLast(exp, rep, m);
    GreedyLast(exp, rep + [r], m);
    NewValue(g, w, |rep|);
    FirstFreeExtended(exp[n], rep, r, g.Values, g.Values + {|rep|}, 0, m);
    var j := FirstFree(exp[n], rep, g.Values, 0, m);
    FirstFreeFacts(exp[n], rep, g.Values, 0, m);
    if j < |rep| {
      assert g[w := |rep|][n := j] == g[n := j][w := |rep|];
    }
  }

  /** The new report is still free: the last expected finding takes it if it found nothing else. */
  lemma StepBeforeTaken<E, R>(exp: seq<E>, rep: seq<R>, r: R, m: (E, R) -> bool)
    requires exp != []
    requires IsMatching(Greedy(exp[..|exp| - 1], rep, m), exp[..|exp| - 1], rep, m)
    requires Greedy(exp[..|exp| - 1], rep + [r], m) == Greedy(exp[..|exp| - 1], rep, m)
    ensures var g := Greedy(exp, rep, m);
            Greedy(exp, rep + [r], m) == if |exp| - 1 !in g && m(exp[|exp| - 1], r) then g[|exp| - 1 := |rep|] else g
  {
    var n := |exp| - 1;
    var g := Greedy(exp[..n], rep, m);
    assert |rep| !in g.Values && n !in g;
    hide Greedy, FirstFree, IsMatching;
    GreedyLast(exp, rep, m);
    GreedyLast(exp, rep + [r], m);
    FirstFreeExtended(exp[n], rep, r, g.Values, g.Values, 0, m);
    FirstFreeFacts(exp[n], rep, g.Values, 0, m);
  }

  lemma WantedAtLast<E, R>(exp: seq<E>, rep: seq<R>, r: R, m: (E, R) -> bool)
    requires exp != []
    requires !Wanted(exp[..|exp| - 1], rep, r, m)
    ensures Wanted(exp, rep, r, m) <==> |exp| - 1 !in Greedy(exp, rep, m) && m(exp[|exp| - 1], r)
  {
    var n := |exp| - 1;
    var g, h := Greedy(exp[..n], rep, m), Greedy(exp, rep, m);
    forall i: nat | i < n && i !in h ensures !m(exp[i], r) {
      assert exp[..n][i] == exp[i];
      assert i !in g;
    }
  }

  lemma NewValue(g: map<nat, nat>, i: nat, v: nat)
    requires i !in g
    ensures g[i := v].Values == g.Values + {v}
  {
    var h := g[i := v];
    assert h[i] == v;
    forall x | x in g.Values ensures x in h.Values {
      var k :| k in g && g[k] == x;
      assert h[k] == x;
    }
  }

  /** Appending one report changes the hits by nothing or by one, and by one exactly when it is wanted. */
  lemma AppendedHits<E, R>(exp: seq<E>, rep: seq<R>, r: R, m: (E, R) -> bool)
    ensures |Greedy(exp, rep + [r], m)| == |Greedy(exp, rep, m)| + if Wanted(exp, rep, r, m) then 1 else 0
  {
    var w := AppendedReport(exp, rep, r, m);
  }

  lemma {:induction false} FindingsAppend<T>(x: seq<Entry<T>>, y: seq<Entry<T>>)
    ensures Findings(x + y) == Findings(x) + Findings(y)
  {
    if x == [] {
      assert x + y == y;
    } else {
      assert (x + y)[1..] == x[1..] + y;
      FindingsAppend(x[1..], y);
      var first := if x[0].Finding? then [x[0].value] else [];
      Associates(first, Findings(x[1..]), Findings(y));
    }
  }

  // ----- the loop

  /** The nested loop with its `used` set; it counts the pairs of the greedy pairing. */
  method GreedyHits<E, R>(exp: seq<E>, rep: seq<R>, m: (E, R) -> bool) returns (hits: nat)
    ensures hits == |Greedy(exp, rep, m)|
  {
    var used: set<nat> := {};
    hits := 0;
    for n := 0 to |exp|
      invariant used == Greedy(exp[..n], rep, m).Values
      invariant hits == |Greedy(exp[..n], rep, m)|
    {
      assert exp[..n + 1][..n] == exp[..n];
      ghost var g := Greedy(exp[..n], rep, m);
      GreedyMatches(exp[..n], rep, m);
      var i := 0;
      while i < |rep| && (i in used || !m(exp[n], rep[i]))
        invariant i <= |rep|
        invariant FirstFree(exp[n], rep, used, i, m) == FirstFree(exp[n], rep, used, 0, m)
      {
        i := i + 1;
      }
      if i < |rep| {
        NewValue(g, n, i);
        used := used + {i};
        hits := hits + 1;
      }
    }
    assert exp[..|exp|] == exp;
  }

  /** `_match_counts`: hits, and how many dictionaries each list holds. */
  method MatchCounts<E, R>(reported: seq<Entry<R>>, expected: seq<Entry<E>>, m: (E, R) -> bool)
    returns (hits: nat, nExp: nat, nRep: nat)
    ensures hits == |Greedy(Findings(expected), Findings(reported), m)|
    ensures nExp == |Findings(expected)| && nRep == |Findings(reported)|
    ensures hits <= nExp && hits <= nRep
  {
    var exp, rep := Findings(expected), Findings(reported);
    hits := GreedyHits(exp, rep, m);
    HitsBounded(exp, rep, m);
    nExp, nRep := |exp|, |rep|;
  }
}
