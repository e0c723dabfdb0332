/** What a zero-sum move of the voted weights does after smoothing. The moving average is divided by
    the sum of what it keeps, so a hotkey that drops out gives its carried weight to everybody left. */
module SmoothedIncentives {
  import opened Sums
  import opened Smoothing

  /** The sum the average is divided by. */
  ghost function Competitive(prior: Weights, w: Weights): real {
    MapSum(DropDust(Mix(prior, w)))
  }

  predicate PositiveEntries(w: Weights) {
    forall h :: h in w ==> w[h] > 0.0
  }

  /** `own` gains or keeps, and nobody else gains. */
  ghost predicate ZeroSumMove(w: Weights, w': Weights, own: string) {
    && PositiveEntries(w) && PositiveEntries(w')
    && Get(w', own) >= Get(w, own)
    && forall h :: h != own ==> Get(w', h) <= Get(w, h)
  }

  /** What the average keeps moves the same way. */
  lemma KeptMoves(prior: Weights, w: Weights, w': Weights, own: string, h: string)
    requires ZeroSumMove(w, w', own)
    ensures var before, after := Get(DropDust(Mix(prior, w)), h), Get(DropDust(Mix(prior, w')), h);
            && before >= 0.0 && after >= 0.0
            && (h == own ==> after >= before)
            && (h != own ==> after <= before)
            && (Get(w', h) == Get(w, h) ==> after == before)
  {
    assert Get(w', h) > 0.0 <==> h in w';
    assert Get(w, h) > 0.0 <==> h in w;
  }

  /** Nobody but `own` joins, and `own` does not leave. */
  lemma OnlyOwnJoins(w: Weights, w': Weights, own: string, h: string)
    requires ZeroSumMove(w, w', own)
    ensures h in w' && h !in w ==> h == own
    ensures own in w ==> own in w'
  {
    assert h in w' ==> Get(w', h) > 0.0;
    assert own in w ==> Get(w, own) > 0.0;
  }

  lemma SumOfLess(x: Weights, y: Weights)
    requires NonNegative(x) && NonNegative(y)
    requires forall h :: Get(x, h) <= Get(y, h)
    ensures MapSum(x) <= MapSum(y)
  {
    var keys := x.Keys + y.Keys;
    SumPad(x, keys);
    SumPad(y, keys);
    SumMonotone(map h | h in keys :: Get(x, h), map h | h in keys :: Get(y, h));
  }

  lemma KeptIsNonNegative(prior: Weights, w: Weights)
    ensures NonNegative(DropDust(Mix(prior, w)))
    ensures Competitive(prior, w) >= 0.0
    ensures Competitive(prior, w) == 0.0 <==> DropDust(Mix(prior, w)) == map[]
    ensures Blend(prior, w) == map[] <==> DropDust(Mix(prior, w)) == map[]
  {
    var kept := DropDust(Mix(prior, w));
    SumNonNegative(kept);
    if kept != map[] {
      var h :| h in kept;
      assert kept[h] <= MapSum(kept);
      assert h in Blend(prior, w);
    }
  }

  /** An entry of the average is the kept entry over the sum. */
  lemma BlendEntry(prior: Weights, w: Weights, h: string)
    requires Competitive(prior, w) > 0.0
    ensures Get(Blend(prior, w), h) == Quotient(Get(DropDust(Mix(prior, w)), h), Competitive(prior, w))
  {
  }

  /** The sum is an entry and the rest. */
  lemma SumIsEntryAndRest(m: Weights, h: string)
    ensures MapSum(m) == Get(m, h) + MapSum(m - {h})
  {
    if h in m {
      SumRemove(m, h);
    } else {
      assert m - {h} == m;
    }
  }

  /** A part that grows beside a rest that shrinks is a larger share. */
  lemma SharesCompare(x: real, rest: real, x': real, rest': real)
    requires 0.0 <= x <= x' && 0.0 <= rest' <= rest
    requires x + rest > 0.0 && x' + rest' > 0.0
    ensures Quotient(x, x + rest) <= Quotient(x', x' + rest')
  {
    var q, q' := Quotient(x, x + rest), Quotient(x', x' + rest');
    assert q * (x + rest) == x && q' * (x' + rest') == x';
    assert x * (x' + rest') <= x' * (x + rest) by {
      assert x * rest' <= x' * rest by { ProductsCompare(x, x', rest', rest); }
      assert x * (x' + rest') == x * x' + x * rest' && x' * (x + rest) == x * x' + x' * rest;
    }
    CrossQuotients(x, x + rest, x', x' + rest');
  }

  lemma ProductsCompare(a: real, b: real, x: real, y: real)
    requires 0.0 <= a <= b && 0.0 <= x <= y
    ensures a * x <= b * y
  {
    assert a * x <= b * x && b * x <= b * y;
  }

  lemma CrossQuotients(x: real, d: real, y: real, e: real)
    requires d > 0.0 && e > 0.0
    ensures x * e <= y * d <==> Quotient(x, d) <= Quotient(y, e)
  {
    var p, q, de := x / d, y / e, d * e;
    assert x == p * d && y == q * e && de > 0.0;
    assert x * e == p * de && y * d == q * de;
    assert (q - p) * de == q * de - p * de;
  }

  /** Whatever is carried, the smoothed share of the hotkey that gained never falls. */
  lemma OwnShareNeverFalls(prior: Weights, w: Weights, w': Weights, own: string)
    requires ZeroSumMove(w, w', own)
    ensures Get(Blend(prior, w'), own) >= Get(Blend(prior, w), own)
  {
    hide Mix, DropDust, ZeroSumMove, Blend, Quotient;
    var kept, kept' := DropDust(Mix(prior, w)), DropDust(Mix(prior, w'));
    KeptIsNonNegative(prior, w);
    KeptIsNonNegative(prior, w');
    KeptMoves(prior, w, w', own, own);
    if kept == map[] {
      BlendNonNegative(prior, w', own);
    } else {
      assert forall h :: Get(kept' - {own}, h) <= Get(kept - {own}, h) by {
        forall h ensures Get(kept' - {own}, h) <= Get(kept - {own}, h) {
          KeptMoves(prior, w, w', own, h);
        }
      }
      SumOfLess(kept' - {own}, kept - {own});
      SumNonNegative(kept' - {own});
      SumIsEntryAndRest(kept, own);
      SumIsEntryAndRest(kept', own);
      if Competitive(prior, w') > 0.0 {
        SharesCompare(Get(kept, own), MapSum(kept - {own}), Get(kept', own), MapSum(kept' - {own}));
        BlendEntry(prior, w, own);
        BlendEntry(prior, w', own);
      } else {
        assert Get(kept', own) == 0.0;
        NothingKept(prior, w, own);
      }
    }
  }

  lemma BlendNonNegative(prior: Weights, w: Weights, h: string)
    ensures Get(Blend(prior, w), h) >= 0.0
  {
    BlendIsUnit(prior, w);
  }

  lemma NothingKept(prior: Weights, w: Weights, h: string)
    requires Competitive(prior, w) > 0.0 && Get(DropDust(Mix(prior, w)), h) == 0.0
    ensures Get(Blend(prior, w), h) == 0.0
  {
  }

  /** Where nobody was voted before, only the hotkey that gained can be in the average after. */
  lemma FirstInAverage(prior: Weights, w: Weights, w': Weights, own: string)
    requires ZeroSumMove(w, w', own) && w == map[]
    ensures Blend(prior, w') == map[] || Blend(prior, w') == map[own := 1.0]
  {
    var v := Blend(prior, w');
    assert w'.Keys <= {own} by {
      forall h | h in w' ensures h == own {
        assert Get(w', h) > 0.0 && Get(w, h) == 0.0;
      }
    }
    BlendSupport(prior, w');
    if v != map[] {
      BlendIsUnit(prior, w');
      hide Blend;
      assert v.Keys == {own};
      SumRemove(v, own);
      assert v - {own} == map[];
    }
  }

  lemma EntryOfNothing(prior: Weights, w: Weights, h: string)
    requires Competitive(prior, w) == 0.0
    ensures Get(Blend(prior, w), h) == 0.0
  {
    KeptIsNonNegative(prior, w);
  }

  /** Nobody else gains as long as the competitive sum does not shrink. */
  lemma OthersNeverRise(prior: Weights, w: Weights, w': Weights, own: string, h: string)
    requires ZeroSumMove(w, w', own) && h != own
    requires Competitive(prior, w') >= Competitive(prior, w)
    ensures Get(Blend(prior, w'), h) <= Get(Blend(prior, w), h)
  {
    hide Competitive, Mix, DropDust, ZeroSumMove, Blend, Quotient;
    var y, y' := Get(DropDust(Mix(prior, w)), h), Get(DropDust(Mix(prior, w')), h);
    var total, total' := Competitive(prior, w), Competitive(prior, w');
    KeptIsNonNegative(prior, w);
    KeptIsNonNegative(prior, w');
    KeptMoves(prior, w, w', own, h);
    if total' == 0.0 {
      EntryOfNothing(prior, w', h);
      BlendNonNegative(prior, w, h);
    } else {
      BlendEntry(prior, w', h);
      if total == 0.0 {
        assert y == 0.0;
        ZeroShare(total');
        EntryOfNothing(prior, w, h);
      } else {
        BlendEntry(prior, w, h);
        ProductsCompare(y', y, total, total');
        CrossQuotients(y', total', y, total);
      }
    }
  }

  lemma ZeroShare(d: real)
    requires d > 0.0
    ensures Quotient(0.0, d) == 0.0
  {
  }

  /** A hotkey in the average whose own voted weight did not change gains exactly when the
      competitive sum shrinks. */
  lemma UntouchedRisesIff(prior: Weights, w: Weights, w': Weights, own: string, h: string)
    requires ZeroSumMove(w, w', own) && h != own
    requires Get(w', h) == Get(w, h) && h in Blend(prior, w)
    ensures Get(Blend(prior, w'), h) > Get(Blend(prior, w), h) <==> Competitive(prior, w') < Competitive(prior, w)
  {
    hide Competitive, ZeroSumMove, Quotient;
    var y, total, total' := Get(DropDust(Mix(prior, w)), h), Competitive(prior, w), Competitive(prior, w');
    KeptIsNonNegative(prior, w);
    KeptIsNonNegative(prior, w');
    KeptMoves(prior, w, w', own, h);
    assert y > 0.0 && h in DropDust(Mix(prior, w'));
    hide Mix, DropDust, Blend;
    BlendEntry(prior, w, h);
    BlendEntry(prior, w', h);
    CrossQuotients(y, total', y, total);
    FactorsCompare(y, total, total');
  }

  lemma FactorsCompare(y: real, d: real, e: real)
    requires y > 0.0
    ensures y * d <= y * e <==> d <= e
  {
    assert y * (e - d) == y * e - y * d;
  }

  /** Any share after against any share before: the kept entries, each times the other sum. */
  lemma ShareMovesIff(prior: Weights, w: Weights, prior': Weights, w': Weights, h: string)
    requires Competitive(prior, w) > 0.0 && Competitive(prior', w') > 0.0
    ensures Get(Blend(prior', w'), h) > Get(Blend(prior, w), h)
            <==> Get(DropDust(Mix(prior', w')), h) * Competitive(prior, w)
                 > Get(DropDust(Mix(prior, w)), h) * Competitive(prior', w')
  {
    hide Competitive, Mix, DropDust, Blend, Quotient;
    BlendEntry(prior, w, h);
    BlendEntry(prior', w', h);
    CrossQuotients(Get(DropDust(Mix(prior', w')), h), Competitive(prior', w'),
                   Get(DropDust(Mix(prior, w)), h), Competitive(prior, w));
  }

  // ----- over repeated refreshes

  /** Once the carried support lies inside the vote, every entry is 0.3 of the voted and 0.7 of the
      carried one. */
  lemma SettledEntry(prior: Weights, w: Weights, h: string)
    requires UnitVector(w) && NoDust(w)
    requires UnitVector(prior) && prior.Keys <= w.Keys
    ensures Get(Blend(prior, w), h) == 0.3 * Get(w, h) + 0.7 * Get(prior, h)
  {
    BlendContracts(prior, w);
  }

  /** After the first refresh the average is settled in the vote. */
  lemma {:induction false} RefreshedSettled(n: nat, prior: Weights, w: Weights)
    requires n > 0 && EmptyOrUnit(prior) && UnitVector(w) && NoDust(w)
    ensures UnitVector(Refreshed(n, prior, w)) && Refreshed(n, prior, w).Keys <= w.Keys
  {
    hide Blend, UnitVector, NoDust;
    if n > 1 {
      RefreshedSettled(n - 1, prior, w);
    } else {
      assert Refreshed(0, prior, w) == prior;
    }
    var before := Refreshed(n - 1, prior, w);
    BlendOfUnit(before, w);
    BlendSupport(before, w);
  }

  /** Over any number of refreshes with the moved vote instead of the old one the hotkey that gained
      is never behind. */
  lemma {:induction false} OwnRefreshedNeverFalls(n: nat, prior: Weights, w: Weights, w': Weights, own: string)
    requires n > 0 && EmptyOrUnit(prior)
    requires ZeroSumMove(w, w', own)
    requires UnitVector(w) && NoDust(w) && UnitVector(w') && NoDust(w')
    ensures Get(Refreshed(n, prior, w'), own) >= Get(Refreshed(n, prior, w), own)
  {
    hide Blend, UnitVector, NoDust;
    if n == 1 {
      assert Refreshed(0, prior, w) == prior == Refreshed(0, prior, w');
      OwnShareNeverFalls(prior, w, w', own);
    } else {
      OwnRefreshedNeverFalls(n - 1, prior, w, w', own);
      RefreshedSettled(n - 1, prior, w);
      RefreshedSettled(n - 1, prior, w');
      SettledEntry(Refreshed(n - 1, prior, w), w, own);
      SettledEntry(Refreshed(n - 1, prior, w'), w', own);
    }
  }

  lemma KeptAhead(x: Weights, x': Weights, w: Weights, h: string)
    requires Get(x', h) >= Get(x, h)
    ensures 0.0 <= Get(DropDust(Mix(x, w)), h) <= Get(DropDust(Mix(x', w)), h)
  {
  }

  /** With another vote next, the hotkey that is ahead in the average stays ahead as long as the
      next competitive sum is no larger than it would have been. */
  lemma AheadStaysAhead(x: Weights, x': Weights, w: Weights, h: string)
    requires Get(x', h) >= Get(x, h)
    requires Competitive(x', w) <= Competitive(x, w)
    ensures Get(Blend(x', w), h) >= Get(Blend(x, w), h)
  {
    hide Competitive, Mix, DropDust, Blend, Quotient, EmptyOrUnit;
    var y, y' := Get(DropDust(Mix(x, w)), h), Get(DropDust(Mix(x', w)), h);
    KeptAhead(x, x', w, h);
    KeptIsNonNegative(x, w);
    KeptIsNonNegative(x', w);
    if Competitive(x', w) == 0.0 {
      assert y' == 0.0;
      if Competitive(x, w) > 0.0 {
        NothingKept(x, w, h);
      } else {
        EntryOfNothing(x, w, h);
      }
      BlendNonNegative(x', w, h);
    } else {
      BlendEntry(x', w, h);
      BlendEntry(x, w, h);
      ProductsCompare(y, y', Competitive(x', w), Competitive(x, w));
      CrossQuotients(y, Competitive(x, w), y', Competitive(x', w));
    }
  }

  // ----- the competitive sum

  /** The carried weight of a set of hotkeys. */
  ghost function Carried(prior: Weights, keys: set<string>): real {
    MapSum(map h | h in keys :: Get(prior, h))
  }

  lemma MixedSum(prior: Weights, w: Weights)
    requires UnitVector(w)
    ensures MapSum(Mix(prior, w)) == 0.3 + 0.7 * Carried(prior, w.Keys)
  {
    var padded: Weights := map h | h in w.Keys :: Get(prior, h);
    var newer: Weights := map h | h in w :: 0.3 * w[h];
    var older: Weights := map h | h in w :: 0.7 * Get(prior, h);
    forall h | h in w ensures Scaled(newer[h], 0.3, w[h]) && Scaled(older[h], 0.7, padded[h]) {}
    SumScale(newer, 0.3, w);
    SumScale(older, 0.7, padded);
    SumAdd(Mix(prior, w), newer, older);
  }

  /** Where no dust is dropped the sum is 0.3 and 0.7 of the carried weight of the voted hotkeys. */
  lemma CompetitiveIs(prior: Weights, w: Weights)
    requires NonNegative(prior)
    requires UnitVector(w) && NoDust(w)
    ensures Competitive(prior, w) == 0.3 + 0.7 * Carried(prior, w.Keys)
  {
    hide Mix, DropDust, Carried, NoDust;
    MixedSum(prior, w);
    MixHasNoDust(prior, w);
  }

  /** Dust only makes the sum smaller. */
  lemma CompetitiveAtMost(prior: Weights, w: Weights)
    requires NonNegative(prior) && UnitVector(w)
    ensures Competitive(prior, w) <= 0.3 + 0.7 * Carried(prior, w.Keys)
  {
    hide Carried;
    MixedSum(prior, w);
    SumOfLess(DropDust(Mix(prior, w)), Mix(prior, w));
  }

  /** If no hotkey with carried weight leaves the vote, the voted hotkeys carry no less. */
  lemma NobodyLeaves(prior: Weights, keys: set<string>, keys': set<string>)
    requires NonNegative(prior)
    requires forall h :: h in keys && Get(prior, h) > 0.0 ==> h in keys'
    ensures Carried(prior, keys') >= Carried(prior, keys)
  {
    SumOfLess(map h | h in keys :: Get(prior, h), map h | h in keys' :: Get(prior, h));
  }

  /** One hotkey leaves and takes its carried weight with it. */
  lemma OneLeaves(prior: Weights, keys: set<string>, h: string)
    requires h in keys
    ensures Carried(prior, keys - {h}) == Carried(prior, keys) - Get(prior, h)
  {
    var all: Weights := map k | k in keys :: Get(prior, k);
    SumRemove(all, h);
    assert all - {h} == map k | k in keys - {h} :: Get(prior, k);
  }
}
