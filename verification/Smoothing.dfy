/** The exponential moving average of the weight vector and the reserved share put on top of it. */
module Smoothing {
  import opened Sums

  const DUST := 0.000000001

  /** One refresh before cleaning: 30% of the new weight, 70% of the carried one, on the new support. */
  function Mixed(w: real, carried: real): real {
    0.3 * w + 0.7 * carried
  }

  function Mix(prior: Weights, w: Weights): Weights {
    map h | h in w :: Mixed(w[h], Get(prior, h))
  }

  function DropDust(m: Weights): Weights {
    map h | h in m && m[h] > DUST :: m[h]
  }

  function Quotient(x: real, total: real): real
    requires total != 0.0
  {
    x / total
  }

  ghost function Normalised(m: Weights): Weights {
    if MapSum(m) > 0.0 then map h | h in m :: Quotient(m[h], MapSum(m)) else m
  }

  /** The smoothed vector that is persisted. */
  ghost function Blend(prior: Weights, w: Weights): Weights {
    Normalised(DropDust(Mix(prior, w)))
  }

  ghost predicate EmptyOrUnit(m: Weights) {
    m == map[] || UnitVector(m)
  }

  lemma QuotientScaled(x: real, total: real)
    requires total > 0.0
    ensures Scaled(Quotient(x, total), 1.0 / total, x)
    ensures x >= 0.0 ==> Quotient(x, total) >= 0.0
    ensures total == 1.0 ==> Quotient(x, total) == x
    ensures x == total ==> Quotient(x, total) == 1.0
  {
  }

  lemma NormalisedIsUnit(m: Weights)
    requires NonNegative(m) && MapSum(m) > 0.0
    ensures UnitVector(Normalised(m))
  {
    var n, total := Normalised(m), MapSum(m);
    forall h | h in m ensures Scaled(n[h], 1.0 / total, m[h]) && n[h] >= 0.0 {
      QuotientScaled(m[h], total);
    }
    SumScale(n, 1.0 / total, m);
    UnitFraction(MapSum(n), total);
  }

  lemma UnitFraction(x: real, total: real)
    requires total > 0.0
    requires Scaled(x, 1.0 / total, total)
    ensures x == 1.0
  {
  }

  lemma NormalisedUnit(m: Weights)
    requires UnitVector(m)
    ensures Normalised(m) == m
  {
    forall h | h in m ensures Quotient(m[h], MapSum(m)) == m[h] {
      QuotientScaled(m[h], MapSum(m));
    }
  }

  /** Whatever was carried, the persisted vector is empty or a weight vector. */
  lemma BlendIsUnit(prior: Weights, w: Weights)
    ensures EmptyOrUnit(Blend(prior, w))
  {
    var kept := DropDust(Mix(prior, w));
    if kept != map[] {
      SumNonNegative(kept);
      var h :| h in kept;
      assert kept[h] <= MapSum(kept);
      NormalisedIsUnit(kept);
    }
  }

  lemma BlendOfUnit(prior: Weights, w: Weights)
    requires EmptyOrUnit(prior)
    requires UnitVector(w) && NoDust(w)
    ensures UnitVector(Blend(prior, w))
  {
    MixHasNoDust(prior, w);
    BlendIsUnit(prior, w);
    assert w != map[] by { assert MapSum(map[]) == 0.0; }
    var h :| h in w;
    assert h in Blend(prior, w);
  }

  /** No entry of `w` is so small that smoothing drops it. */
  ghost predicate NoDust(w: Weights) {
    forall h :: h in w ==> Mixed(w[h], 0.0) > DUST
  }

  lemma MixKeepsUnit(prior: Weights, w: Weights)
    requires UnitVector(w) && UnitVector(prior)
    requires prior.Keys <= w.Keys
    ensures MapSum(Mix(prior, w)) == 1.0
  {
    var mix := Mix(prior, w);
    var padded: Weights := map h | h in w.Keys :: Get(prior, h);
    var newer: Weights := map h | h in w :: 0.3 * w[h];
    var carried: Weights := map h | h in w :: 0.7 * Get(prior, h);
    SumPad(prior, w.Keys);
    forall h | h in w ensures Scaled(newer[h], 0.3, w[h]) && Scaled(carried[h], 0.7, padded[h]) {}
    SumScale(newer, 0.3, w);
    SumScale(carried, 0.7, padded);
    SumAdd(mix, newer, carried);
  }

  lemma MixHasNoDust(prior: Weights, w: Weights)
    requires NonNegative(prior)
    requires NoDust(w)
    ensures DropDust(Mix(prior, w)) == Mix(prior, w)
  {
    forall h | h in w ensures Mix(prior, w)[h] > DUST {
      assert Mixed(w[h], 0.0) > DUST;
      assert Get(prior, h) >= 0.0;
    }
  }

  /** One refresh with weight map `w`, once the carried support lies inside it, multiplies every
      pointwise gap by exactly 0.7 and keeps the sum at one. */
  lemma BlendContracts(prior: Weights, w: Weights)
    requires UnitVector(w) && NoDust(w)
    requires UnitVector(prior) && prior.Keys <= w.Keys
    ensures UnitVector(Blend(prior, w)) && Blend(prior, w).Keys == w.Keys
    ensures forall h :: h in w ==> Blend(prior, w)[h] - w[h] == 0.7 * (Get(prior, h) - w[h])
  {
    var mix := Mix(prior, w);
    MixHasNoDust(prior, w);
    MixKeepsUnit(prior, w);
    forall h | h in w ensures mix[h] >= 0.0 {
      assert Get(prior, h) >= 0.0;
    }
    NormalisedUnit(mix);
  }

  /** With nothing carried, the refresh jumps straight to the weight map. */
  lemma BlendFromNothing(w: Weights)
    requires UnitVector(w) && NoDust(w)
    ensures Blend(map[], w) == w
  {
    var mix := Mix(map[], w);
    MixHasNoDust(map[], w);
    forall h | h in w ensures Scaled(mix[h], 0.3, w[h]) {}
    SumScale(mix, 0.3, w);
    assert MapSum(mix) == 0.3;
    forall h | h in w ensures Quotient(mix[h], 0.3) == w[h] {
      assert mix[h] == 0.3 * w[h];
    }
    assert Blend(map[], w) == map h | h in mix :: Quotient(mix[h], 0.3);
  }

  /** After one refresh the support is inside the weight map's, whatever was carried. */
  lemma BlendSupport(prior: Weights, w: Weights)
    ensures Blend(prior, w).Keys <= w.Keys
  {
  }

  ghost function Refreshed(n: nat, prior: Weights, w: Weights): Weights {
    if n == 0 then prior else Blend(Refreshed(n - 1, prior, w), w)
  }

  function Decay(n: nat): real {
    if n == 0 then 1.0 else 0.7 * Decay(n - 1)
  }

  /** How far the carried weight of `h` is from the one being voted. */
  function Gap(m: Weights, w: Weights, h: string): real {
    Get(m, h) - Get(w, h)
  }

  lemma OneRefresh(before: Weights, w: Weights, h: string, decay: real, first: real)
    requires UnitVector(w) && NoDust(w)
    requires UnitVector(before) && before.Keys <= w.Keys
    requires Scaled(Gap(before, w, h), decay, first)
    ensures Scaled(Gap(Blend(before, w), w, h), 0.7 * decay, first)
  {
    BlendContracts(before, w);
    assert Gap(Blend(before, w), w, h) == 0.7 * Gap(before, w, h);
    DecayStep(Gap(before, w, h), decay, first);
  }

  /** `n` refreshes with the same map shrink every gap by exactly 0.7 to the `n`. */
  lemma {:induction false} RefreshesConverge(n: nat, prior: Weights, w: Weights)
    requires UnitVector(w) && NoDust(w)
    requires UnitVector(prior) && prior.Keys <= w.Keys
    ensures UnitVector(Refreshed(n, prior, w)) && Refreshed(n, prior, w).Keys <= w.Keys
    ensures forall h :: Scaled(Gap(Refreshed(n, prior, w), w, h), Decay(n), Gap(prior, w, h))
  {
    hide Blend, UnitVector, NoDust;
    if n > 0 {
      RefreshesConverge(n - 1, prior, w);
      var before := Refreshed(n - 1, prior, w);
      BlendContracts(before, w);
      forall h ensures Scaled(Gap(Refreshed(n, prior, w), w, h), Decay(n), Gap(prior, w, h)) {
        OneRefresh(before, w, h, Decay(n - 1), Gap(prior, w, h));
      }
    }
  }

  lemma DecayStep(gap: real, decay: real, first: real)
    requires Scaled(gap, decay, first)
    ensures Scaled(0.7 * gap, 0.7 * decay, first)
  {
  }

  /** The decay goes to zero at least as fast as 7 / (7 + 3n). */
  lemma {:induction false} DecayRate(n: nat)
    ensures 0.0 < Decay(n) <= 1.0
    ensures Decay(n) * (7.0 + 3.0 * n as real) <= 7.0
  {
    if n > 0 {
      DecayRate(n - 1);
      var d, k := Decay(n - 1), (n - 1) as real;
      assert n as real == k + 1.0;
      assert d * (7.0 + 3.0 * k) <= 7.0;
      assert 0.7 * d * (7.0 + 3.0 * (k + 1.0)) == 0.7 * (d * (7.0 + 3.0 * k)) + 2.1 * d;
    }
  }

  // ----- the reserved share

  /** The operator's reserved hotkey takes `share` of everything; the others keep their proportions. */
  function WithReserved(w: Weights, hotkey: string, share: real): Weights {
    map h | h in w.Keys + {hotkey} :: Kept(Get(w, h), share) + if h == hotkey then share else 0.0
  }

  function Kept(x: real, share: real): real {
    x * (1.0 - share)
  }

  predicate Reserving(hotkey: string, share: real) {
    hotkey != "" && 0.0 < share < 1.0
  }

  ghost function ApplyReserved(w: Weights, hotkey: string, share: real): Weights {
    if Reserving(hotkey, share) then Normalised(WithReserved(w, hotkey, share)) else w
  }

  lemma KeptScaled(x: real, share: real)
    requires 0.0 < share < 1.0
    ensures Scaled(Kept(x, share), 1.0 - share, x)
    ensures x >= 0.0 ==> Kept(x, share) >= 0.0
  {
  }

  lemma WithReservedSum(w: Weights, hotkey: string, share: real)
    requires NonNegative(w)
    requires 0.0 < share < 1.0
    ensures NonNegative(WithReserved(w, hotkey, share))
    ensures Scaled(MapSum(WithReserved(w, hotkey, share)) - share, 1.0 - share, MapSum(w))
  {
    hide Kept, MapSum;
    var out := WithReserved(w, hotkey, share);
    var kept := KeptMap(w, out.Keys, share);
    KeptSum(w, out.Keys, share);
    SumUpdate(kept, hotkey, kept[hotkey] + share);
    assert out == kept[hotkey := kept[hotkey] + share];
  }

  function KeptMap(w: Weights, keys: set<string>, share: real): Weights {
    map h | h in keys :: Kept(Get(w, h), share)
  }

  lemma KeptSum(w: Weights, keys: set<string>, share: real)
    requires NonNegative(w) && w.Keys <= keys
    requires 0.0 < share < 1.0
    ensures NonNegative(KeptMap(w, keys, share))
    ensures Scaled(MapSum(KeptMap(w, keys, share)), 1.0 - share, MapSum(w))
  {
    var padded: Weights := map h | h in keys :: Get(w, h);
    var kept := KeptMap(w, keys, share);
    forall h | h in keys ensures Scaled(kept[h], 1.0 - share, padded[h]) && kept[h] >= 0.0 {
      KeptScaled(Get(w, h), share);
    }
    SumPad(w, keys);
    SumScale(kept, 1.0 - share, padded);
  }

  /** Reserving keeps a weight vector a weight vector, gives the reserved hotkey exactly its share
      on top of its scaled weight, and everyone else their scaled weight. */
  lemma ReservedIsUnit(w: Weights, hotkey: string, share: real)
    requires UnitVector(w)
    ensures UnitVector(ApplyReserved(w, hotkey, share))
    ensures Reserving(hotkey, share) ==> ApplyReserved(w, hotkey, share) == WithReserved(w, hotkey, share)
  {
    if Reserving(hotkey, share) {
      WithReservedSum(w, hotkey, share);
      NormalisedUnit(WithReserved(w, hotkey, share));
    }
  }

  /** Reserving out of an empty vector votes the reserved hotkey alone. */
  lemma ReservedFromNothing(hotkey: string, share: real)
    requires Reserving(hotkey, share)
    ensures ApplyReserved(map[], hotkey, share) == map[hotkey := 1.0]
  {
    var out := WithReserved(map[], hotkey, share);
    assert out == map[hotkey := share] by {
      assert Kept(0.0, share) == 0.0;
    }
    SumUpdate(map[], hotkey, share);
    QuotientScaled(share, share);
  }

  lemma ReservedEmptyOrUnit(w: Weights, hotkey: string, share: real)
    requires EmptyOrUnit(w)
    ensures EmptyOrUnit(ApplyReserved(w, hotkey, share))
  {
    if w != map[] {
      ReservedIsUnit(w, hotkey, share);
    } else if Reserving(hotkey, share) {
      ReservedFromNothing(hotkey, share);
      SumUpdate(map[], hotkey, 1.0);
    }
  }

  // ----- the loops

  method Normalise(m: Weights) returns (n: Weights)
    ensures n == Normalised(m)
  {
    var total := Total(m);
    if total > 0.0 {
      n := map h | h in m :: Quotient(m[h], total);
    } else {
      n := m;
    }
  }

  /** The dictionary update of `apply_reserved_share`. */
  method ApplyReservedShare(w: Weights, hotkey: string, share: real) returns (out: Weights)
    ensures out == ApplyReserved(w, hotkey, share)
  {
    if !Reserving(hotkey, share) {
      return w;
    }
    out := map h | h in w :: Kept(w[h], share);
    out := out[hotkey := Get(out, hotkey) + share];
    assert Kept(0.0, share) == 0.0;
    assert out == WithReserved(w, hotkey, share);
    out := Normalise(out);
  }

  // ----- both in numbers

  /** A hotkey is in the average exactly if it is voted and three tenths of its vote with seven tenths of what
      was carried for it exceed a billionth; and the entries are in proportion to these amounts. */
  lemma BlendExactly(prior: Weights, w: Weights, g: string, h: string)
    ensures h in Blend(prior, w)
            <==> h in w && 0.3 * w[h] + 0.7 * (if h in prior then prior[h] else 0.0) > 0.000000001
    ensures g in Blend(prior, w) && h in Blend(prior, w) ==>
              Blend(prior, w)[g] * (0.3 * w[h] + 0.7 * (if h in prior then prior[h] else 0.0))
              == Blend(prior, w)[h] * (0.3 * w[g] + 0.7 * (if g in prior then prior[g] else 0.0))
  {
    hide MapSum;
    var kept := DropDust(Mix(prior, w));
    if g in kept && h in kept && MapSum(kept) > 0.0 {
      InProportion(kept[g], kept[h], MapSum(kept));
    }
  }

  lemma InProportion(x: real, y: real, total: real)
    requires total > 0.0
    ensures Quotient(x, total) * y == Quotient(y, total) * x
  {
    assert x / total * y == x * y / total;
    assert y / total * x == y * x / total;
  }

  /** The reserved hotkey gets its share on top, everybody keeps the rest in proportion, and a share outside
      (0, 1) or without a hotkey reserves nothing. */
  lemma ReservedExactly(w: Weights, hotkey: string, share: real, h: string)
    requires UnitVector(w)
    ensures var out := ApplyReserved(w, hotkey, share);
            if hotkey == "" || share <= 0.0 || share >= 1.0 then out == w
            else
              && (h in out <==> h in w || h == hotkey)
              && Get(out, h) == (if h in w then (1.0 - share) * w[h] else 0.0) + if h == hotkey then share else 0.0
  {
    hide UnitVector;
    ReservedIsUnit(w, hotkey, share);
    assert Kept(0.0, share) == 0.0;
  }
}
