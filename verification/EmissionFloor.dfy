/** How small an emitted weight can be: a paid place is never near the dust that smoothing drops, and
    a contributor is only where ten million others share the pool. */
module EmissionFloor {
  import opened Sums
  import opened Emission
  import opened EmissionTotals
  import opened EmissionIncentives
  import opened Smoothing
  import opened SmoothedIncentives

  ghost predicate AtLeast(prizes: seq<real>, floor: real) {
    forall i :: 0 <= i < |prizes| ==> prizes[i] >= floor
  }

  lemma {:induction false} PayFloor(rows: seq<Row>, place: nat, prizes: seq<real>, floor: real, h: string)
    requires Positive(prizes) && AtLeast(prizes, floor)
    requires h in Hotkeys(rows) && place + |rows| <= |prizes|
    ensures Pay(rows, place, prizes, h) >= floor
  {
    assert rows == [rows[0]] + rows[1..];
    assert Hotkeys(rows) == {rows[0].hotkey} + Hotkeys(rows[1..]);
    PayBounds(rows[1..], place + 1, prizes, h);
    if rows[0].hotkey != h {
      PayFloor(rows[1..], place + 1, prizes, floor, h);
    }
  }

  lemma LowestRate(k: nat)
    requires 0 < k <= TOP_K
    ensures AtLeast(Rates(k), 0.08)
  {
    RatesValues();
    assert k == 1 || k == 2 || k == 3 || k == 4 || k == 5;
  }

  lemma LowestPrize(k: nat, payout: real)
    requires 0 < k <= TOP_K && payout >= 0.225
    ensures AtLeast(Prizes(k, payout), 0.018)
  {
    LowestRate(k);
    forall i | 0 <= i < k ensures Prizes(k, payout)[i] >= 0.018 {
      PrizeFloor(k, payout, i, Rates(k)[i]);
    }
  }

  lemma PrizeFloor(k: nat, payout: real, i: nat, rate: real)
    requires i < k <= TOP_K && payout >= 0.225
    requires rate == Rates(k)[i] && rate >= 0.08
    ensures Prizes(k, payout)[i] >= 0.018
  {
    assert Prizes(k, payout)[i] == payout * rate;
    hide Prizes, Rates;
    assert payout * rate >= 0.225 * rate;
  }

  /** Every hotkey in a paid place has a performance income of at least 0.018. */
  lemma WinnersFloor(b: Ballot, h: string)
    requires h in Winners(PlanOf(StandingsOf(b), b.contributors))
    ensures Performance(PlanOf(StandingsOf(b), b.contributors), h) >= 0.018
  {
    var s := StandingsOf(b);
    var p := PlanOf(s, b.contributors);
    SoundPlanOf(b);
    FromTrackSigns(p, Repositories, h);
    FromTrackSigns(p, Packages, h);
    FromTrackSigns(p, McpServers, h);
    FromTrackSigns(p, Skills, h);
    forall t | h in WinnersOn(p, t) ensures FromTrack(p, t, h) >= 0.018 {
      TrackFloor(b, t, h);
    }
  }

  lemma TrackFloor(b: Ballot, t: Track, h: string)
    requires h in WinnersOn(PlanOf(StandingsOf(b), b.contributors), t)
    ensures FromTrack(PlanOf(StandingsOf(b), b.contributors), t, h) >= 0.018
  {
    var s := StandingsOf(b);
    var p := PlanOf(s, b.contributors);
    SoundPlanOf(b);
    PayoutsTotalOne(s.Keys);
    var l := p.ladders[t];
    LowestPrize(PaidPlaces(s[t]), Payout(s.Keys, t));
    TopPays(l.rows, l.prizes, h);
    PayFloor(l.rows[..|l.prizes|], 0, l.prizes, 0.018, h);
  }

  /** An emitted weight is at least 0.0171, or at least one part of the contribution pool. */
  lemma SmallestWeight(b: Ballot, h: string)
    requires h in EmissionWeights(b)
    ensures var eligible := Active(StandingsOf(b)) * b.contributors;
            || EmissionWeights(b)[h] >= 0.0171
            || (h in eligible && EmissionWeights(b)[h] >= 0.05 / |eligible| as real)
    ensures h in Winners(PlanOf(StandingsOf(b), b.contributors)) ==> EmissionWeights(b)[h] >= 0.0171
  {
    hide StandingsOf, Active, Performance;
    var p := PlanOf(StandingsOf(b), b.contributors);
    ContributorShare(b, h);
    SoundPlanOf(b);
    PerformanceSigns(p, h);
    if h in Winners(p) {
      WinnersFloor(b, h);
      if p.eligible != {} {
        PartFloor(|p.eligible|);
      }
    }
  }

  lemma PartFloor(n: nat)
    requires n > 0
    ensures 0.05 / n as real >= 0.0
    ensures n <= 10_000_000 ==> 0.05 / n as real >= 0.000000005
  {
    CrossQuotients(0.0, 1.0, 0.05, n as real);
    CrossQuotients(0.05, 10000000.0, 0.05, n as real);
  }

  /** With at most ten million eligible contributors no emitted weight is dust to the average. */
  lemma NoDustUnlessCrowded(b: Ballot)
    requires |Active(StandingsOf(b)) * b.contributors| <= 10_000_000
    ensures NoDust(EmissionWeights(b))
  {
    hide EmissionWeights, StandingsOf, Active;
    var eligible := Active(StandingsOf(b)) * b.contributors;
    forall h | h in EmissionWeights(b) ensures Mixed(EmissionWeights(b)[h], 0.0) > DUST {
      SmallestWeight(b, h);
      if h in eligible {
        PartFloor(|eligible|);
      }
    }
  }

  /** Where anybody is paid, dust never empties the average. */
  lemma AverageIsNotEmpty(prior: Weights, b: Ballot)
    requires NonNegative(prior)
    requires EmissionWeights(b) != map[]
    ensures Blend(prior, EmissionWeights(b)) != map[]
  {
    var s := StandingsOf(b);
    var p := PlanOf(s, b.contributors);
    EmissionConserves(b);
    SoundPlanOf(b);
    var t :| t in p.ladders;
    var l := p.ladders[t];
    var h := l.rows[..|l.prizes|][0].hotkey;
    assert h in Hotkeys(l.rows[..|l.prizes|]);
    assert h in WinnersOn(p, t);
    FromTrackInWinners(p, t, h);
    hide StandingsOf, PlanOf;
    SmallestWeight(b, h);
    hide EmissionWeights;
    KeptEntry(prior, EmissionWeights(b), h);
  }

  lemma FromTrackInWinners(p: Plan, t: Track, h: string)
    requires h in WinnersOn(p, t)
    ensures h in Winners(p)
  {
    EveryTrackListed(t);
  }

  lemma KeptEntry(prior: Weights, w: Weights, h: string)
    requires NonNegative(prior) && h in w && w[h] >= 0.0171
    ensures h in Blend(prior, w)
  {
    assert Get(prior, h) >= 0.0;
  }
}
