/** `compute_emission_weights` with its dictionaries updated entry by entry in loops, proved to reach
    the closed form. */
module EmissionAlgorithm {
  import opened Sums
  import opened Emission
  import opened EmissionTotals

  // ----- the first i tracks, for the loop invariants

  function HotkeysUpTo(s: Standings, i: nat): set<string>
    requires i <= |TRACKS|
  {
    if i == 0 then {} else HotkeysUpTo(s, i - 1) + HotkeysOn(s, TRACKS[i - 1])
  }

  function WinnersUpTo(p: Plan, i: nat): set<string>
    requires i <= |TRACKS|
  {
    if i == 0 then {} else WinnersUpTo(p, i - 1) + WinnersOn(p, TRACKS[i - 1])
  }

  ghost function IncomeUpTo(p: Plan, i: nat, h: string): real
    requires i <= |TRACKS|
  {
    if i == 0 then 0.0 else IncomeUpTo(p, i - 1, h) + FromTrack(p, TRACKS[i - 1], h)
  }

  lemma AllHotkeys(s: Standings)
    ensures HotkeysUpTo(s, 4) == Active(s)
  {
    assert HotkeysUpTo(s, 1) == HotkeysUpTo(s, 0) + HotkeysOn(s, Repositories);
    assert HotkeysUpTo(s, 2) == HotkeysUpTo(s, 1) + HotkeysOn(s, Packages);
    assert HotkeysUpTo(s, 3) == HotkeysUpTo(s, 2) + HotkeysOn(s, McpServers);
  }

  lemma AllWinners(p: Plan)
    ensures WinnersUpTo(p, 4) == Winners(p)
  {
    assert WinnersUpTo(p, 1) == WinnersUpTo(p, 0) + WinnersOn(p, Repositories);
    assert WinnersUpTo(p, 2) == WinnersUpTo(p, 1) + WinnersOn(p, Packages);
    assert WinnersUpTo(p, 3) == WinnersUpTo(p, 2) + WinnersOn(p, McpServers);
  }

  lemma AllIncome(p: Plan, h: string)
    ensures IncomeUpTo(p, 4, h) == Performance(p, h)
  {
    assert IncomeUpTo(p, 1, h) == IncomeUpTo(p, 0, h) + FromTrack(p, Repositories, h);
    assert IncomeUpTo(p, 2, h) == IncomeUpTo(p, 1, h) + FromTrack(p, Packages, h);
    assert IncomeUpTo(p, 3, h) == IncomeUpTo(p, 2, h) + FromTrack(p, McpServers, h);
  }

  // ----- the loops

  method Qualify(b: Ballot) returns (qualified: map<Track, seq<Row>>, active: set<string>)
    ensures qualified.Keys == StandingsOf(b).Keys
    ensures forall t :: t in qualified ==> qualified[t] == Top(StandingsOf(b)[t])
    ensures active == Active(StandingsOf(b))
  {
    ghost var s := StandingsOf(b);
    qualified, active := map[], {};
    for i := 0 to |TRACKS|
      invariant forall t :: t in qualified <==> t in TRACKS[..i] && t in s
      invariant forall t :: t in qualified ==> qualified[t] == Top(s[t])
      invariant active == HotkeysUpTo(s, i)
    {
      var track := TRACKS[i];
      assert TRACKS[..i + 1] == TRACKS[..i] + [track];
      InStandings(b, track);
      var positive := Ranking(b, track);
      if positive != [] {
        active := active + Hotkeys(positive);
        qualified := qualified[track := Top(positive)];
      }
    }
    assert TRACKS[..|TRACKS|] == TRACKS;
    forall t ensures t in TRACKS { EveryTrackListed(t); }
    AllHotkeys(s);
  }

  function Top(rows: seq<Row>): seq<Row> {
    rows[..PaidPlaces(rows)]
  }

  lemma PayOneMore(rows: seq<Row>, r: Row, prizes: seq<real>, h: string)
    ensures Pay(rows + [r], 0, prizes, h)
            == Pay(rows, 0, prizes, h) + if r.hotkey == h then PrizeAt(prizes, |rows|) else 0.0
  {
    PayAppend(rows, [r], 0, prizes, h);
    assert [r][1..] == [];
  }

  /** Pays the places of one track into the running dictionary. */
  method PayTrack(weights: Weights, top: seq<Row>, prizes: seq<real>) returns (paid: Weights)
    requires |top| == |prizes|
    ensures paid.Keys == weights.Keys + Hotkeys(top)
    ensures forall h :: Get(paid, h) == Get(weights, h) + Pay(top, 0, prizes, h)
  {
    paid := weights;
    assert top[..0] == [];
    for i := 0 to |top|
      invariant paid.Keys == weights.Keys + Hotkeys(top[..i])
      invariant forall h :: Get(paid, h) == Get(weights, h) + Pay(top[..i], 0, prizes, h)
    {
      var hotkey := top[i].hotkey;
      paid := paid[hotkey := Get(paid, hotkey) + prizes[i]];
      assert top[..i + 1] == top[..i] + [top[i]];
      forall h ensures Get(paid, h) == Get(weights, h) + Pay(top[..i + 1], 0, prizes, h) {
        PayOneMore(top[..i], top[i], prizes, h);
      }
    }
    assert top[..|top|] == top;
  }

  /** `qualified` holds the paid rows of the plan's tracks. */
  ghost predicate HoldsTops(qualified: map<Track, seq<Row>>, shares: map<Track, real>, p: Plan) {
    && qualified.Keys == shares.Keys == p.ladders.Keys
    && forall t :: t in qualified ==> IsTop(qualified[t], shares[t], p.ladders[t])
  }

  ghost predicate IsTop(top: seq<Row>, payout: real, l: Ladder) {
    && |top| <= TOP_K && l.prizes == Prizes(|top|, payout) && |l.prizes| <= |l.rows|
    && top == l.rows[..|l.prizes|]
  }

  method PayTracks(qualified: map<Track, seq<Row>>, shares: map<Track, real>, ghost p: Plan) returns (weights: Weights)
    requires SoundPlan(p)
    requires HoldsTops(qualified, shares, p)
    ensures weights.Keys == Winners(p)
    ensures forall h :: Get(weights, h) == Performance(p, h)
  {
    hide Pay, Prizes, Payout, Performance;
    weights := map[];
    for i := 0 to |TRACKS|
      invariant weights.Keys == WinnersUpTo(p, i)
      invariant forall h :: Get(weights, h) == IncomeUpTo(p, i, h)
    {
      var track := TRACKS[i];
      if track in qualified {
        ghost var l := p.ladders[track];
        ghost var before := weights;
        weights := PayTrack(weights, qualified[track], Prizes(|qualified[track]|, shares[track]));
        forall h ensures Get(weights, h) == IncomeUpTo(p, i + 1, h) {
          assert Get(before, h) == IncomeUpTo(p, i, h);
          TopPays(l.rows, l.prizes, h);
        }
      }
    }
    AllWinners(p);
    forall h ensures IncomeUpTo(p, 4, h) == Performance(p, h) { AllIncome(p, h); }
  }

  /** The in-place rescaling of every entry to the performance pool. */
  method Rescale(weights: Weights, total: real) returns (scaled: Weights)
    requires total != 0.0
    ensures scaled.Keys == weights.Keys
    ensures forall h :: h in scaled ==> scaled[h] == PerformancePart(weights[h] / total)
  {
    scaled := weights;
    var rest := weights.Keys;
    while rest != {}
      invariant rest <= weights.Keys == scaled.Keys
      invariant forall h :: h in rest ==> scaled[h] == weights[h]
      invariant forall h :: h in scaled && h !in rest ==> scaled[h] == PerformancePart(weights[h] / total)
      decreases rest
    {
      var h :| h in rest;
      scaled := scaled[h := PerformancePart(scaled[h] / total)];
      rest := rest - {h};
    }
  }

  method PayContributors(weights: Weights, eligible: set<string>, per: real) returns (paid: Weights)
    ensures paid.Keys == weights.Keys + eligible
    ensures forall h :: h in paid ==> paid[h] == Get(weights, h) + if h in eligible then per else 0.0
  {
    paid := weights;
    var rest := eligible;
    while rest != {}
      invariant rest <= eligible
      invariant paid.Keys == weights.Keys + (eligible - rest)
      invariant forall h :: h in paid ==>
                  paid[h] == Get(weights, h) + if h in eligible - rest then per else 0.0
      decreases rest
    {
      var h :| h in rest;
      assert h in eligible;
      paid := paid[h := Get(paid, h) + per];
      rest := rest - {h};
    }
    assert eligible - rest == eligible;
  }

  /** Both normalisations and the contribution pool, over any performance dictionary. */
  method PoolShares(performance: Weights, eligible: set<string>, per: real) returns (weights: Weights)
    requires MapSum(performance) == 1.0 || (performance == map[] && eligible == {})
    requires eligible != {} ==> CutInto(CONTRIBUTION_SHARE, eligible, per)
    ensures weights.Keys == performance.Keys + eligible
    ensures forall h :: h in weights ==> weights[h] == OwedFrom(Get(performance, h), eligible, per, h)
  {
    weights := performance;
    var sum := Total(weights);
    if sum > 0.0 {
      weights := Rescale(weights, sum);
    }
    weights := PayContributors(weights, eligible, per);
    var total := Total(weights);
    if MapSum(performance) == 1.0 {
      PooledSum(performance, eligible, per, weights);
    }
    if total > 0.0 {
      weights := map h | h in weights :: weights[h] / total;
    }
  }

  lemma PooledSum(performance: Weights, eligible: set<string>, per: real, weights: Weights)
    requires MapSum(performance) == 1.0
    requires eligible != {} ==> CutInto(CONTRIBUTION_SHARE, eligible, per)
    requires weights.Keys == performance.Keys + eligible
    requires forall h :: h in weights ==>
               weights[h] == PerformancePart(Get(performance, h)) + if h in eligible then per else 0.0
    ensures MapSum(weights) == if eligible == {} then PerformancePart(1.0) else 1.0
  {
    var padded: Weights := map h | h in weights.Keys :: Get(performance, h);
    SumPad(performance, weights.Keys);
    PoolSum(padded, eligible, per, weights);
  }

  /** The allocator: three phases over dictionaries, reaching exactly what every hotkey is owed. */
  method ComputeEmissionWeights(b: Ballot) returns (weights: Weights)
    ensures weights == EmissionWeights(b)
  {
    ghost var s := StandingsOf(b);
    ghost var p := PlanOf(s, b.contributors);
    StandingsAreSound(b);
    PlansAreSound(s, b.contributors);
    var qualified, active := Qualify(b);
    var shares := map t | t in qualified :: Payout(qualified.Keys, t);
    assert HoldsTops(qualified, shares, p) by {
      forall t | t in qualified ensures IsTop(qualified[t], shares[t], p.ladders[t]) {
        TopOf(s, t, b.contributors);
      }
    }
    var performance := PayTracks(qualified, shares, p);
    PerformanceSum(p, performance);
    var eligible := active * b.contributors;
    weights := PoolShares(performance, eligible, PoolPart(eligible));
    AllocationFrom(p, performance, weights);
  }

  lemma AllocationFrom(p: Plan, performance: Weights, weights: Weights)
    requires performance.Keys == Winners(p)
    requires forall h :: Get(performance, h) == Performance(p, h)
    requires weights.Keys == performance.Keys + p.eligible
    requires forall h :: h in weights ==> weights[h] == OwedFrom(Get(performance, h), p.eligible, p.part, h)
    ensures weights == Allocation(p)
  {
    forall h | h in weights ensures weights[h] == Owed(p, h) {
      assert Get(performance, h) == Performance(p, h);
    }
  }

  lemma TopOf(s: Standings, t: Track, contributors: set<string>)
    requires t in s
    ensures IsTop(Top(s[t]), Payout(s.Keys, t), PlanOf(s, contributors).ladders[t])
  {
  }

  lemma PerformanceSum(p: Plan, performance: Weights)
    requires SoundPlan(p)
    requires performance.Keys == Winners(p)
    requires forall h :: Get(performance, h) == Performance(p, h)
    ensures p.ladders == map[] ==> performance == map[]
    ensures p.ladders != map[] ==> MapSum(performance) == 1.0
  {
    if p.ladders != map[] {
      assert performance == Incomes(Winners(p), p) by {
        assert forall h :: h in performance ==> performance[h] == Get(performance, h);
      }
      PerformanceConservation(Winners(p), p);
    }
  }
}
