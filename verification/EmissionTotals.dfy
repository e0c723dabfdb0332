/** Conservation: what every qualified track pays, and why the vector adds to one. */
module EmissionTotals {
  import opened Sums
  import opened Emission

  lemma Without(q: set<Track>, t: Track)
    ensures |q| == |q - {t}| + if t in q then 1 else 0
  {
    if t !in q {
      assert q - {t} == q;
    }
  }

  lemma NoOtherTrack(q: set<Track>)
    requires Repositories !in q && Packages !in q && McpServers !in q && Skills !in q
    ensures q == {}
  {
    forall t ensures t !in q {
      match t
      case Repositories =>
      case Packages =>
      case McpServers =>
      case Skills =>
    }
  }

  lemma CountTracks(q: set<Track>)
    ensures |q| == (if Repositories in q then 1 else 0) + (if Packages in q then 1 else 0)
                   + (if McpServers in q then 1 else 0) + (if Skills in q then 1 else 0)
  {
    var q1 := q - {Repositories};
    var q2 := q1 - {Packages};
    var q3 := q2 - {McpServers};
    Without(q, Repositories);
    Without(q1, Packages);
    Without(q2, McpServers);
    Without(q3, Skills);
    NoOtherTrack(q3 - {Skills});
  }

  function PayoutOrZero(q: set<Track>, t: Track): real
    requires q != {}
  {
    if t in q then Payout(q, t) else 0.0
  }

  /** The payouts of the qualified tracks are positive and total exactly one. */
  lemma PayoutsTotalOne(q: set<Track>)
    requires q != {}
    ensures forall t :: t in q ==> Payout(q, t) >= Share(t) > 0.0
    ensures PayoutOrZero(q, Repositories) + PayoutOrZero(q, Packages)
            + PayoutOrZero(q, McpServers) + PayoutOrZero(q, Skills) == 1.0
  {
    CountTracks(q);
    var n := |q| as real;
    var bonus := Idle(q) / n;
    assert n * bonus == Idle(q);
    assert Idle(q) >= 0.0 && bonus >= 0.0;
    assert forall t :: Payout(q, t) == Share(t) + bonus;
    assert n == 1.0 || n == 2.0 || n == 3.0 || n == 4.0;
  }

  lemma PartsOf(whole: real, n: nat)
    requires n > 0 && whole > 0.0
    ensures n as real * (whole / n as real) == whole
    ensures whole / n as real > 0.0
  {
    var m := n as real;
    assert m >= 1.0;
  }

  /** One part for each member of `e` uses up the whole. */
  ghost predicate CutInto(whole: real, e: set<string>, part: real) {
    |e| as real * part == whole
  }

  /** The parts are positive and use up the pool. */
  lemma PoolParts(e: set<string>)
    requires e != {}
    ensures PoolPart(e) > 0.0
    ensures CutInto(CONTRIBUTION_SHARE, e, PoolPart(e))
  {
    PartsOf(CONTRIBUTION_SHARE, |e|);
  }

  // ----- sound terms: every plan the allocator draws up satisfies them

  ghost predicate SoundLadder(l: Ladder) {
    0 < |l.prizes| <= |l.rows| && Falling(l.prizes)
  }

  ghost function PayoutOn(p: Plan, t: Track): real {
    if t in p.ladders then SumFrom(p.ladders[t].prizes, 0) else 0.0
  }

  ghost function PayoutTotal(p: Plan): real {
    PayoutOn(p, Repositories) + PayoutOn(p, Packages) + PayoutOn(p, McpServers) + PayoutOn(p, Skills)
  }

  ghost predicate SoundPlan(p: Plan) {
    && (forall t :: t in p.ladders ==> SoundLadder(p.ladders[t]))
    && (p.ladders != map[] ==> PayoutTotal(p) == 1.0)
    && (p.ladders == map[] ==> p.eligible == {})
    && (p.eligible != {} ==> p.part > 0.0 && CutInto(CONTRIBUTION_SHARE, p.eligible, p.part))
  }

  ghost predicate NoEmptyTrack(s: Standings) {
    forall t :: t in s ==> s[t] != []
  }

  lemma NobodyActive(s: Standings)
    requires s == map[]
    ensures Active(s) == {}
  {
  }

  lemma LadderIsSound(s: Standings, t: Track)
    requires t in s && s[t] != []
    ensures SoundLadder(LadderOf(s, t))
    ensures SumFrom(LadderOf(s, t).prizes, 0) == Payout(s.Keys, t)
  {
    assert Payout(s.Keys, t) > 0.0 by { PayoutsTotalOne(s.Keys); }
    PrizesShape(PaidPlaces(s[t]), Payout(s.Keys, t));
  }

  lemma PlanPayouts(s: Standings, contributors: set<string>)
    requires NoEmptyTrack(s) && s != map[]
    ensures PayoutTotal(PlanOf(s, contributors)) == 1.0
  {
    var p := PlanOf(s, contributors);
    assert s.Keys != {} by { var t :| t in s; assert t in s.Keys; }
    PayoutsTotalOne(s.Keys);
    forall t ensures PayoutOn(p, t) == PayoutOrZero(s.Keys, t) {
      assert t in p.ladders <==> t in s;
      if t in s { LadderIsSound(s, t); }
    }
  }

  /** What the allocator draws up: the payouts are the shares plus an equal part of the idle
      shares, they total one, and the pool is cut into equal parts. */
  lemma PlansAreSound(s: Standings, contributors: set<string>)
    requires NoEmptyTrack(s)
    ensures SoundPlan(PlanOf(s, contributors))
    ensures PlanOf(s, contributors).ladders.Keys == s.Keys
  {
    var p := PlanOf(s, contributors);
    forall t | t in p.ladders ensures SoundLadder(p.ladders[t]) {
      LadderIsSound(s, t);
    }
    if s == map[] {
      NobodyActive(s);
    } else {
      PlanPayouts(s, contributors);
    }
    if p.eligible != {} {
      PoolParts(p.eligible);
    }
  }

  // ----- sums over hotkeys

  ghost function Pays(u: set<string>, rows: seq<Row>, place: nat, prizes: seq<real>): Weights {
    map h | h in u :: Pay(rows, place, prizes, h)
  }

  /** Over any set containing the ranked hotkeys, the prizes are handed out exactly. */
  lemma {:induction false} PaysTotal(u: set<string>, rows: seq<Row>, place: nat, prizes: seq<real>)
    requires Hotkeys(rows) <= u
    requires place + |rows| == |prizes|
    ensures MapSum(Pays(u, rows, place, prizes)) == SumFrom(prizes, place)
    decreases |rows|
  {
    var m := Pays(u, rows, place, prizes);
    if rows == [] {
      SumZero(m);
    } else {
      var h := rows[0].hotkey;
      var zeros: Weights := map j | j in u :: 0.0;
      var first := zeros[h := prizes[place]];
      var rest := Pays(u, rows[1..], place + 1, prizes);
      assert rows[0] in rows;
      assert Hotkeys(rows[1..]) <= u by {
        forall r | r in rows[1..] ensures r.hotkey in u { assert r in rows; }
      }
      SumZero(zeros);
      SumUpdate(zeros, h, prizes[place]);
      assert first.Keys == u;
      SumAdd(m, first, rest);
      PaysTotal(u, rows[1..], place + 1, prizes);
    }
  }

  ghost function TrackIncome(u: set<string>, p: Plan, t: Track): Weights {
    map h | h in u :: FromTrack(p, t, h)
  }

  /** A qualified track hands out its whole payout, no more and no less. */
  lemma TrackConservation(u: set<string>, p: Plan, t: Track)
    requires SoundPlan(p)
    requires WinnersOn(p, t) <= u
    ensures MapSum(TrackIncome(u, p, t)) == PayoutOn(p, t)
  {
    if t in p.ladders {
      var l := p.ladders[t];
      var top := l.rows[..|l.prizes|];
      forall h | h in u ensures FromTrack(p, t, h) == Pay(top, 0, l.prizes, h) {
        TopPays(l.rows, l.prizes, h);
      }
      assert TrackIncome(u, p, t) == Pays(u, top, 0, l.prizes);
      PaysTotal(u, top, 0, l.prizes);
    } else {
      SumZero(TrackIncome(u, p, t));
    }
  }

  ghost function Incomes(u: set<string>, p: Plan): Weights {
    map h | h in u :: Performance(p, h)
  }

  lemma PerformanceConservation(u: set<string>, p: Plan)
    requires SoundPlan(p) && p.ladders != map[]
    requires Winners(p) <= u
    ensures MapSum(Incomes(u, p)) == 1.0
  {
    var r, k := TrackIncome(u, p, Repositories), TrackIncome(u, p, Packages);
    var m, s := TrackIncome(u, p, McpServers), TrackIncome(u, p, Skills);
    var rk: Weights := map h | h in u :: r[h] + k[h];
    var ms: Weights := map h | h in u :: m[h] + s[h];
    SumAdd(rk, r, k);
    SumAdd(ms, m, s);
    forall h | h in u ensures Incomes(u, p)[h] == rk[h] + ms[h] {
      assert Performance(p, h) == r[h] + k[h] + (m[h] + s[h]);
    }
    SumAdd(Incomes(u, p), rk, ms);
    TrackConservation(u, p, Repositories);
    TrackConservation(u, p, Packages);
    TrackConservation(u, p, McpServers);
    TrackConservation(u, p, Skills);
  }

  lemma FromTrackSigns(p: Plan, t: Track, h: string)
    requires SoundPlan(p)
    ensures FromTrack(p, t, h) >= 0.0
    ensures FromTrack(p, t, h) > 0.0 <==> h in WinnersOn(p, t)
  {
    if t in p.ladders {
      var l := p.ladders[t];
      TopPays(l.rows, l.prizes, h);
      PayBounds(l.rows[..|l.prizes|], 0, l.prizes, h);
    }
  }

  lemma PerformanceSigns(p: Plan, h: string)
    requires SoundPlan(p)
    ensures Performance(p, h) >= 0.0
    ensures Performance(p, h) > 0.0 <==> h in Winners(p)
  {
    FromTrackSigns(p, Repositories, h);
    FromTrackSigns(p, Packages, h);
    FromTrackSigns(p, McpServers, h);
    FromTrackSigns(p, Skills, h);
  }

  ghost function Debts(u: set<string>, p: Plan): Weights {
    map h | h in u :: Owed(p, h)
  }

  ghost function Pool(u: set<string>, e: set<string>, per: real): Weights {
    map h | h in u :: if h in e then per else 0.0
  }

  /** `n` equal parts of `per` add up to `n * per`. */
  lemma {:induction false} EqualParts(u: set<string>, e: set<string>, per: real)
    requires e <= u
    ensures MapSum(Pool(u, e, per)) == |e| as real * per
    decreases e
  {
    var m := Pool(u, e, per);
    if e == {} {
      SumZero(m);
    } else {
      var x :| x in e;
      var e' := e - {x};
      var m' := Pool(u, e', per);
      EqualParts(u, e', per);
      SumUpdate(m', x, per);
      assert m == m'[x := per];
      assert |e| as real * per == |e'| as real * per + per;
    }
  }

  /** Income that totals one, pooled at 95%, plus the contribution parts. */
  lemma PoolSum(incomes: Weights, eligible: set<string>, part: real, weights: Weights)
    requires MapSum(incomes) == 1.0
    requires weights.Keys == incomes.Keys && eligible <= weights.Keys
    requires forall h :: h in weights ==>
               weights[h] == PerformancePart(incomes[h]) + if h in eligible then part else 0.0
    requires eligible != {} ==> CutInto(CONTRIBUTION_SHARE, eligible, part)
    ensures MapSum(weights) == PerformancePart(1.0) + if eligible == {} then 0.0 else CONTRIBUTION_SHARE
  {
    var pooled: Weights := map h | h in incomes :: PerformancePart(incomes[h]);
    forall h | h in incomes ensures Scaled(pooled[h], 0.95, incomes[h]) {}
    SumScale(pooled, 0.95, incomes);
    var pool := Pool(weights.Keys, eligible, part);
    if eligible == {} {
      SumZero(pool);
    } else {
      PoolTotal(weights.Keys, eligible, part);
    }
    SumAdd(weights, pooled, pool);
  }

  lemma PoolTotal(u: set<string>, e: set<string>, part: real)
    requires e <= u
    requires CutInto(CONTRIBUTION_SHARE, e, part)
    ensures MapSum(Pool(u, e, part)) == CONTRIBUTION_SHARE
  {
    EqualParts(u, e, part);
  }

  lemma OwedSum(incomes: Weights, eligible: set<string>, part: real, owed: Weights)
    requires MapSum(incomes) == 1.0
    requires owed.Keys == incomes.Keys && eligible <= owed.Keys
    requires forall h :: h in owed ==> owed[h] == OwedFrom(incomes[h], eligible, part, h)
    requires eligible != {} ==> CutInto(CONTRIBUTION_SHARE, eligible, part)
    ensures MapSum(owed) == 1.0
  {
    if eligible == {} {
      assert owed == incomes;
    } else {
      PoolSum(incomes, eligible, part, owed);
    }
  }

  /** Over any set of hotkeys containing the paid ones, what is owed totals exactly one. */
  lemma OwedTotal(u: set<string>, p: Plan)
    requires SoundPlan(p) && p.ladders != map[]
    requires Winners(p) <= u && p.eligible <= u
    ensures MapSum(Debts(u, p)) == 1.0
  {
    PerformanceConservation(u, p);
    OwedSum(Incomes(u, p), p.eligible, p.part, Debts(u, p));
  }

  lemma OwedSigns(p: Plan, h: string)
    requires SoundPlan(p)
    ensures Owed(p, h) >= 0.0
    ensures Owed(p, h) > 0.0 <==> h in Winners(p) + p.eligible
  {
    PerformanceSigns(p, h);
  }

  lemma NobodyPaid(p: Plan)
    requires p.ladders == map[] && p.eligible == {}
    ensures Allocation(p) == map[]
  {
  }

  lemma AllocationConserves(p: Plan)
    requires SoundPlan(p)
    ensures p.ladders != map[] ==> MapSum(Allocation(p)) == 1.0
    ensures p.ladders == map[] ==> Allocation(p) == map[]
    ensures forall h :: h in Allocation(p) ==> Allocation(p)[h] > 0.0
  {
    if p.ladders == map[] {
      NobodyPaid(p);
    } else {
      var u := Winners(p) + p.eligible;
      OwedTotal(u, p);
      assert Allocation(p) == Debts(u, p);
    }
    forall h | h in Allocation(p) ensures Allocation(p)[h] > 0.0 {
      OwedSigns(p, h);
    }
  }

  // ----- the emitted vector

  lemma EveryTrackListed(t: Track)
    ensures t in TRACKS
  {
    match t
    case Repositories => assert TRACKS[0] == t;
    case Packages => assert TRACKS[1] == t;
    case McpServers => assert TRACKS[2] == t;
    case Skills => assert TRACKS[3] == t;
  }

  lemma InStandings(b: Ballot, t: Track)
    ensures t in StandingsOf(b) <==> Ranking(b, t) != []
    ensures t in StandingsOf(b) ==> StandingsOf(b)[t] == Ranking(b, t)
    ensures HotkeysOn(StandingsOf(b), t) == Hotkeys(Ranking(b, t))
  {
    EveryTrackListed(t);
  }

  lemma StandingsAreSound(b: Ballot)
    ensures NoEmptyTrack(StandingsOf(b))
  {
  }

  /** Exact conservation: the vector is empty when nobody qualifies, and otherwise every
      entry is positive and they sum to one. */
  lemma EmissionConserves(b: Ballot)
    ensures StandingsOf(b) == map[] ==> EmissionWeights(b) == map[]
    ensures StandingsOf(b) != map[] ==> UnitVector(EmissionWeights(b))
    ensures forall h :: h in EmissionWeights(b) ==> EmissionWeights(b)[h] > 0.0
  {
    var p := PlanOf(StandingsOf(b), b.contributors);
    StandingsAreSound(b);
    PlansAreSound(StandingsOf(b), b.contributors);
    AllocationConserves(p);
    if StandingsOf(b) == map[] {
      assert p.ladders == map[];
    } else {
      assert p.ladders != map[] by { var t :| t in StandingsOf(b); assert t in p.ladders; }
    }
  }

  /** Before pooling, a qualified track's hotkeys share exactly its own share plus an equal
      part of the idle shares, and over the tracks this comes to one. */
  lemma TrackPayouts(b: Ballot, t: Track)
    requires t in StandingsOf(b)
    ensures var s := StandingsOf(b);
            var p := PlanOf(s, b.contributors);
            && MapSum(TrackIncome(Winners(p), p, t)) == Share(t) + Idle(s.Keys) / |s.Keys| as real
            && MapSum(Incomes(Winners(p), p)) == 1.0
  {
    var s := StandingsOf(b);
    var p := PlanOf(s, b.contributors);
    StandingsAreSound(b);
    PlansAreSound(s, b.contributors);
    assert t in p.ladders;
    LadderIsSound(s, t);
    TrackConservation(Winners(p), p, t);
    PerformanceConservation(Winners(p), p);
  }
}
