/** The case in which a raise does profit others: the sixth of a track overtakes the fifth, who leaves
    the average and gives its carried weight to everybody left. */
module SixthPlace {
  import opened ChainIncentives
  import opened Emission
  import opened EmissionFloor
  import opened EmissionIncentives
  import opened EmissionTotals
  import opened Options
  import opened SmoothedIncentives
  import opened Smoothing
  import opened Sorting
  import opened Sums
  import opened ValidatorState

  predicate NoRepeats(keys: seq<string>) {
    forall i, j :: 0 <= i < j < |keys| ==> keys[i] != keys[j]
  }

  /** The scores of six hotkeys, from 0.9 down to 0.4. */
  function SixRows(k: seq<string>): seq<Row>
    requires |k| == 6
  {
    [Row(k[0], 0.9), Row(k[1], 0.8), Row(k[2], 0.7), Row(k[3], 0.6), Row(k[4], 0.5), Row(k[5], 0.4)]
  }

  /** The ranking after the sixth was raised to 0.55. */
  function Overtaken(k: seq<string>): seq<Row>
    requires |k| == 6
  {
    [Row(k[0], 0.9), Row(k[1], 0.8), Row(k[2], 0.7), Row(k[3], 0.6), Row(k[5], 0.55), Row(k[4], 0.5)]
  }

  function Latest(k: seq<string>): Scores
    requires |k| == 6
  {
    map[Skills := SixRows(k)]
  }

  // ----- the ranking

  predicate Decreasing(s: seq<Row>) {
    forall i, j :: 0 <= i < j < |s| ==> s[i].score > s[j].score
  }

  lemma RankedAs(rows: seq<Row>, ranked: seq<Row>, digest: string -> int, salt: string)
    requires multiset(rows) == multiset(ranked) && Decreasing(ranked)
    ensures Sort(rows, RowOrder(digest, salt)) == ranked
  {
    var le := RowOrder(digest, salt);
    RowOrderTotal(digest, salt);
    SortSorted(rows, le);
    SortKeeps(rows, le);
    assert Discerns(le, ranked) by {
      forall a, b | a in ranked && b in ranked && le(a, b) && le(b, a) ensures a == b {
        var i :| 0 <= i < |ranked| && ranked[i] == a;
        var j :| 0 <= j < |ranked| && ranked[j] == b;
        assert i == j;
      }
    }
    SortedUnique(ranked, Sort(rows, le), le);
  }

  lemma {:induction false} AllPass(ranked: seq<Row>, cut: real)
    requires forall i :: 0 <= i < |ranked| ==> Passes(ranked[i], cut)
    ensures Passing(ranked, cut) == ranked
  {
    if ranked != [] {
      AllPass(ranked[1..], cut);
      assert ranked == [ranked[0]] + ranked[1..];
    }
  }

  /** A ballot with six passing agents on one track and no contributors. */
  ghost predicate OneTrack(b: Ballot, rows: seq<Row>, ranked: seq<Row>) {
    && b.scores == map[Skills := rows] && b.contributors == {} && CutOf(b, Skills) == 0.20
    && multiset(rows) == multiset(ranked) && Decreasing(ranked) && |ranked| == 6
    && forall i :: 0 <= i < 6 ==> ranked[i].score >= 0.20
  }

  lemma SkillsRanking(b: Ballot, rows: seq<Row>, ranked: seq<Row>)
    requires OneTrack(b, rows, ranked)
    ensures Ranking(b, Skills) == ranked
  {
    hide CutOf, SaltOf, RowOrder, Sort, Passing;
    RankedAs(rows, ranked, b.digest, SaltOf(b, Skills));
    AllPass(ranked, 0.20);
  }

  lemma NoOtherRanking(b: Ballot, t: Track)
    requires t !in b.scores
    ensures Ranking(b, t) == []
  {
    assert RowsOf(b, t) == [];
  }

  lemma OnlyStanding(b: Ballot, rows: seq<Row>, ranked: seq<Row>)
    requires OneTrack(b, rows, ranked)
    ensures StandingsOf(b) == map[Skills := ranked]
  {
    hide Ranking, CutOf, Decreasing;
    SkillsRanking(b, rows, ranked);
    InStandings(b, Skills);
    forall t | t != Skills ensures t !in StandingsOf(b) {
      NoOtherRanking(b, t);
      InStandings(b, t);
    }
  }

  // ----- what the six are paid

  /** With distinct hotkeys each place pays its own hotkey and nobody else. */
  lemma {:induction false} PlacePays(rows: seq<Row>, place: nat, prizes: seq<real>, i: nat)
    requires i < |rows|
    requires forall x, y :: 0 <= x < y < |rows| ==> rows[x].hotkey != rows[y].hotkey
    requires Positive(prizes)
    ensures Pay(rows, place, prizes, rows[i].hotkey) == PrizeAt(prizes, place + i)
  {
    if i == 0 {
      PayBounds(rows[1..], place + 1, prizes, rows[0].hotkey);
      assert rows[0].hotkey !in Hotkeys(rows[1..]);
    } else {
      PlacePays(rows[1..], place + 1, prizes, i - 1);
    }
  }

  lemma SoleTrackPrizes()
    ensures Payout({Skills}, Skills) == 1.0
    ensures Prizes(5, 1.0) == [0.40, 0.25, 0.15, 0.12, 0.08]
  {
    RatesValues();
  }

  lemma SoleLadder(s: Standings, ranked: seq<Row>, h: string)
    requires |ranked| == 6 && s == map[Skills := ranked]
    ensures Performance(PlanOf(s, {}), h) == Pay(ranked, 0, [0.40, 0.25, 0.15, 0.12, 0.08], h)
  {
    hide Pay, Prizes, Payout;
    assert s.Keys == {Skills};
    SoleTrackPrizes();
    assert LadderOf(s, Skills) == Ladder(ranked, [0.40, 0.25, 0.15, 0.12, 0.08]);
    assert PlanOf(s, {}).ladders == map[Skills := LadderOf(s, Skills)];
  }

  /** Six ranked hotkeys on the only qualified track get the five fractions of the split. */
  lemma SixIncomes(b: Ballot, rows: seq<Row>, ranked: seq<Row>, i: nat)
    requires OneTrack(b, rows, ranked) && i < 6
    requires forall x, y :: 0 <= x < y < 6 ==> ranked[x].hotkey != ranked[y].hotkey
    ensures Get(EmissionWeights(b), ranked[i].hotkey) == PrizeAt([0.40, 0.25, 0.15, 0.12, 0.08], i)
  {
    hide EmissionWeights, StandingsOf, Active, Decreasing, CutOf, PlanOf;
    var h := ranked[i].hotkey;
    OnlyStanding(b, rows, ranked);
    ContributorShare(b, h);
    assert Active(StandingsOf(b)) * b.contributors == {};
    SoleLadder(StandingsOf(b), ranked, h);
    PlacePays(ranked, 0, [0.40, 0.25, 0.15, 0.12, 0.08], i);
  }

  /** Nobody else is paid. */
  lemma OnlySixPaid(b: Ballot, rows: seq<Row>, ranked: seq<Row>, h: string)
    requires OneTrack(b, rows, ranked)
    requires h !in Hotkeys(ranked)
    ensures h !in EmissionWeights(b)
  {
    hide EmissionWeights, StandingsOf, Active, Decreasing, CutOf, PlanOf;
    OnlyStanding(b, rows, ranked);
    ContributorShare(b, h);
    assert Active(StandingsOf(b)) * b.contributors == {};
    SoleLadder(StandingsOf(b), ranked, h);
    PayBounds(ranked, 0, [0.40, 0.25, 0.15, 0.12, 0.08], h);
    EmissionConserves(b);
  }

  /** The emitted hotkeys are the first five of the ranking. */
  lemma FivePaid(b: Ballot, rows: seq<Row>, ranked: seq<Row>)
    requires OneTrack(b, rows, ranked)
    requires forall x, y :: 0 <= x < y < 6 ==> ranked[x].hotkey != ranked[y].hotkey
    ensures EmissionWeights(b).Keys == Hotkeys(ranked) - {ranked[5].hotkey}
  {
    hide EmissionWeights, Decreasing, CutOf;
    EmissionConserves(b);
    forall h ensures h in EmissionWeights(b) <==> h in Hotkeys(ranked) - {ranked[5].hotkey} {
      if h in Hotkeys(ranked) {
        var r :| r in ranked && r.hotkey == h;
        var i :| 0 <= i < |ranked| && ranked[i] == r;
        SixIncomes(b, rows, ranked, i);
      } else {
        OnlySixPaid(b, rows, ranked, h);
      }
    }
  }

  // ----- the two ballots

  /** No scores carried or served but those of skills, no contributors, nothing reserved. */
  ghost predicate Bare(m: Memory, w: World) {
    && m.carried.Keys <= {Skills} && w.reply.Silent? && w.contributors == {}
    && !Reserving(m.reservedHotkey, m.reservedShare)
  }

  lemma BareBallot(m: Memory, w: World, rows: seq<Row>, ranked: seq<Row>)
    requires Bare(m, w)
    requires multiset(rows) == multiset(ranked) && Decreasing(ranked) && |ranked| == 6
    requires forall i :: 0 <= i < 6 ==> ranked[i].score >= 0.20
    ensures OneTrack(BallotOf(m, w, map[Skills := rows]), rows, ranked)
  {
    var latest: Scores := map[Skills := rows];
    assert Nonempty(m.carried).Keys <= {Skills};
    assert Merged(m.carried, None, latest) == latest;
    assert CutOf(BallotOf(m, w, latest), Skills) == THRESHOLDS[Skills] == 0.20;
  }

  lemma HotkeysOfSix(r: seq<Row>)
    requires |r| == 6
    ensures Hotkeys(r) == {r[0].hotkey, r[1].hotkey, r[2].hotkey, r[3].hotkey, r[4].hotkey, r[5].hotkey}
  {
    forall h ensures h in Hotkeys(r)
                     <==> h in {r[0].hotkey, r[1].hotkey, r[2].hotkey, r[3].hotkey, r[4].hotkey, r[5].hotkey} {
      if h in Hotkeys(r) {
        var x :| x in r && x.hotkey == h;
        var i :| 0 <= i < 6 && r[i] == x;
      }
    }
  }

  predicate SixDistinct(r: seq<Row>) {
    |r| == 6 && forall x, y :: 0 <= x < y < 6 ==> r[x].hotkey != r[y].hotkey
  }

  lemma FiveOf(b: Ballot, rows: seq<Row>, r: seq<Row>)
    requires OneTrack(b, rows, r) && SixDistinct(r)
    ensures var e := EmissionWeights(b);
            && e.Keys == {r[0].hotkey, r[1].hotkey, r[2].hotkey, r[3].hotkey, r[4].hotkey}
            && Get(e, r[0].hotkey) == 0.40 && Get(e, r[4].hotkey) == 0.08
  {
    hide EmissionWeights, OneTrack, Hotkeys;
    SixIncomes(b, rows, r, 0);
    SixIncomes(b, rows, r, 4);
    FivePaid(b, rows, r);
    HotkeysOfSix(r);
    assert r[5].hotkey !in {r[0].hotkey, r[1].hotkey, r[2].hotkey, r[3].hotkey, r[4].hotkey};
  }

  lemma SixRowsFacts(k: seq<string>)
    requires |k| == 6 && NoRepeats(k)
    ensures Decreasing(SixRows(k)) && SixDistinct(SixRows(k))
    ensures forall i :: 0 <= i < 6 ==> SixRows(k)[i].score >= 0.20 && SixRows(k)[i].hotkey == k[i]
  {
  }

  lemma OvertakenFacts(k: seq<string>)
    requires |k| == 6 && NoRepeats(k)
    ensures Decreasing(Overtaken(k)) && SixDistinct(Overtaken(k))
    ensures forall i :: 0 <= i < 6 ==> Overtaken(k)[i].score >= 0.20
    ensures var s := Overtaken(k);
            s[0].hotkey == k[0] && s[1].hotkey == k[1] && s[2].hotkey == k[2] && s[3].hotkey == k[3]
            && s[4].hotkey == k[5]
  {
  }

  lemma SixBefore(m: Memory, w: World, k: seq<string>)
    requires |k| == 6 && NoRepeats(k) && Bare(m, w)
    ensures OneTrack(BallotOf(m, w, Latest(k)), SixRows(k), SixRows(k))
    ensures var e := EmissionWeights(BallotOf(m, w, Latest(k)));
            e.Keys == {k[0], k[1], k[2], k[3], k[4]} && Get(e, k[0]) == 0.40 && Get(e, k[4]) == 0.08
  {
    hide EmissionWeights, BallotOf, OneTrack, SixRows, NoRepeats, Decreasing;
    SixRowsFacts(k);
    BareBallot(m, w, SixRows(k), SixRows(k));
    FiveOf(BallotOf(m, w, Latest(k)), SixRows(k), SixRows(k));
  }

  lemma RaisedSixth(k: seq<string>)
    requires |k| == 6
    ensures RaisedScores(Latest(k), Skills, 5, 0.55) == map[Skills := SixRows(k)[5 := Row(k[5], 0.55)]]
    ensures multiset(SixRows(k)[5 := Row(k[5], 0.55)]) == multiset(Overtaken(k))
  {
    var four := [Row(k[0], 0.9), Row(k[1], 0.8), Row(k[2], 0.7), Row(k[3], 0.6)];
    assert SixRows(k)[5 := Row(k[5], 0.55)] == four + [Row(k[4], 0.5), Row(k[5], 0.55)];
    assert Overtaken(k) == four + [Row(k[5], 0.55), Row(k[4], 0.5)];
  }

  lemma SixAfter(m: Memory, w: World, k: seq<string>)
    requires |k| == 6 && NoRepeats(k) && Bare(m, w)
    ensures var e := EmissionWeights(BallotOf(m, w, RaisedScores(Latest(k), Skills, 5, 0.55)));
            e.Keys == {k[0], k[1], k[2], k[3], k[5]} && Get(e, k[0]) == 0.40 && Get(e, k[5]) == 0.08
  {
    hide EmissionWeights, BallotOf, OneTrack, RaisedScores, Overtaken, NoRepeats, Decreasing;
    var r := SixRows(k)[5 := Row(k[5], 0.55)];
    RaisedSixth(k);
    OvertakenFacts(k);
    BareBallot(m, w, r, Overtaken(k));
    FiveOf(BallotOf(m, w, RaisedScores(Latest(k), Skills, 5, 0.55)), r, Overtaken(k));
  }

  // ----- the average

  lemma WithoutFifth(k: seq<string>)
    requires |k| == 6 && NoRepeats(k)
    ensures {k[0], k[1], k[2], k[3], k[4], k[5]} - {k[4]} == {k[0], k[1], k[2], k[3], k[5]}
  {
  }

  lemma NoOneContributes(m: Memory, w: World)
    requires Bare(m, w)
    ensures w.contributors == {}
  {
  }

  lemma CompetitiveFalls(m: Memory, w: World, k: seq<string>)
    requires |k| == 6 && NoRepeats(k) && Bare(m, w)
    requires m.ema == EmissionWeights(BallotOf(m, w, Latest(k)))
    ensures EmptyOrUnit(m.ema)
    ensures !KeepsCompetitive(m, w, Latest(k), RaisedScores(Latest(k), Skills, 5, 0.55))
  {
    hide EmissionWeights, BallotOf, OneTrack, RaisedScores, Competitive, Carried, Bare, NoRepeats, StandingsOf;
    assert w.contributors == {} by { NoOneContributes(m, w); }
    var later := RaisedScores(Latest(k), Skills, 5, 0.55);
    var e, e' := EmissionWeights(BallotOf(m, w, Latest(k))), EmissionWeights(BallotOf(m, w, later));
    EmissionConserves(BallotOf(m, w, Latest(k)));
    SixBefore(m, w, k);
    SixAfter(m, w, k);
    CompetitiveOf(m, w, Latest(k));
    CompetitiveOf(m, w, later);
    var all := {k[0], k[1], k[2], k[3], k[4], k[5]};
    CarriedByAll(m.ema, e.Keys);
    CarriedByAll(m.ema, all);
    OneLeaves(m.ema, all, k[4]);
    WithoutFifth(k);
  }

  lemma CarriedByAll(prior: Weights, keys: set<string>)
    requires UnitVector(prior) && prior.Keys <= keys
    ensures Carried(prior, keys) == 1.0
  {
    SumPad(prior, keys);
  }

  /** Raising the sixth from 0.4 to 0.55 leaves the voted weight of the first alone, and yet the
      first is pushed more than its 0.40. */
  lemma SixthOvertakesFirstProfits(m: Memory, w: World, k: seq<string>)
    requires |k| == 6 && NoRepeats(k) && Bare(m, w)
    requires m.ema == EmissionWeights(BallotOf(m, w, Latest(k)))
    requires NoCollision(w.digest, SaltOf(BallotOf(m, w, Latest(k)), Skills), SixRows(k))
    ensures Raise(m, w, Latest(k), Skills, 5, 0.55)
    ensures Get(Pushed(m, w, Latest(k)), k[0]) == 0.40
    ensures Get(Pushed(m, w, RaisedScores(Latest(k), Skills, 5, 0.55)), k[0]) > 0.40
  {
    hide EmissionWeights, BallotOf, RaisedScores, KeepsCompetitive, Blend, NoCollision;
    var b := BallotOf(m, w, Latest(k));
    SixBefore(m, w, k);
    SixAfter(m, w, k);
    CompetitiveFalls(m, w, k);
    EmissionConserves(b);
    NoDustUnlessCrowded(b);
    assert m.ema != map[];
    SettledAverage(m.ema);
    UntouchedPushRisesIff(m, w, Latest(k), Skills, 5, 0.55, k[0]);
  }

  lemma SettledAverage(v: Weights)
    requires UnitVector(v) && NoDust(v)
    ensures Blend(v, v) == v
  {
    BlendContracts(v, v);
  }
}
