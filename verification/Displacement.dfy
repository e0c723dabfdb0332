/** Who leaves the vote when one score is raised: at most the fifth of that track, and only for the
    raised hotkey; and what that means for the sum the average is divided by. */
module Displacement {
  import opened ChainIncentives
  import opened Emission
  import opened EmissionFloor
  import opened EmissionIncentives
  import opened EmissionTotals
  import opened SmoothedIncentives
  import opened Smoothing
  import opened Sums
  import opened ValidatorState

  /** The hotkeys in the paid places of a ranking. */
  function Paid(rows: seq<Row>): set<string> {
    Hotkeys(rows[..PaidPlaces(rows)])
  }

  /** The hotkey in the last of five paid places. */
  function Fifth(rows: seq<Row>): set<string> {
    if |rows| < 5 then {} else {rows[4].hotkey}
  }

  lemma PaidAt(rows: seq<Row>, i: nat)
    requires i < |rows| && i < 5
    ensures rows[i].hotkey in Paid(rows)
  {
    assert rows[..PaidPlaces(rows)][i] == rows[i];
  }

  /** When one row moves forward, only the fifth can lose its paid place, and only to the hotkey of
      the row that moved. */
  lemma MoveDisplacesFifth(was: seq<Row>, now: seq<Row>, a: seq<Row>, m: seq<Row>, z: seq<Row>,
                           r: Row, up: Row, cut: real)
    requires Moved(was, now, a, m, z, r, up, cut)
    ensures Paid(was) <= Paid(now) + Fifth(was)
    ensures !(Paid(was) <= Paid(now)) ==> up.hotkey in Paid(now)
  {
    forall h | h in Paid(was) ensures h in Paid(now) || (h in Fifth(was) && up.hotkey in Paid(now)) {
      var x :| x in was[..PaidPlaces(was)] && x.hotkey == h;
      var i: nat :| i < PaidPlaces(was) && was[i] == x;
      assert Passes(r, cut) ==> Passes(up, cut);
      if i < |a| {
        assert now[i] == was[i];
        PaidAt(now, i);
      } else if i < |a| + |m| {
        PassedBy(was, now, a, m, z, r, up, cut, i);
      } else if i == |a| + |m| && Passes(r, cut) {
        assert was[i] == r && now[|a|] == up;
        PaidAt(now, |a|);
      } else {
        PassedBy(was, now, a, m, z, r, up, cut, i);
      }
    }
  }

  /** A row the moving one passes slips one place at most. */
  lemma PassedBy(was: seq<Row>, now: seq<Row>, a: seq<Row>, m: seq<Row>, z: seq<Row>,
                 r: Row, up: Row, cut: real, i: nat)
    requires Moved(was, now, a, m, z, r, up, cut)
    requires |a| <= i < |was| && i < 5 && !(i == |a| + |m| && Passes(r, cut))
    ensures was[i].hotkey in Paid(now) || (i == 4 && up.hotkey in Paid(now))
  {
    if !Passes(up, cut) {
      assert !Passes(r, cut) && now == was;
      PaidAt(now, i);
    } else {
      assert now[|a|] == up;
      PaidAt(now, |a|);
      var k := if i > |a| + |m| && Passes(r, cut) then i else i + 1;
      assert now[k] == was[i];
      if k < 5 {
        PaidAt(now, k);
      }
    }
  }

  // ----- on a ballot

  ghost predicate Raised(b: Ballot, t: Track, j: nat, score: real) {
    && t in b.scores && j < |b.scores[t]| && score >= b.scores[t][j].score
    && NoCollision(b.digest, SaltOf(b, t), b.scores[t])
  }

  lemma WinnersArePaid(s: Standings, contributors: set<string>, t: Track)
    ensures WinnersOn(PlanOf(s, contributors), t) == if t in s then Paid(s[t]) else {}
  {
    hide Prizes, Payout;
    if t in s {
      assert |LadderOf(s, t).prizes| == PaidPlaces(s[t]);
    }
  }

  lemma EmittedKeys(b: Ballot)
    ensures EmissionWeights(b).Keys
            == Winners(PlanOf(StandingsOf(b), b.contributors)) + Active(StandingsOf(b)) * b.contributors
  {
  }

  /** The fifth of the raised track. */
  ghost function FifthOn(b: Ballot, t: Track): set<string> {
    if t in StandingsOf(b) then Fifth(StandingsOf(b)[t]) else {}
  }

  /** What a raise does to the paid places of every track. */
  lemma RaiseDisplaces(b: Ballot, t: Track, j: nat, score: real, u: Track)
    requires Raised(b, t, j, score)
    ensures var c := RaisedBallot(b, t, j, score);
            var was := WinnersOn(PlanOf(StandingsOf(b), b.contributors), u);
            var now := WinnersOn(PlanOf(StandingsOf(c), b.contributors), u);
            && was <= now + (if u == t then FifthOn(b, t) else {})
            && (!(was <= now) ==> b.scores[t][j].hotkey in now)
    ensures Active(StandingsOf(b)) <= Active(StandingsOf(RaisedBallot(b, t, j, score)))
  {
    hide StandingsOf, WinnersOn, PlanOf, Paid, Active;
    var c := RaisedBallot(b, t, j, score);
    var early, late := StandingsOf(b), StandingsOf(c);
    var r := b.scores[t][j];
    var a, m, z := RaisedStandings(b, t, j, score);
    WinnersArePaid(early, b.contributors, u);
    WinnersArePaid(late, b.contributors, u);
    if early != late {
      ActiveGrows(early, late, t, a, m, z, r, Row(r.hotkey, score), CutOf(b, t));
      if u == t {
        MoveDisplacesFifth(if t in early then early[t] else [], late[t], a, m, z, r, Row(r.hotkey, score), CutOf(b, t));
      }
    }
  }

  /** A raise takes at most one hotkey out of the vote: the fifth of that track, where it has no other
      paid place and is no eligible contributor, and only for the raised hotkey, which is paid there. */
  lemma OnlyFifthLeaves(b: Ballot, t: Track, j: nat, score: real, h: string)
    requires Raised(b, t, j, score)
    requires h in EmissionWeights(b) && h !in EmissionWeights(RaisedBallot(b, t, j, score))
    ensures h in FifthOn(b, t)
    ensures b.scores[t][j].hotkey in WinnersOn(PlanOf(StandingsOf(RaisedBallot(b, t, j, score)), b.contributors), t)
    ensures h !in Active(StandingsOf(b)) * b.contributors
    ensures forall u :: u != t ==> h !in WinnersOn(PlanOf(StandingsOf(b), b.contributors), u)
  {
    hide EmissionWeights, StandingsOf, WinnersOn, PlanOf, Active;
    var c := RaisedBallot(b, t, j, score);
    EmittedKeys(b);
    EmittedKeys(c);
    assert c.contributors == b.contributors;
    RaiseDisplaces(b, t, j, score, Repositories);
    RaiseDisplaces(b, t, j, score, Packages);
    RaiseDisplaces(b, t, j, score, McpServers);
    RaiseDisplaces(b, t, j, score, Skills);
    forall u | u != t ensures h !in WinnersOn(PlanOf(StandingsOf(b), b.contributors), u) {
      RaiseDisplaces(b, t, j, score, u);
      PlaceInWinners(PlanOf(StandingsOf(c), b.contributors), u);
    }
    PlaceInWinners(PlanOf(StandingsOf(c), b.contributors), t);
    assert h in WinnersOn(PlanOf(StandingsOf(b), b.contributors), t) by {
      WinnersAnywhere(PlanOf(StandingsOf(b), b.contributors), t, h);
    }
    RaiseDisplaces(b, t, j, score, t);
  }

  lemma PlaceInWinners(p: Plan, u: Track)
    ensures WinnersOn(p, u) <= Winners(p)
  {
    EveryTrackListed(u);
  }

  lemma WinnersAnywhere(p: Plan, t: Track, h: string)
    requires h in Winners(p)
    requires forall u :: u != t ==> h !in WinnersOn(p, u)
    ensures h in WinnersOn(p, t)
  {
  }

  lemma OneFifth(b: Ballot, t: Track)
    ensures forall x, y :: x in FifthOn(b, t) && y in FifthOn(b, t) ==> x == y
  {
  }

  // ----- the competitive sum

  lemma OneJoins(prior: Weights, keys: set<string>, h: string)
    requires h !in keys
    ensures Carried(prior, keys + {h}) == Carried(prior, keys) + Get(prior, h)
  {
    OneLeaves(prior, keys + {h}, h);
    assert keys + {h} - {h} == keys;
  }

  /** The carried weight of a vote one hotkey may have left and one may have joined. */
  lemma CarriedMoves(prior: Weights, keys: set<string>, keys': set<string>, own: string, out: set<string>)
    requires keys - keys' == out
    requires forall h :: h in keys' && h !in keys ==> h == own
    requires forall x, y :: x in out && y in out ==> x == y
    ensures forall f :: f in out ==>
              Carried(prior, keys')
              == Carried(prior, keys) - Get(prior, f) + (if own in keys' && own !in keys then Get(prior, own) else 0.0)
    ensures out == {} ==>
              Carried(prior, keys')
              == Carried(prior, keys) + (if own in keys' && own !in keys then Get(prior, own) else 0.0)
  {
    hide Carried;
    if own in keys' && own !in keys {
      assert keys' == keys - out + {own};
      OneJoins(prior, keys - out, own);
    } else {
      assert keys' <= keys;
      assert keys' == keys - out;
    }
    if out == {} {
      assert keys - out == keys;
    } else {
      var f :| f in out;
      assert out == {f};
      OneLeaves(prior, keys, f);
    }
  }

  /** The competitive sum shrinks if and only if the fifth leaves the vote and carries more weight
      than the raised hotkey brings in. */
  lemma ShrinksExactly(m: Memory, w: World, latest: Scores, t: Track, j: nat, score: real)
    requires Raise(m, w, latest, t, j, score)
    requires NoDust(EmissionWeights(BallotOf(m, w, latest)))
    requires NoDust(EmissionWeights(BallotOf(m, w, RaisedScores(latest, t, j, score))))
    ensures var e := EmissionWeights(BallotOf(m, w, latest));
            var e' := EmissionWeights(BallotOf(m, w, RaisedScores(latest, t, j, score)));
            var own := latest[t][j].hotkey;
            var brought := if own in e then 0.0 else Get(m.ema, own);
            !KeepsCompetitive(m, w, latest, RaisedScores(latest, t, j, score))
            <==> exists f :: f in FifthOn(BallotOf(m, w, latest), t) && f in e && f !in e' && Get(m.ema, f) > brought
  {
    hide EmissionWeights, BallotOf, NoCollision, EmptyOrUnit, RaisedScores, UnitVector, Competitive, NoDust,
         ZeroSumMove, FifthOn, Carried, StandingsOf;
    var later := RaisedScores(latest, t, j, score);
    var b := BallotOf(m, w, latest);
    var e, e' := EmissionWeights(b), EmissionWeights(BallotOf(m, w, later));
    var own := latest[t][j].hotkey;
    if e == map[] {
      EmptyKeepsCompetitive(m, w, latest, later);
      return;
    }
    VoteMoves(m, w, latest, t, j, score);
    VotesAreUnit(m, w, latest, t, j, score);
    CompetitiveIs(m.ema, e);
    CompetitiveIs(m.ema, e');
    RaisedOnBallot(m, w, latest, t, j, score);
    BallotDigest(m, w, latest);
    assert Raised(b, t, j, score);
    var out := e.Keys - e'.Keys;
    forall h | h in out ensures h in FifthOn(b, t) && own in e' {
      LeavingTakesOwnIn(m, w, latest, t, j, score, h);
    }
    OneFifth(b, t);
    forall h | h in e'.Keys && h !in e.Keys ensures h == own {
      OnlyOwnJoins(e, e', own, h);
    }
    CarriedMoves(m.ema, e.Keys, e'.Keys, own, out);
    OwnBringsNoLess(m, own);
  }

  lemma OwnBringsNoLess(m: Memory, own: string)
    requires EmptyOrUnit(m.ema)
    ensures Get(m.ema, own) >= 0.0
  {
  }

  lemma LeavingTakesOwnIn(m: Memory, w: World, latest: Scores, t: Track, j: nat, score: real, h: string)
    requires Raise(m, w, latest, t, j, score)
    requires h in EmissionWeights(BallotOf(m, w, latest))
    requires h !in EmissionWeights(BallotOf(m, w, RaisedScores(latest, t, j, score)))
    ensures h in FifthOn(BallotOf(m, w, latest), t)
    ensures latest[t][j].hotkey in EmissionWeights(BallotOf(m, w, RaisedScores(latest, t, j, score)))
  {
    hide EmissionWeights, BallotOf, NoCollision, EmptyOrUnit, RaisedScores, FifthOn, StandingsOf, WinnersOn, PlanOf;
    var b := BallotOf(m, w, latest);
    RaisedOnBallot(m, w, latest, t, j, score);
    BallotDigest(m, w, latest);
    OnlyFifthLeaves(b, t, j, score, h);
    var c := RaisedBallot(b, t, j, score);
    assert c.contributors == b.contributors;
    EmittedKeys(c);
    PlaceInWinners(PlanOf(StandingsOf(c), b.contributors), t);
  }
}
