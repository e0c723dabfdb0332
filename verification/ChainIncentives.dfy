/** What raising one score of a pass does to the vector that is handed to the chain, through merging,
    allocation, smoothing and the reserved share. */
module ChainIncentives {
  import opened Collections
  import opened Options
  import opened Sums
  import opened Emission
  import opened EmissionFloor
  import opened EmissionIncentives
  import opened EmissionTotals
  import opened SmoothedIncentives
  import opened Smoothing
  import opened ValidatorState

  /** The scores of the pass with one of them replaced. */
  function RaisedScores(latest: Scores, t: Track, j: nat, score: real): Scores
    requires t in latest && j < |latest[t]|
  {
    latest[t := Rescored(latest[t], j, score)]
  }

  /** The vector the scored branch hands to the chain. */
  ghost function Pushed(m: Memory, w: World, latest: Scores): Weights {
    Held(m, SmoothedVector(m, w, latest))
  }

  /** With scores, not paused and with no round in flight, `set_weights` pushes exactly this vector
      of the state the answer leaves. */
  lemma PushedExactly(m: Memory, w: World, latest: Scores)
    requires var h := Heard(m, w.reply, w.disk); !Raises(w.reply) && !h.paused && !h.running
    ensures SetWeightsFrom(m, Some(latest), w).pushes == [Pushed(Heard(m, w.reply, w.disk), w, latest)]
  {
    hide SmoothedVector, Held, Merged, Heard;
  }

  ghost predicate Raise(m: Memory, w: World, latest: Scores, t: Track, j: nat, score: real) {
    && EmptyOrUnit(m.ema)
    && t in latest && j < |latest[t]| && score >= latest[t][j].score
    && NoCollision(w.digest, SaltOf(BallotOf(m, w, latest), t), latest[t])
  }

  lemma MergedUpdate(carried: Scores, served: Option<Scores>, latest: Scores, t: Track, rows: seq<Row>)
    ensures Merged(carried, served, latest[t := rows]) == Merged(carried, served, latest)[t := rows]
    ensures t in latest ==> t in Merged(carried, served, latest) && Merged(carried, served, latest)[t] == latest[t]
  {
    hide Nonempty;
  }

  /** A raise in the pass is a raise on the ballot: the pass overrides what was served and carried. */
  lemma RaisedOnBallot(m: Memory, w: World, latest: Scores, t: Track, j: nat, score: real)
    requires t in latest && j < |latest[t]|
    ensures t in BallotOf(m, w, latest).scores && BallotOf(m, w, latest).scores[t] == latest[t]
    ensures BallotOf(m, w, RaisedScores(latest, t, j, score)) == RaisedBallot(BallotOf(m, w, latest), t, j, score)
  {
    hide Served, Merged, Salt;
    MergedUpdate(m.carried, Served(w.reply), latest, t, Rescored(latest[t], j, score));
  }

  /** The voted map moves zero-sum. */
  lemma VoteMoves(m: Memory, w: World, latest: Scores, t: Track, j: nat, score: real)
    requires Raise(m, w, latest, t, j, score)
    ensures ZeroSumMove(EmissionWeights(BallotOf(m, w, latest)),
                        EmissionWeights(BallotOf(m, w, RaisedScores(latest, t, j, score))), latest[t][j].hotkey)
  {
    hide EmissionWeights, BallotOf, RaisedBallot;
    var b := BallotOf(m, w, latest);
    RaisedOnBallot(m, w, latest, t, j, score);
    assert b.digest == w.digest by { BallotDigest(m, w, latest); }
    ZeroSum(b, t, j, score);
    EmissionConserves(b);
    EmissionConserves(RaisedBallot(b, t, j, score));
  }

  lemma BallotDigest(m: Memory, w: World, latest: Scores)
    ensures BallotOf(m, w, latest).digest == w.digest
  {
  }

  // ----- through the reserved share

  /** An entry of the vector with the operator's share on top. */
  lemma HeldEntry(m: Memory, v: Weights, h: string)
    requires UnitVector(v)
    ensures Get(Held(m, v), h)
            == if !Reserving(m.reservedHotkey, m.reservedShare) then Get(v, h)
               else Kept(Get(v, h), m.reservedShare) + if h == m.reservedHotkey then m.reservedShare else 0.0
  {
    hide UnitVector;
    ReservedIsUnit(v, m.reservedHotkey, m.reservedShare);
    KeptZero(m.reservedShare);
  }

  lemma KeptZero(share: real)
    ensures Kept(0.0, share) == 0.0
  {
  }

  lemma KeptOrder(x: real, y: real, share: real)
    requires 0.0 < share < 1.0
    ensures x <= y <==> Kept(x, share) <= Kept(y, share)
  {
    ScaledOrder(x, y, 1.0 - share, Kept(x, share), Kept(y, share));
  }

  lemma ScaledOrder(x: real, y: real, k: real, a: real, b: real)
    requires k > 0.0 && a == x * k && b == y * k
    ensures x <= y <==> a <= b
  {
    assert b - a == (y - x) * k;
  }

  lemma KeptOne(share: real)
    ensures Kept(1.0, share) == 1.0 - share
  {
  }

  /** The reserved share keeps the order of two entries of weight vectors. */
  lemma HeldOrder(m: Memory, v: Weights, v': Weights, h: string)
    requires UnitVector(v) && UnitVector(v')
    ensures Get(v, h) <= Get(v', h) <==> Get(Held(m, v), h) <= Get(Held(m, v'), h)
  {
    hide UnitVector, Held, Kept;
    HeldEntry(m, v, h);
    HeldEntry(m, v', h);
    if Reserving(m.reservedHotkey, m.reservedShare) {
      KeptOrder(Get(v, h), Get(v', h), m.reservedShare);
    }
  }

  /** Out of nothing the reserved hotkey is voted alone. */
  lemma HeldNothing(m: Memory, h: string)
    ensures Get(Held(m, map[]), h)
            == if Reserving(m.reservedHotkey, m.reservedShare) && h == m.reservedHotkey then 1.0 else 0.0
  {
    if Reserving(m.reservedHotkey, m.reservedShare) {
      ReservedFromNothing(m.reservedHotkey, m.reservedShare);
    }
  }

  // ----- the whole step

  lemma AverageEmptyIff(m: Memory, w: World, latest: Scores)
    requires EmptyOrUnit(m.ema)
    ensures SmoothedVector(m, w, latest) == map[] <==> EmissionWeights(BallotOf(m, w, latest)) == map[]
    ensures EmptyOrUnit(SmoothedVector(m, w, latest))
  {
    hide EmissionWeights, BallotOf;
    var b := BallotOf(m, w, latest);
    BlendIsUnit(m.ema, EmissionWeights(b));
    if EmissionWeights(b) != map[] {
      AverageIsNotEmpty(m.ema, b);
    } else {
      BlendSupport(m.ema, EmissionWeights(b));
    }
  }

  /** Where nobody was voted before, only the raised hotkey can be voted after. */
  lemma FirstVote(m: Memory, w: World, latest: Scores, t: Track, j: nat, score: real)
    requires Raise(m, w, latest, t, j, score)
    requires SmoothedVector(m, w, latest) == map[]
    ensures var v := SmoothedVector(m, w, RaisedScores(latest, t, j, score));
            v == map[] || v == map[latest[t][j].hotkey := 1.0]
  {
    hide EmissionWeights, BallotOf, NoCollision, EmptyOrUnit, RaisedScores, Blend, ZeroSumMove;
    VoteMoves(m, w, latest, t, j, score);
    AverageEmptyIff(m, w, latest);
    FirstInAverage(m.ema, EmissionWeights(BallotOf(m, w, latest)),
                   EmissionWeights(BallotOf(m, w, RaisedScores(latest, t, j, score))), latest[t][j].hotkey);
  }

  /** A vote does not become empty by a raise. */
  lemma StaysVoted(m: Memory, w: World, latest: Scores, t: Track, j: nat, score: real)
    requires Raise(m, w, latest, t, j, score)
    requires SmoothedVector(m, w, latest) != map[]
    ensures UnitVector(SmoothedVector(m, w, latest))
    ensures UnitVector(SmoothedVector(m, w, RaisedScores(latest, t, j, score)))
  {
    hide EmissionWeights, BallotOf, RaisedBallot, UnitVector;
    var b, c := BallotOf(m, w, latest), BallotOf(m, w, RaisedScores(latest, t, j, score));
    assert b.digest == w.digest by { BallotDigest(m, w, latest); }
    RaisedOnBallot(m, w, latest, t, j, score);
    AverageEmptyIff(m, w, latest);
    AverageEmptyIff(m, w, RaisedScores(latest, t, j, score));
    VotedIffQualified(b);
    VotedIffQualified(c);
    StaysQualified(b, t, j, score);
  }

  lemma VotedIffQualified(b: Ballot)
    ensures EmissionWeights(b) != map[] <==> PlanOf(StandingsOf(b), b.contributors).ladders != map[]
  {
    hide EmissionWeights, StandingsOf;
    EmissionConserves(b);
    SoundPlanOf(b);
    assert MapSum(map[]) == 0.0;
    assert PlanOf(StandingsOf(b), b.contributors).ladders != map[] <==> StandingsOf(b) != map[] by {
      assert forall t :: t in PlanOf(StandingsOf(b), b.contributors).ladders <==> t in StandingsOf(b);
    }
  }

  /** Raising one score of a pass never lowers what is pushed for its own hotkey, whatever is
      carried and reserved. */
  lemma OwnPushNeverFalls(m: Memory, w: World, latest: Scores, t: Track, j: nat, score: real)
    requires Raise(m, w, latest, t, j, score)
    ensures Get(Pushed(m, w, RaisedScores(latest, t, j, score)), latest[t][j].hotkey)
            >= Get(Pushed(m, w, latest), latest[t][j].hotkey)
  {
    hide EmissionWeights, BallotOf, Blend, ApplyReserved, Held, NoCollision, EmptyOrUnit, RaisedScores, UnitVector;
    var own, later := latest[t][j].hotkey, RaisedScores(latest, t, j, score);
    var v, v' := SmoothedVector(m, w, latest), SmoothedVector(m, w, later);
    VoteMoves(m, w, latest, t, j, score);
    OwnShareNeverFalls(m.ema, EmissionWeights(BallotOf(m, w, latest)), EmissionWeights(BallotOf(m, w, later)), own);
    if v == map[] {
      FirstVote(m, w, latest, t, j, score);
      HeldNothing(m, own);
      HeldAlone(m, own, own);
    } else {
      StaysVoted(m, w, latest, t, j, score);
      HeldOrder(m, v, v', own);
    }
  }

  /** One hotkey voted alone, with the reserved share on top. */
  lemma HeldAlone(m: Memory, own: string, h: string)
    ensures Get(Held(m, map[own := 1.0]), h)
            == if Reserving(m.reservedHotkey, m.reservedShare) then
                 (if h == own then 1.0 - m.reservedShare else 0.0)
                 + (if h == m.reservedHotkey then m.reservedShare else 0.0)
               else if h == own then 1.0 else 0.0
  {
    SumUpdate(map[], own, 1.0);
    assert map[][own := 1.0] == map[own := 1.0];
    HeldEntry(m, map[own := 1.0], h);
    KeptZero(m.reservedShare);
    KeptOne(m.reservedShare);
  }

  /** What nobody else can gain from: the competitive sum does not shrink. */
  ghost predicate KeepsCompetitive(m: Memory, w: World, latest: Scores, later: Scores) {
    Competitive(m.ema, EmissionWeights(BallotOf(m, w, later)))
    >= Competitive(m.ema, EmissionWeights(BallotOf(m, w, latest)))
  }

  /** As long as the competitive sum does not shrink, a raise never raises what is pushed for
      anybody else. */
  lemma OtherPushesNeverRise(m: Memory, w: World, latest: Scores, t: Track, j: nat, score: real, h: string)
    requires Raise(m, w, latest, t, j, score) && h != latest[t][j].hotkey
    requires KeepsCompetitive(m, w, latest, RaisedScores(latest, t, j, score))
    ensures Get(Pushed(m, w, RaisedScores(latest, t, j, score)), h) <= Get(Pushed(m, w, latest), h)
  {
    hide EmissionWeights, BallotOf, Blend, ApplyReserved, Held, NoCollision, EmptyOrUnit, RaisedScores, UnitVector,
         Competitive;
    var own, later := latest[t][j].hotkey, RaisedScores(latest, t, j, score);
    var v, v' := SmoothedVector(m, w, latest), SmoothedVector(m, w, later);
    VoteMoves(m, w, latest, t, j, score);
    OthersNeverRise(m.ema, EmissionWeights(BallotOf(m, w, latest)), EmissionWeights(BallotOf(m, w, later)), own, h);
    if v == map[] {
      FirstVote(m, w, latest, t, j, score);
      HeldNothing(m, h);
      HeldAlone(m, own, h);
    } else {
      StaysVoted(m, w, latest, t, j, score);
      HeldOrder(m, v', v, h);
    }
  }

  /** For a hotkey in the average whose own voted weight the raise leaves alone the condition is
      exact: it is pushed more if and only if the competitive sum shrinks. */
  lemma UntouchedPushRisesIff(m: Memory, w: World, latest: Scores, t: Track, j: nat, score: real, h: string)
    requires Raise(m, w, latest, t, j, score) && h != latest[t][j].hotkey
    requires h in SmoothedVector(m, w, latest)
    requires Get(EmissionWeights(BallotOf(m, w, RaisedScores(latest, t, j, score))), h)
             == Get(EmissionWeights(BallotOf(m, w, latest)), h)
    ensures Get(Pushed(m, w, RaisedScores(latest, t, j, score)), h) > Get(Pushed(m, w, latest), h)
            <==> !KeepsCompetitive(m, w, latest, RaisedScores(latest, t, j, score))
  {
    hide EmissionWeights, BallotOf, Blend, ApplyReserved, Held, NoCollision, EmptyOrUnit, RaisedScores, UnitVector,
         Competitive;
    var own, later := latest[t][j].hotkey, RaisedScores(latest, t, j, score);
    VoteMoves(m, w, latest, t, j, score);
    UntouchedRisesIff(m.ema, EmissionWeights(BallotOf(m, w, latest)), EmissionWeights(BallotOf(m, w, later)), own, h);
    StaysVoted(m, w, latest, t, j, score);
    HeldOrder(m, SmoothedVector(m, w, later), SmoothedVector(m, w, latest), h);
  }

  /** The competitive sum of a nonempty vote. */
  lemma CompetitiveOf(m: Memory, w: World, latest: Scores)
    requires EmptyOrUnit(m.ema) && |w.contributors| <= 10_000_000
    requires EmissionWeights(BallotOf(m, w, latest)) != map[]
    ensures Competitive(m.ema, EmissionWeights(BallotOf(m, w, latest)))
            == 0.3 + 0.7 * Carried(m.ema, EmissionWeights(BallotOf(m, w, latest)).Keys)
  {
    hide EmissionWeights, StandingsOf, Active, Competitive;
    var b := BallotOf(m, w, latest);
    SubsetSize(Active(StandingsOf(b)) * b.contributors, w.contributors);
    NoDustUnlessCrowded(b);
    EmissionConserves(b);
    assert StandingsOf(b) != map[];
    CompetitiveIs(m.ema, EmissionWeights(b));
  }

  lemma UnitFacts(v: Weights)
    requires EmptyOrUnit(v)
    ensures NonNegative(v)
    ensures UnitVector(v) ==> v != map[]
  {
    assert MapSum(map[]) == 0.0;
  }

  /** The two votes of a raise are empty or weight vectors. */
  lemma VotesAreUnit(m: Memory, w: World, latest: Scores, t: Track, j: nat, score: real)
    requires Raise(m, w, latest, t, j, score)
    requires EmissionWeights(BallotOf(m, w, latest)) != map[]
    ensures UnitVector(EmissionWeights(BallotOf(m, w, latest)))
    ensures UnitVector(EmissionWeights(BallotOf(m, w, RaisedScores(latest, t, j, score))))
    ensures NonNegative(m.ema)
  {
    hide EmissionWeights, BallotOf, NoCollision, RaisedScores, UnitVector, StandingsOf;
    var later := RaisedScores(latest, t, j, score);
    UnitFacts(m.ema);
    AverageEmptyIff(m, w, latest);
    AverageEmptyIff(m, w, later);
    StaysVoted(m, w, latest, t, j, score);
    UnitFacts(SmoothedVector(m, w, later));
    EmissionConserves(BallotOf(m, w, latest));
    EmissionConserves(BallotOf(m, w, later));
  }

  /** Out of an empty vote the competitive sum can only grow. */
  lemma EmptyKeepsCompetitive(m: Memory, w: World, latest: Scores, later: Scores)
    requires EmptyOrUnit(m.ema)
    requires EmissionWeights(BallotOf(m, w, latest)) == map[]
    ensures KeepsCompetitive(m, w, latest, later)
  {
    hide EmissionWeights, BallotOf, EmptyOrUnit, Competitive;
    AverageEmptyIff(m, w, latest);
    KeptIsNonNegative(m.ema, EmissionWeights(BallotOf(m, w, latest)));
    KeptIsNonNegative(m.ema, EmissionWeights(BallotOf(m, w, later)));
  }

  /** Where the raised vote drops no dust, the competitive sum does not shrink as long as no hotkey
      with carried weight leaves the vote. */
  lemma NobodyLeavesKeepsCompetitive(m: Memory, w: World, latest: Scores, t: Track, j: nat, score: real)
    requires Raise(m, w, latest, t, j, score)
    requires NoDust(EmissionWeights(BallotOf(m, w, RaisedScores(latest, t, j, score))))
    requires forall h :: h in EmissionWeights(BallotOf(m, w, latest)) && Get(m.ema, h) > 0.0
                         ==> h in EmissionWeights(BallotOf(m, w, RaisedScores(latest, t, j, score)))
    ensures KeepsCompetitive(m, w, latest, RaisedScores(latest, t, j, score))
  {
    hide EmissionWeights, Competitive, BallotOf, NoCollision, EmptyOrUnit, RaisedScores, UnitVector, NoDust, Carried;
    var later := RaisedScores(latest, t, j, score);
    var e, e' := EmissionWeights(BallotOf(m, w, latest)), EmissionWeights(BallotOf(m, w, later));
    if e == map[] {
      EmptyKeepsCompetitive(m, w, latest, later);
    } else {
      VotesAreUnit(m, w, latest, t, j, score);
      CompetitiveAtMost(m.ema, e);
      CompetitiveIs(m.ema, e');
      NobodyLeaves(m.ema, e.Keys, e'.Keys);
    }
  }

  /** Any entry of the pushed vector, touched or not, against what it was: the kept entries, each
      times the other sum. */
  lemma PushRisesIff(m: Memory, w: World, latest: Scores, t: Track, j: nat, score: real, h: string)
    requires Raise(m, w, latest, t, j, score)
    requires SmoothedVector(m, w, latest) != map[]
    ensures var e := EmissionWeights(BallotOf(m, w, latest));
            var e' := EmissionWeights(BallotOf(m, w, RaisedScores(latest, t, j, score)));
            Get(Pushed(m, w, RaisedScores(latest, t, j, score)), h) > Get(Pushed(m, w, latest), h)
            <==> Get(DropDust(Mix(m.ema, e')), h) * Competitive(m.ema, e)
                 > Get(DropDust(Mix(m.ema, e)), h) * Competitive(m.ema, e')
  {
    hide EmissionWeights, BallotOf, Blend, ApplyReserved, Held, NoCollision, EmptyOrUnit, RaisedScores, UnitVector,
         Competitive, Mix, DropDust;
    var later := RaisedScores(latest, t, j, score);
    var e, e' := EmissionWeights(BallotOf(m, w, latest)), EmissionWeights(BallotOf(m, w, later));
    StaysVoted(m, w, latest, t, j, score);
    UnitFacts(SmoothedVector(m, w, later));
    KeptIsNonNegative(m.ema, e);
    KeptIsNonNegative(m.ema, e');
    ShareMovesIff(m.ema, e, m.ema, e', h);
    HeldOrder(m, SmoothedVector(m, w, later), SmoothedVector(m, w, latest), h);
  }
}
