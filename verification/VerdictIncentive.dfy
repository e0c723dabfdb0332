/** From one verdict to the chain: what a fixed verdict of one agent does to the allocation, and to
    the vector that the refresh with those scores pushes. */
module VerdictIncentive {
  import opened AgentScore
  import opened ChainIncentives
  import Correlation
  import opened Emission
  import opened EmissionIncentives
  import opened Smoothing
  import opened Sums
  import opened ValidatorState

  /** Turning one wrong verdict of an agent into a right one, with its findings unchanged, never
      lowers that agent's share of the allocation and never raises anybody else's. */
  lemma FixedVerdictInAllocation(root: real -> real, js: seq<Judged>, i: nat, decision: Decision,
                                 b: Ballot, t: Track, j: nat)
    requires Correlation.IsRoot(root)
    requires WrongAt(js, i) && Correct(js[i].malicious, decision)
    requires t in b.scores && j < |b.scores[t]| && b.scores[t][j].score == ScoreOf(root, js)
    requires NoCollision(b.digest, SaltOf(b, t), b.scores[t])
    ensures var fixed := RaisedBallot(b, t, j, ScoreOf(root, Revised(js, i, decision)));
            var before, after := EmissionWeights(b), EmissionWeights(fixed);
            var own := b.scores[t][j].hotkey;
            && Get(after, own) >= Get(before, own)
            && forall h :: h != own ==> Get(after, h) <= Get(before, h)
  {
    hide EmissionWeights, ScoreOf, RaisedBallot, NoCollision, Correlation.IsRoot;
    FixingNeverHurts(root, js, i, decision);
    ZeroSum(b, t, j, ScoreOf(root, Revised(js, i, decision)));
  }

  /** In the vector of that refresh the agent's own entry never falls either, whatever is carried and
      reserved; the others' entries never rise as long as the competitive sum does not shrink. */
  lemma FixedVerdictInThatPush(root: real -> real, js: seq<Judged>, i: nat, decision: Decision,
                               m: Memory, w: World, latest: Scores, t: Track, j: nat)
    requires Correlation.IsRoot(root)
    requires WrongAt(js, i) && Correct(js[i].malicious, decision)
    requires EmptyOrUnit(m.ema)
    requires t in latest && j < |latest[t]| && latest[t][j].score == ScoreOf(root, js)
    requires NoCollision(w.digest, SaltOf(BallotOf(m, w, latest), t), latest[t])
    ensures var fixed := RaisedScores(latest, t, j, ScoreOf(root, Revised(js, i, decision)));
            var before, after := Pushed(m, w, latest), Pushed(m, w, fixed);
            var own := latest[t][j].hotkey;
            && Get(after, own) >= Get(before, own)
            && (KeepsCompetitive(m, w, latest, fixed) ==> forall h :: h != own ==> Get(after, h) <= Get(before, h))
  {
    hide Pushed, ScoreOf, RaisedScores, NoCollision, KeepsCompetitive, EmptyOrUnit, BallotOf, Correlation.IsRoot;
    var score := ScoreOf(root, Revised(js, i, decision));
    var fixed := RaisedScores(latest, t, j, score);
    FixingNeverHurts(root, js, i, decision);
    OwnPushNeverFalls(m, w, latest, t, j, score);
    if KeepsCompetitive(m, w, latest, fixed) {
      forall h | h != latest[t][j].hotkey ensures Get(Pushed(m, w, fixed), h) <= Get(Pushed(m, w, latest), h) {
        OtherPushesNeverRise(m, w, latest, t, j, score, h);
      }
    }
  }
}
