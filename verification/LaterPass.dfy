/** What a raise does after its own refresh. While the vote stays the same the raised hotkey stays
    ahead, but before another vote it can cost it: here the sixth of a track overtakes a fifth who
    carries most of the average, that weight goes to the others, and in the next pass they are ahead. */
module LaterPass {
  import opened ChainIncentives
  import opened Emission
  import opened EmissionFloor
  import opened EmissionIncentives
  import opened EmissionTotals
  import opened Options
  import opened SixthPlace
  import opened SmoothedIncentives
  import opened Smoothing
  import opened Sums
  import opened ValidatorRuns
  import opened ValidatorState

  // ----- a second vote

  /** The average before the two passes: 0.9 on the fifth, the rest spread over the first four. */
  function Heavy(k: seq<string>): Weights
    requires |k| == 6
  {
    map[k[0] := 0.025, k[1] := 0.025, k[2] := 0.025, k[3] := 0.025, k[4] := 0.9]
  }

  /** The ranking of the second pass: the sixth first, the fifth last. */
  function Promoted(k: seq<string>): seq<string>
    requires |k| == 6
  {
    [k[5], k[0], k[1], k[2], k[3], k[4]]
  }

  lemma HeavyIsUnit(k: seq<string>)
    requires |k| == 6 && NoRepeats(k)
    ensures UnitVector(Heavy(k)) && Heavy(k).Keys == {k[0], k[1], k[2], k[3], k[4]}
    ensures Get(Heavy(k), k[4]) == 0.9 && Get(Heavy(k), k[5]) == 0.0
  {
    var one: Weights := map[][k[0] := 0.025];
    var two, three := one[k[1] := 0.025], one[k[1] := 0.025][k[2] := 0.025];
    var four := three[k[3] := 0.025];
    SumUpdate(map[], k[0], 0.025);
    SumUpdate(one, k[1], 0.025);
    SumUpdate(two, k[2], 0.025);
    SumUpdate(three, k[3], 0.025);
    SumUpdate(four, k[4], 0.9);
    assert Heavy(k) == four[k[4] := 0.9];
  }

  /** One hotkey of a settled or unsettled average, where no dust is dropped. */
  lemma EntryOf(prior: Weights, w: Weights, h: string)
    requires NonNegative(prior) && UnitVector(w) && NoDust(w) && h in w
    ensures 0.3 + 0.7 * Carried(prior, w.Keys) > 0.0
    ensures Get(Blend(prior, w), h)
            == Quotient(0.3 * w[h] + 0.7 * Get(prior, h), 0.3 + 0.7 * Carried(prior, w.Keys))
  {
    hide Carried, Quotient, Blend, NoDust;
    CompetitiveIs(prior, w);
    MixHasNoDust(prior, w);
    CarriedNonNegative(prior, w.Keys);
    BlendEntry(prior, w, h);
  }

  lemma CarriedNonNegative(prior: Weights, keys: set<string>)
    requires NonNegative(prior)
    ensures Carried(prior, keys) >= 0.0
  {
    SumNonNegative(map h | h in keys :: Get(prior, h));
  }

  /** The four votes in question: the first pass without and with the raise, and the second pass. */
  ghost predicate Votes(k: seq<string>, first: Weights, raised: Weights, second: Weights)
    requires |k| == 6
  {
    && UnitVector(first) && NoDust(first) && first.Keys == {k[0], k[1], k[2], k[3], k[4]} && first[k[4]] == 0.08
    && UnitVector(raised) && NoDust(raised) && raised.Keys == {k[0], k[1], k[2], k[3], k[5]} && raised[k[5]] == 0.08
    && UnitVector(second) && NoDust(second) && second.Keys == {k[5], k[0], k[1], k[2], k[3]} && second[k[5]] == 0.40
  }

  /** Without the raise the heavy fifth keeps 0.654 of the average, and takes it along when it goes. */
  lemma WithoutRaise(k: seq<string>, first: Weights, raised: Weights, second: Weights)
    requires |k| == 6 && NoRepeats(k) && Votes(k, first, raised, second)
    ensures Get(Blend(Blend(Heavy(k), first), second), k[5]) > 0.22
  {
    hide Carried, Quotient, Blend, NoDust;
    var x := Blend(Heavy(k), first);
    HeavyIsUnit(k);
    CarriedByAll(Heavy(k), first.Keys);
    EntryOf(Heavy(k), first, k[4]);
    WholeQuotient(0.3 * 0.08 + 0.7 * 0.9);
    BlendOfUnit(Heavy(k), first);
    BlendSupport(Heavy(k), first);
    var all := {k[0], k[1], k[2], k[3], k[4], k[5]};
    CarriedByAll(x, all);
    OneLeaves(x, all, k[4]);
    assert all - {k[4]} == second.Keys;
    EntryOf(x, second, k[5]);
    QuotientAbove(0.3 * 0.40 + 0.7 * Get(x, k[5]), 0.3 + 0.7 * Carried(x, second.Keys));
  }

  /** With the raise the first four share the heavy weight, and keep it in the second pass. */
  lemma WithRaise(k: seq<string>, first: Weights, raised: Weights, second: Weights)
    requires |k| == 6 && NoRepeats(k) && Votes(k, first, raised, second)
    ensures Get(Blend(Blend(Heavy(k), raised), second), k[5]) < 0.17
  {
    hide Carried, Quotient, Blend, NoDust;
    var x := Blend(Heavy(k), raised);
    HeavyIsUnit(k);
    var all := {k[0], k[1], k[2], k[3], k[4], k[5]};
    CarriedByAll(Heavy(k), all);
    OneLeaves(Heavy(k), all, k[4]);
    assert all - {k[4]} == raised.Keys == second.Keys;
    EntryOf(Heavy(k), raised, k[5]);
    QuotientIs(0.3 * 0.08, 0.37);
    BlendOfUnit(Heavy(k), raised);
    BlendSupport(Heavy(k), raised);
    CarriedByAll(x, second.Keys);
    EntryOf(x, second, k[5]);
    WholeQuotient(0.3 * 0.40 + 0.7 * Get(x, k[5]));
  }

  lemma WholeQuotient(x: real)
    ensures Quotient(x, 1.0) == x
  {
  }

  lemma QuotientIs(x: real, d: real)
    requires x == 0.024 && d == 0.37
    ensures Quotient(x, d) < 0.065
  {
  }

  lemma QuotientAbove(x: real, d: real)
    requires x >= 0.12 && 0.0 < d <= 0.5423
    ensures Quotient(x, d) > 0.22
  {
    CrossQuotients(x, d, 0.22, 1.0);
    WholeQuotient(0.22);
  }

  // ----- the two passes

  lemma PromotedKeys(k: seq<string>)
    requires |k| == 6 && NoRepeats(k)
    ensures NoRepeats(Promoted(k))
  {
  }

  /** A vote on one track with no contributors, as a weight vector without dust. */
  lemma PlainVote(m: Memory, w: World, latest: Scores)
    requires w.contributors == {}
    requires EmissionWeights(BallotOf(m, w, latest)) != map[]
    ensures UnitVector(EmissionWeights(BallotOf(m, w, latest))) && NoDust(EmissionWeights(BallotOf(m, w, latest)))
  {
    hide EmissionWeights, StandingsOf, Active;
    EmissionConserves(BallotOf(m, w, latest));
    NoDustUnlessCrowded(BallotOf(m, w, latest));
  }

  /** The state after the scored branch, where the writes succeed. */
  lemma StillBare(m: Memory, w: World, latest: Scores)
    requires Bare(m, w) && w.disk.writeScores && w.disk.writeWeights && latest.Keys == {Skills}
    ensures Bare(Scored(m, w, latest).memory, w)
    ensures Scored(m, w, latest).memory.ema == SmoothedVector(m, w, latest)
  {
    hide SmoothedVector, Held;
    assert Nonempty(m.carried).Keys <= {Skills};
  }

  lemma BarePush(m: Memory, w: World, latest: Scores)
    requires Bare(m, w)
    ensures Pushed(m, w, latest) == SmoothedVector(m, w, latest)
  {
    hide SmoothedVector;
  }

  /** The sixth is raised past the fifth in the first pass and pushed more by that refresh. In the
      second pass it leads, and is pushed less than 0.17 where it would have been pushed more than
      0.22 without the raise. */
  lemma LaterPushFalls(m: Memory, w: World, k: seq<string>)
    requires |k| == 6 && NoRepeats(k) && Bare(m, w)
    requires w.disk.writeScores && w.disk.writeWeights
    requires m.ema == Heavy(k)
    ensures var raised := RaisedScores(Latest(k), Skills, 5, 0.55);
            var after, after' := Scored(m, w, Latest(k)).memory, Scored(m, w, raised).memory;
            var next := Latest(Promoted(k));
            && Get(Pushed(m, w, raised), k[5]) > Get(Pushed(m, w, Latest(k)), k[5])
            && Get(Pushed(after', w, next), k[5]) < 0.17 < 0.22 < Get(Pushed(after, w, next), k[5])
  {
    hide EmissionWeights, BallotOf, Blend, NoDust, UnitVector, Heavy, Scored, Held, Bare, RaisedScores;
    var raised, next := RaisedScores(Latest(k), Skills, 5, 0.55), Latest(Promoted(k));
    var after, after' := Scored(m, w, Latest(k)).memory, Scored(m, w, raised).memory;
    NoOneContributes(m, w);
    RaisedKeys(k);
    StillBare(m, w, Latest(k));
    StillBare(m, w, raised);
    SixBefore(m, w, k);
    SixAfter(m, w, k);
    PromotedKeys(k);
    SixBefore(after, w, Promoted(k));
    SixBefore(after', w, Promoted(k));
    PlainVote(m, w, Latest(k));
    PlainVote(m, w, raised);
    PlainVote(after, w, next);
    PlainVote(after', w, next);
    BarePush(m, w, Latest(k));
    BarePush(m, w, raised);
    BarePush(after, w, next);
    BarePush(after', w, next);
    var first, second := EmissionWeights(BallotOf(m, w, Latest(k))), EmissionWeights(BallotOf(m, w, raised));
    WithoutRaise(k, first, second, EmissionWeights(BallotOf(after, w, next)));
    WithRaise(k, first, second, EmissionWeights(BallotOf(after', w, next)));
    FirstPush(k, first, second);
  }

  lemma RaisedKeys(k: seq<string>)
    requires |k| == 6
    ensures RaisedScores(Latest(k), Skills, 5, 0.55).Keys == {Skills}
  {
  }

  lemma FirstPush(k: seq<string>, first: Weights, raised: Weights)
    requires |k| == 6 && NoRepeats(k)
    requires first.Keys == {k[0], k[1], k[2], k[3], k[4]}
    requires UnitVector(raised) && NoDust(raised) && k[5] in raised
    ensures Get(Blend(Heavy(k), raised), k[5]) > Get(Blend(Heavy(k), first), k[5])
  {
    hide Blend, Heavy;
    HeavyIsUnit(k);
    BlendSupport(Heavy(k), first);
    assert k[5] !in first;
    BlendOfUnit(Heavy(k), raised);
    KeptPositive(Heavy(k), raised, k[5]);
  }

  lemma KeptPositive(prior: Weights, w: Weights, h: string)
    requires NonNegative(prior) && NoDust(w) && h in w
    ensures Get(Blend(prior, w), h) > 0.0
  {
    hide Blend, Quotient;
    assert Mixed(w[h], 0.0) > DUST && Get(prior, h) >= 0.0;
    assert h in DropDust(Mix(prior, w));
    KeptIsNonNegative(prior, w);
    BlendEntry(prior, w, h);
    CrossQuotients(Get(DropDust(Mix(prior, w)), h), Competitive(prior, w), 0.0, 1.0);
    ZeroShare(1.0);
  }

  // ----- the same vote again and again

  /** The scores a well-formed answer serves. */
  function OfBackend(w: World): Scores
    requires w.reply.Told?
  {
    Served(w.reply).value
  }

  lemma OfBackendIs(w: World)
    requires w.reply.Told?
    ensures Served(w.reply) == Some(OfBackend(w))
  {
  }

  /** The backend serves the same scores but for one row of one track. */
  ghost predicate ServesRaise(w: World, v: World, t: Track, j: nat, score: real) {
    && w.reply.Told? && v.reply.Told? && v == w.(reply := w.reply.(tracks := v.reply.tracks))
    && var served := OfBackend(w);
       t in served && j < |served[t]| && score >= served[t][j].score
       && OfBackend(v) == RaisedScores(served, t, j, score)
  }

  /** Such a raise is a raise on the ballot of a timed refresh. */
  lemma ServedOnBallot(m: Memory, w: World, v: World, t: Track, j: nat, score: real)
    requires ServesRaise(w, v, t, j, score)
    ensures var b := BallotOf(m, w, OfBackend(w));
            && t in b.scores && b.scores[t] == OfBackend(w)[t]
            && BallotOf(m, v, OfBackend(v)) == RaisedBallot(b, t, j, score)
  {
    hide Served, OfBackend, Merged, Salt;
    var served := OfBackend(w);
    OfBackendIs(w);
    OfBackendIs(v);
    TwiceMerged(m.carried, served, t, Rescored(served[t], j, score));
  }

  lemma TwiceMerged(carried: Scores, served: Scores, t: Track, rows: seq<Row>)
    requires t in served
    ensures var merged := Merged(carried, Some(served), served);
            t in merged && merged[t] == served[t]
            && Merged(carried, Some(served[t := rows]), served[t := rows]) == merged[t := rows]
  {
    hide Nonempty;
  }

  ghost predicate SteadyRaise(m: Memory, w: World, v: World, t: Track, j: nat, score: real) {
    && Steady(m, w) && !m.running && EmptyOrUnit(m.ema) && ServesRaise(w, v, t, j, score)
    && NoCollision(w.digest, SaltOf(BallotOf(m, w, OfBackend(w)), t), OfBackend(w)[t])
    && NoDust(VotedMap(m, w)) && NoDust(VotedMap(m, v))
  }

  lemma SteadyVoteMoves(m: Memory, w: World, v: World, t: Track, j: nat, score: real)
    requires SteadyRaise(m, w, v, t, j, score)
    ensures ZeroSumMove(VotedMap(m, w), VotedMap(m, v), OfBackend(w)[t][j].hotkey)
    ensures VotedMap(m, w) != map[] ==> UnitVector(VotedMap(m, w)) && UnitVector(VotedMap(m, v))
  {
    hide EmissionWeights, BallotOf, Served, OfBackend, NoDust, StandingsOf, EmptyOrUnit, NoCollision, UnitVector,
         VotedMap, PlanOf;
    VotedIs(m, w);
    VotedIs(m, v);
    var b := BallotOf(m, w, OfBackend(w));
    ServedOnBallot(m, w, v, t, j, score);
    BallotDigest(m, w, OfBackend(w));
    ZeroSum(b, t, j, score);
    EmissionConserves(b);
    EmissionConserves(RaisedBallot(b, t, j, score));
    VotedIffQualified(b);
    VotedIffQualified(RaisedBallot(b, t, j, score));
    if VotedMap(m, w) != map[] {
      StaysQualified(b, t, j, score);
    }
  }

  lemma VotedIs(m: Memory, w: World)
    requires w.reply.Told?
    ensures VotedMap(m, w) == EmissionWeights(BallotOf(m, w, OfBackend(w)))
  {
  }

  lemma LastRefresh(n: nat, prior: Weights, w: Weights)
    requires n > 0
    ensures Refreshed(n, prior, w) == Blend(Refreshed(n - 1, prior, w), w)
  {
  }

  /** Over any number of timed refreshes against a backend that serves the raise, the raised hotkey's
      entry in the average is never below what it would be without the raise. */
  lemma SteadyRaiseNeverCosts(m: Memory, w: World, v: World, t: Track, j: nat, score: real, n: nat)
    requires SteadyRaise(m, w, v, t, j, score) && n > 0
    ensures var own := OfBackend(w)[t][j].hotkey;
            && Get(AfterRefreshes(m, v, n).ema, own) >= Get(AfterRefreshes(m, w, n).ema, own)
            && (AfterRefreshes(m, w, n).ema == map[] ==>
                  AfterRefreshes(m, v, n).ema in {map[], map[own := 1.0]})
            && (AfterRefreshes(m, w, n).ema != map[] ==> AfterRefreshes(m, v, n).ema != map[])
  {
    hide AfterRefreshes, Served, OfBackend, VotedMap, Blend, NoDust, UnitVector, Refreshed, NoCollision, ZeroSumMove;
    var own := OfBackend(w)[t][j].hotkey;
    var e, e' := VotedMap(m, w), VotedMap(m, v);
    SteadyRefreshes(m, w, n);
    SteadyRefreshes(m, v, n);
    SteadyVoteMoves(m, w, v, t, j, score);
    LastRefresh(n, m.ema, e);
    LastRefresh(n, m.ema, e');
    if e == map[] {
      BlendSupport(Refreshed(n - 1, m.ema, e), e);
      FirstInAverage(Refreshed(n - 1, m.ema, e'), e, e', own);
      BlendNonNegative(Refreshed(n - 1, m.ema, e'), e', own);
    } else {
      OwnRefreshedNeverFalls(n, m.ema, e, e', own);
      RefreshedSettled(n, m.ema, e);
      RefreshedSettled(n, m.ema, e');
      UnitFacts(Refreshed(n, m.ema, e));
      UnitFacts(Refreshed(n, m.ema, e'));
    }
  }

  /** What a steady timed refresh pushes. */
  lemma SteadyPush(m: Memory, w: World)
    requires Steady(m, w) && !m.running
    ensures var after := RefreshFrom(m, w, w);
            && after.pushes == [Held(after.memory, after.memory.ema)]
            && after.memory.reservedHotkey == w.reply.reservedHotkey
            && after.memory.reservedShare == w.reply.reservedShare
  {
    hide EmissionWeights, Blend, ApplyReserved, Merged, Salt, Served;
    ServedIsNonempty(w.reply);
  }

  /** And so the same holds for what every one of these refreshes pushes for it. */
  lemma SteadyRaisePushesNoLess(m: Memory, w: World, v: World, t: Track, j: nat, score: real, n: nat)
    requires SteadyRaise(m, w, v, t, j, score)
    ensures var own := OfBackend(w)[t][j].hotkey;
            var before, after := RefreshFrom(AfterRefreshes(m, w, n), w, w), RefreshFrom(AfterRefreshes(m, v, n), v, v);
            |before.pushes| == 1 && |after.pushes| == 1 && Get(after.pushes[0], own) >= Get(before.pushes[0], own)
  {
    hide RefreshFrom, Served, OfBackend, VotedMap, Blend, NoDust, UnitVector, NoCollision, Held, ApplyReserved,
         BallotOf;
    var own := OfBackend(w)[t][j].hotkey;
    SteadyRefreshes(m, w, n);
    SteadyRefreshes(m, v, n);
    SteadyPush(AfterRefreshes(m, w, n), w);
    SteadyPush(AfterRefreshes(m, v, n), v);
    SteadyRaiseNeverCosts(m, w, v, t, j, score, n + 1);
    AveragesStayUnit(m, w, n + 1);
    AveragesStayUnit(m, v, n + 1);
    var x, y := AfterRefreshes(m, w, n + 1), AfterRefreshes(m, v, n + 1);
    SameFlagsHold(x, y, y.ema);
    if x.ema == map[] {
      HeldNothing(x, own);
      HeldAlone(x, own, own);
    } else {
      HeldOrder(x, x.ema, y.ema, own);
    }
  }

  lemma AveragesStayUnit(m: Memory, w: World, n: nat)
    requires Steady(m, w) && !m.running && n > 0
    ensures EmptyOrUnit(AfterRefreshes(m, w, n).ema)
  {
    hide AfterRefreshes, VotedMap, Blend, EmptyOrUnit, Refreshed;
    SteadyRefreshes(m, w, n);
    LastRefresh(n, m.ema, VotedMap(m, w));
    BlendIsUnit(Refreshed(n - 1, m.ema, VotedMap(m, w)), VotedMap(m, w));
  }

  lemma SameFlagsHold(m: Memory, n: Memory, v: Weights)
    requires m.reservedHotkey == n.reservedHotkey && m.reservedShare == n.reservedShare
    ensures Held(m, v) == Held(n, v)
  {
  }
}
