# Phylax scoring and emission: a verified model

This project models the parts of Phylax that turn agent runs into weights on the chain, and proves
what they promise. Numbers that the program keeps as floats are exact reals; strings are sequences
of code points.

## What is modelled

**From scores to weights.** `Emission` gives the allocator in closed form: a track's rows sorted by
score and salted digest, cut at the threshold, the first five paid 40/25/15/12/8 percent (the leading
slice, renormalised), the shares of idle tracks spread over the qualified ones, 95% performance and 5%
contribution. `EmissionAlgorithm` is `compute_emission_weights` with its
dictionaries updated entry by entry in loops and its two normalisations, proved to reach the closed form. `EmissionTotals` proves
conservation, `EmissionIncentives` that the order of completion is irrelevant and that raising a score
is a zero-sum move of the allocation, `EmissionFloor` how small a paid weight can be. `EmissionMeaning` reads
the same allocation off the ballot alone: who clears a threshold, which place a row takes, and the weight that
comes to.

**From the allocation to the chain.** Smoothing divides by the sum it keeps, so a hotkey that drops out
of the vote gives its carried weight to everybody left. `SmoothedIncentives` and `ChainIncentives` prove
what a raise does to the vector that the refresh with those scores pushes: the raised hotkey never loses
in it, and nobody else gains unless that sum shrinks, which for an untouched hotkey is exact.
`Displacement` says who can leave (at most the fifth of that track) and when the sum shrinks; in
`SixthPlace` the first of a track gains because the sixth overtakes the fifth. `LaterPass` looks past that
refresh: while the backend goes on serving the raised scores the raised hotkey is never behind, but before
another vote the raise can cost it, because the average it is blended into changed too; an input is
given. `VerdictIncentive` joins this to the scoring side: a fixed verdict costs its agent nothing in the
allocation and nothing in the vector pushed with it.

**The validator.** `Validator` is the `PhylaxValidator` object: polls, evaluation passes and weight
refreshes updating its fields and its state files. Each method is proved equal to a step function of
`ValidatorState`; `Smoothing` gives the moving average and the reserved share; `ValidatorRuns` and
`RoundLifecycle` prove what holds over every sequence of polls and refreshes, with any results, any
failing write and any answer of the backend: none, a well-formed one, one with a row whose score is not a
number (which raises after its flags took effect), or one that is no dictionary (which raises at once).
An error that reaches the run loop ends the event. `RunOrder` proves that permuting the score rows in
every answer and every pass changes nothing in such a run but the order of the carried rows. The tick of the run loop is one event: a poll,
or a timed refresh. `PassMeaning` says what a pass comes to in terms of the poll: which tracks it evaluates, how
it ends, and that exactly the rows of the tracks it finished are put to the vote.

**Scoring one agent.** `RepetitionVote` (lower median of verdict ordinals), `Correlation` (clamped
Matthews correlation), `Matching` (the greedy matcher used by both finding scorers), `FindingScores`
(F2 and F1 over its hits, the blend of labelled dimensions), `SupplyChain` (the flattened
supply-chain report), `VulnerabilityMatching` (when two
vulnerability records match), `AgentScore` (repetitions under the wall cap, the task loops, the final
score), `EditDistance` (the reference agent's typosquat test), `Draw` (the two task draws) and
`Watchdog` (the container poll loop). `RepetitionMeaning`, `AgentMeaning`, `EvidenceMeaning` and `MatchMeaning`
state the results in terms of the inputs: which repetitions run, which tasks are counted where, what a false
report costs, and what of two records has to agree.

**The inference proxy.** `InferenceProxy` has the two shared tables as an object whose methods are the
critical sections, and a transition system in which any number of handlers run them interleaved. `ProxyLedger`
says what a row adds up to and what registering or resetting a nonce starts over.

`Sorting`, `Sums`, `Collections` and `Options` are shared helpers.

Where the documentation and the code differ, the model follows the code: a task without a completed
repetition is left out of the confusion matrix (neurons/validator.py:643-644), although
docs/mechanism.md:164-165 says it counts as incorrect. So silence never scores below a wrong verdict
(`AgentScore.WithholdingNeverHurts`).

## Assumptions written into the statements

- SHA-256 is a function `digest` to integers in the order of the hexadecimal digests; theorems about
  ties ask that it tells the hotkeys of one track's rows apart (`NoCollision`), and over a whole run the
  hotkeys that occur in it (`TellsApart`).
- The square root is a function `root` known by `root(x) * root(x) == x` for `x >= 0` (`IsRoot`).
- `random.Random(seed).sample` is a function of the seed, the pool and the count that returns that
  many elements of the pool (`IsSampler`).
- Which characters are blank or digits, and what a string is in lower case, is up to the text library
  (`Text`).
- Backend answers, evaluation results, durations, the clock and the success of each state-file write
  are inputs (`World`, `Poll`, `Rep`, `View`). A later poll is not earlier than the end of the pass
  before it (`Clocked`); a sleep advances the clock by at least its interval (`Advances`).

## Model

| member | source | states |
|---|---|---|
| Emission.RatesTotalOne | phylax/analysis/scoring.py:147-150 | for one to five paid places the renormalised leading slice of the split adds up to exactly one |
| Emission.PrizesShape | phylax/analysis/scoring.py:145-150 | the prizes of a track are positive, never rise with the place, and together are exactly what the track pays out |
| Emission.PrizesDiluted | phylax/analysis/scoring.py:147-150 | one more paid place on a track raises no place already paid, so a newcomer cannot profit the others |
| EmissionTotals.PayoutsTotalOne | phylax/analysis/scoring.py:138-146 | every qualified track pays at least its own share and the payouts of all qualified tracks total exactly one, whichever tracks are idle |
| EmissionTotals.TrackPayouts | phylax/analysis/scoring.py:138-150 | the hotkeys of a qualified track collect exactly its share plus an equal part of the idle shares, and over the tracks the incomes sum to one |
| EmissionTotals.OwedTotal | phylax/analysis/scoring.py:152-165 | after pooling 95/5 the amounts owed still total exactly one over any set containing everyone paid |
| EmissionTotals.EmissionConserves | phylax/analysis/scoring.py:112-166 | the vector is empty when nobody qualifies; otherwise all entries are positive and sum to one |
| EmissionIncentives.ContributorShare | phylax/analysis/scoring.py:152-166 | an eligible active contributor gets exactly 0.05 / (number eligible) on top of 95% of its performance income; with none eligible the vector is performance alone |
| EmissionMeaning.RankedIffCleared | phylax/analysis/scoring.py:123-131 | a row is ranked on a track if and only if it is one of the track's rows, its score is positive and it reaches the track's threshold, if there is one |
| EmissionMeaning.ActiveIffCleared | phylax/analysis/scoring.py:123-134 | a hotkey is active exactly when some row of it on some track clears that threshold |
| EmissionMeaning.PaidOnlyIfCleared | phylax/analysis/scoring.py:112-166 | nobody has a weight without such a row |
| EmissionMeaning.PlaceIsAhead | phylax/analysis/scoring.py:124-131 | the place of a cleared row is the number of cleared rows of its track with a higher score, or the same score and a lower digest of salt, track and hotkey |
| EmissionMeaning.PaidIffFewAhead | phylax/analysis/scoring.py:124-135 | a cleared row is in a paid place exactly when fewer than five of them are ahead of it |
| EmissionMeaning.TrackIncomeExactly | phylax/analysis/scoring.py:137-150 | what a track pays a hotkey with one row there, in numbers: its share of 0.30, 0.25, 0.225 or 0.225 with an equal part of the idle shares, times the rate of the place |
| EmissionMeaning.WeightExactly | phylax/analysis/scoring.py:112-166 | the weight of a hotkey with at most one row a track, in numbers read off the ballot: the sum of those incomes, or 95% of it and an equal part of 5% for the active contributors |
| EmissionMeaning.PaidExactly | phylax/analysis/scoring.py:112-166 | the hotkeys with a weight are exactly those with a cleared row in the first five of a track and the active contributors |
| EmissionAlgorithm.Qualify | phylax/analysis/scoring.py:118-135 | the qualifying loop leaves the first five of each nonempty ranking and the set of every hotkey that cleared a threshold, paid or not; `EmissionMeaning` says which these are |
| EmissionAlgorithm.PayTrack | phylax/analysis/scoring.py:145-150 | the inner loop adds each place's prize to what its hotkey already holds, adds the track's hotkeys and touches no other entry |
| EmissionAlgorithm.PayTracks | phylax/analysis/scoring.py:137-150 | the payment loops leave exactly the paid hotkeys, each with its income over all tracks |
| EmissionAlgorithm.Rescale | phylax/analysis/scoring.py:152-155 | the in-place loop scales every entry once and adds no key |
| EmissionAlgorithm.PayContributors | phylax/analysis/scoring.py:157-161 | every eligible hotkey gets one equal part exactly once, new entries included, and nobody else changes |
| EmissionAlgorithm.PoolShares | phylax/analysis/scoring.py:152-166 | incomes that sum to one, rescaled, topped up and normalised again, end as what each hotkey is owed |
| EmissionAlgorithm.ComputeEmissionWeights | phylax/analysis/scoring.py:112-166 | the whole run of updates and normalisations reaches the closed-form allocation, which `EmissionMeaning.WeightExactly` gives in numbers |
| EmissionIncentives.OrderIndependence | phylax/analysis/scoring.py:124-135 | permuting the rows of any track, as completion order does, leaves every emitted weight unchanged |
| RunOrder.RunsIgnoreOrder | neurons/validator.py:449-479 | over every run, permuting the rows of every finished track and every answer changes no average, no round and no vector pushed, and of the carried scores only the order |
| EmissionIncentives.RaiseMoves | phylax/analysis/scoring.py:124-131 | raising a score moves that row forward past some others, or into the ranking, and leaves all others in their order |
| EmissionIncentives.PayoutShrinks | phylax/analysis/scoring.py:138-146 | one more qualified track never raises what any other qualified track pays |
| EmissionIncentives.OthersNeverGain | phylax/analysis/scoring.py:112-166 | after a raise no other hotkey is owed more, through rank changes, threshold crossings, a newly qualified track and a newly active contributor |
| EmissionIncentives.OwnNeverFalls | phylax/analysis/scoring.py:112-166 | after a raise the raised hotkey is owed no less |
| EmissionIncentives.ZeroSum | phylax/analysis/scoring.py:112-166 | raising one score of one agent never raises any other hotkey's weight in the allocation and never lowers its own |
| EmissionFloor.WinnersFloor | phylax/analysis/scoring.py:144-150 | every hotkey in a paid place has an income of at least 0.018 before pooling |
| EmissionFloor.NoDustUnlessCrowded | phylax/analysis/scoring.py:152-166 | with at most ten million eligible contributors no emitted weight is small enough for smoothing to drop |
| EmissionFloor.AverageIsNotEmpty | neurons/validator.py:1032-1039 | where anybody is paid and nothing negative is carried, dropping dust never empties the average |
| SmoothedIncentives.OwnShareNeverFalls | neurons/validator.py:1032-1039 | whatever is carried, the smoothed share of the hotkey that gained in a zero-sum move never falls |
| SmoothedIncentives.OthersNeverRise | neurons/validator.py:1032-1039 | nobody else's smoothed share rises as long as the competitive sum does not shrink |
| SmoothedIncentives.UntouchedRisesIff | neurons/validator.py:1037-1039 | a hotkey whose voted weight did not change gains exactly when the competitive sum shrinks |
| SmoothedIncentives.ShareMovesIff | neurons/validator.py:1032-1039 | any share against any other, touched or not, whatever is carried in either: it is larger exactly when its kept entry times the other sum is |
| SmoothedIncentives.OwnRefreshedNeverFalls | neurons/validator.py:1032-1040 | over any number of refreshes with the moved vote instead of the old one, the hotkey that gained is never behind |
| SmoothedIncentives.AheadStaysAhead | neurons/validator.py:1032-1039 | before another vote a hotkey that is ahead in the average stays ahead as long as the next competitive sum is no larger than it would have been |
| SmoothedIncentives.CompetitiveIs | neurons/validator.py:1032-1037 | without dust that sum is 0.3 and 0.7 of the carried weight of the voted hotkeys |
| SmoothedIncentives.CompetitiveAtMost | neurons/validator.py:1032-1037 | dropping dust only makes that sum smaller |
| ChainIncentives.PushedExactly | neurons/validator.py:983-1044 | with scores, unpaused and no round in flight `set_weights` pushes exactly one vector, the one these theorems speak of |
| ChainIncentives.OwnPushNeverFalls | neurons/validator.py:1023-1044 | raising one score of a pass never lowers the raised hotkey's entry in the vector pushed with those scores, through merging, allocation, smoothing and the reserved share |
| ChainIncentives.OtherPushesNeverRise | neurons/validator.py:1023-1044 | nor does it raise anybody else's entry in that vector, as long as the competitive sum does not shrink |
| ChainIncentives.UntouchedPushRisesIff | neurons/validator.py:1023-1044 | for a hotkey in the average whose voted weight the raise leaves alone that condition is exact |
| ChainIncentives.PushRisesIff | neurons/validator.py:1023-1044 | for every hotkey, touched or not, the exact condition: the kept entries, each times the other sum |
| ChainIncentives.NobodyLeavesKeepsCompetitive | neurons/validator.py:1032-1039 | where the raised vote has no dust, as with at most ten million eligible contributors, the sum does not shrink if no hotkey with carried weight leaves the vote |
| Displacement.MoveDisplacesFifth | phylax/analysis/scoring.py:124-135 | when one row of a ranking moves forward, only the fifth can lose its paid place, and only while the moving hotkey has one |
| Displacement.OnlyFifthLeaves | phylax/analysis/scoring.py:118-166 | a raise takes at most one hotkey out of the vote: the fifth of that track, with no other paid place and not eligible for the pool, while the raised hotkey is paid there |
| Displacement.ShrinksExactly | neurons/validator.py:1032-1039 | in votes without dust the competitive sum shrinks if and only if that fifth leaves and carries more than the raised hotkey brings in |
| SixthPlace.SixthOvertakesFirstProfits | neurons/validator.py:1032-1044 | the condition is needed: six agents, the sixth raised past the fifth, and the untouched first is pushed more than its 0.40 |
| LaterPass.LaterPushFalls | neurons/validator.py:1032-1044 | beyond its own refresh a raise can cost the raised hotkey: six agents, two passes, the first push rises and the second falls from above 0.22 to below 0.17 |
| LaterPass.SteadyRaiseNeverCosts | neurons/validator.py:1267-1268 | over any number of timed refreshes against a backend serving the raise, in votes without dust, the raised hotkey's entry in the average is never below what it would be without |
| LaterPass.SteadyRaisePushesNoLess | neurons/validator.py:1267-1268 | and neither is its entry in any vector these refreshes push |
| VerdictIncentive.FixedVerdictInAllocation | neurons/validator.py:632-691 | turning one wrong verdict into a right one, findings unchanged, never lowers that agent's share of the allocation and never raises anybody else's |
| VerdictIncentive.FixedVerdictInThatPush | neurons/validator.py:632-691 | nor does it lower the agent's entry in the vector pushed with these scores; the others' entries in it never rise unless the competitive sum shrinks |
| Smoothing.BlendIsUnit | neurons/validator.py:1032-1040 | whatever was carried and whatever is voted, the persisted average is empty or a non-negative vector of sum one |
| Smoothing.BlendContracts | neurons/validator.py:1032-1039 | once the carried support lies inside the voted one, a refresh multiplies every gap by exactly 0.7 and keeps sum and support |
| Smoothing.BlendFromNothing | neurons/validator.py:1032-1039 | with nothing carried a refresh lands exactly on the voted map |
| Smoothing.BlendExactly | neurons/validator.py:1032-1039 | a hotkey is in the average exactly if it is voted and 0.3 of its vote with 0.7 of what was carried exceed a billionth, and the entries are in proportion to these amounts |
| Smoothing.RefreshesConverge | neurons/validator.py:1032-1039 | n refreshes with one map shrink every gap by exactly 0.7 to the n |
| Smoothing.DecayRate | neurons/validator.py:1032-1039 | that factor is positive and at most 7 / (7 + 3 n), so the gaps vanish |
| Smoothing.ReservedIsUnit | phylax/analysis/scoring.py:173-185 | reserving keeps a weight vector a weight vector, and its final normalisation changes nothing |
| Smoothing.ReservedFromNothing | phylax/analysis/scoring.py:173-185 | reserving out of an empty vector votes the reserved hotkey alone |
| Smoothing.ReservedExactly | phylax/analysis/scoring.py:173-185 | out of a weight vector the reserved hotkey gets its share on top and everybody keeps the rest in proportion; without a hotkey or with a share outside (0, 1) nothing changes |
| Smoothing.Normalise | neurons/validator.py:1037-1039 | divides by the sum only where it is positive |
| Smoothing.ApplyReservedShare | phylax/analysis/scoring.py:173-185 | the dictionary update computes that reserved vector, and leaves the weights alone when no hotkey or a share outside (0, 1) is set |
| Validator.PhylaxValidator.constructor | neurons/validator.py:83-115 | a fresh validator has nothing done, failed, running or reserved, and the average, scores and epoch of its state files |
| Validator.PhylaxValidator.ResetCarriedState | neurons/validator.py:208-221 | drops the carried scores and the average and records the epoch, each only as far as its file operation succeeds |
| Validator.PhylaxValidator.FollowFlags | neurons/validator.py:521-538 | the flags follow the answer, and an epoch other than the one on disk resets the carried state |
| Validator.PhylaxValidator.ScoresFromServer | neurons/validator.py:513-548 | silence changes nothing, a bad row raises after the flags took effect, and rows without a hotkey are dropped |
| Validator.PhylaxValidator.AllTrackScores | neurons/validator.py:252-261 | scores of this pass override served ones, which override carried ones, and the merge is what is carried next |
| Validator.PhylaxValidator.SetWeights | neurons/validator.py:983-1044 | raising, paused, in-flight, no-scores and scored branches: the exact new state and the exact vectors pushed |
| Validator.PhylaxValidator.VoteScores | neurons/validator.py:1024-1044 | the scored branch persists the blend before the reserved share and pushes it after |
| Validator.PhylaxValidator.BlendedWeights | neurons/validator.py:1024-1039 | allocation, mixing, dust removal and normalisation in this order give the blend of the allocation into the prior |
| Validator.PhylaxValidator.Refresh | neurons/validator.py:1267-1268 | a timed refresh reads the backend, then sets weights from what it served |
| Validator.PhylaxValidator.RunRound | neurons/validator.py:338-376 | the track loop collects seeds, failures and scores, abstains when nothing was scored, and leaves the failed set alone when the block is unknown; `PassMeaning.PassExactly` says what that comes to |
| Validator.PhylaxValidator.ExecuteRound | neurons/validator.py:1143-1166 | holds the last winners while the pass runs, then sets the new weights or the held ones again; an error in the pass or after it leaves the in-flight flag off, one before the pass leaves it on |
| Validator.PhylaxValidator.PollTracks | neurons/validator.py:1196-1232 | a pass is clear to start exactly when no track answers with an error or an open submission window, with the open rounds not yet done |
| Validator.PhylaxValidator.BeginRound | neurons/validator.py:1187-1245 | one poll: the new state, the vectors pushed, whether it raised, and true exactly when a pass completed |
| PassMeaning.PassExactly | neurons/validator.py:351-376 | for every poll: the pass breaks exactly when the block is known and some track crashes, abstains exactly when the block is unknown or none crashes and none finishes, and otherwise completes with exactly the rows of the tracks that finished; the failed tracks and the drawn seeds are those of the runs |
| PassMeaning.BrokenPass | neurons/validator.py:354-365 | a pass that breaks has on record exactly the failures and seeds of the tracks up to the first that crashed |
| PassMeaning.StartsExactly | neurons/validator.py:1187-1232 | a poll starts a pass exactly when the retry time has come, no track is unreachable, rejected or in submission, and some track is open on a round that is not done; otherwise it changes nothing |
| PassMeaning.EvaluatesExactly | neurons/validator.py:1222-1225 | the pass evaluates exactly these tracks, each under its own id or, without one, under the block's |
| PassMeaning.ServedExactly | neurons/validator.py:539-548 | of an answer exactly the rows that name a hotkey count, and a track without one is not served |
| PassMeaning.BallotExactly | neurons/validator.py:1024-1030 | the rows of a track on the ballot: those of the pass, else the served, else the carried ones if any; the thresholds are 0.50 for repositories and 0.20 elsewhere |
| PassMeaning.SaltExactly | neurons/validator.py:1028-1030 | the salt is the recorded seeds joined in the lexicographic order of the track names |
| PassMeaning.PausedExactly | neurons/validator.py:987-1000 | while emissions are paused the reserved hotkey is voted alone, or nothing if there is none, and nothing else happens |
| PassMeaning.OverExactly | neurons/validator.py:1150-1166 | the state a pass hands to its vote: its own seeds and failures, and the average, scores and flags the answer before it left |
| PassMeaning.PassIsPushed | neurons/validator.py:1143-1166 | where no answer raises and emissions are not paused at the end, a pass that completes pushes last the vector of exactly the rows of the tracks that finished, and carries their merge |
| PassMeaning.RoundsExactly | neurons/validator.py:1234-1245 | where no answer raises, a poll raises exactly when its pass breaks, settles exactly the ids of tracks that did not fail in a pass that completes, and is put off by 300 seconds exactly when the pass abstains or completes with a failed track |
| ValidatorRuns.EveryVoteIsUnit | neurons/validator.py:983-1044 | over every run from an empty or unit-sum average, the average stays so and every vector pushed is empty or non-negative with sum one |
| ValidatorRuns.CallAverage | neurons/validator.py:983-1044 | the exact average one `set_weights` leaves: the blend in the written, unpaused, scored branch with no round in flight, nothing on a dropped epoch, else unchanged |
| ValidatorRuns.EventAverage | neurons/validator.py:1143-1166 | the exact average after any event, completed polls and timed refreshes included, from its at most two readings of the backend |
| ValidatorRuns.AverageUntouched | neurons/validator.py:983-1044 | over every stretch of a run whose readings neither drop the average on a changed epoch nor reach that branch, the average stays as it was |
| ValidatorRuns.FlagAfter | neurons/validator.py:1151-1163 | after a poll that starts a pass the in-flight flag is on exactly when the backend's answer raised before the pass; nothing else moves it |
| ValidatorRuns.StuckFlagHoldsWinners | neurons/validator.py:1002-1012 | while the flag is on a timed refresh votes the carried winners or nothing, whatever scores are served in an answer that neither raises nor pauses |
| ValidatorRuns.AbstainingKeepsAverage | neurons/validator.py:1143-1166 | a poll whose pass abstains, breaks off or never starts leaves the average untouched while the epoch is unchanged |
| ValidatorRuns.AbstainingHoldsWinners | neurons/validator.py:1151-1161 | a pass that abstains pushes the carried winners when it starts and again when it ends, and nothing it scored meanwhile |
| ValidatorRuns.ReservedShareNeverCompounds | neurons/validator.py:1040-1044 | over every run the average, the carried scores and the done rounds are what they would be had nothing ever been reserved |
| ValidatorRuns.SteadyRefreshes | neurons/validator.py:1267-1268 | n timed refreshes against an unchanging backend are exactly n blends of one weight map, although scores are carried from one to the next |
| ValidatorRuns.SteadyFromNothing | neurons/validator.py:1032-1044 | from an empty average the first timed refresh lands on the weight map and later ones stay there |
| ValidatorRuns.SteadyConvergence | neurons/validator.py:1032-1044 | after the first timed refresh every further one multiplies each gap to the voted weight by exactly 0.7, and the average keeps sum one |
| RoundLifecycle.DoneExactly | neurons/validator.py:1240-1242 | over every run the done rounds are exactly those a completed pass executed without that track failing |
| RoundLifecycle.DoneGrows | neurons/validator.py:1187-1245 | the done set never loses a round |
| RoundLifecycle.NeverExecutedAgain | neurons/validator.py:1222-1242 | a round whose track did not fail in a completed pass is never executed again |
| RoundLifecycle.ExecutesOnlyOpenRounds | neurons/validator.py:1187-1232 | a pass executes only open rounds that are not done, never while some track is unreachable, rejected or in submission, and not before the retry time |
| RoundLifecycle.StaysEligibleIff | neurons/validator.py:1240-1242 | the id of an executed track stays eligible after a completed pass if and only if every executed track with the same id failed |
| RoundLifecycle.FailedStaysEligible | neurons/validator.py:1240-1244 | with ids distinct across tracks, a failed track's id stays eligible |
| RoundLifecycle.DistinctExactly | neurons/validator.py:1222-1242 | failed tracks stay eligible whatever the pass comes to if and only if the ids of the open tracks are distinct |
| RoundLifecycle.SharedIdWritesOffTheFailure | neurons/validator.py:1222 | ids are shared: two open tracks without an id of their own both take the block's, and the one that fails alone is written off |
| RoundLifecycle.RetryTimeHolds | neurons/validator.py:1187-1245 | over every run on a monotonic clock the retry time never moves back |
| RoundLifecycle.NotRetriedWithin300 | neurons/validator.py:1188-1189 | after a pass that abstained or had a failed track, no pass starts within 300 seconds of its end |
| RepetitionVote.MedianBelow | neurons/validator.py:827-828 | the vote is below a verdict exactly when more than the lower half of the repetitions are |
| RepetitionVote.VoteIgnoresOrder | neurons/validator.py:827-828 | the vote depends on the multiset of verdicts alone |
| RepetitionVote.VoteStaysInMajorityRange | neurons/validator.py:827-828 | the vote cannot leave a range of verdicts that a strict majority voted inside |
| RepetitionVote.MajorityWins | neurons/validator.py:827-828 | a strict majority for one verdict is the verdict |
| RepetitionVote.EvenSplitTakesLower | neurons/validator.py:827-828 | on an even split between two verdicts the milder one is taken |
| RepetitionVote.VoteIsMonotone | neurons/validator.py:827-828 | raising one repetition's verdict never lowers the vote |
| AgentScore.VoteIsCast | neurons/validator.py:827-828 | the decision is one of those cast, and its ordinal is the lower median of theirs |
| RepetitionMeaning.VoteExactly | neurons/validator.py:827-828 | the decision is ALLOW if at least half of the completed repetitions allow, else WARN if at least half allow or warn, else BLOCK |
| Correlation.ClampedRange | phylax/analysis/scoring.py:90-98 | for all counts the value is in [0, 1]; 0 exactly when tp tn <= fp fn, so for every constant predictor; 1 exactly when nothing is wrong and both classes are present |
| Correlation.OrderBySquares | phylax/analysis/scoring.py:90-98 | two matrices of positive covariance compare as their squared, cross-multiplied integers |
| Correlation.ClampedExactly | phylax/analysis/scoring.py:90-98 | the value is 0 unless tp tn > fp fn, and otherwise the positive number whose square times the four margins is the square of tp tn - fp fn |
| Correlation.CatchingNeverHurts | phylax/analysis/scoring.py:97-98 | turning a missed detection into a detection never lowers the value |
| Correlation.ClearingNeverHurts | phylax/analysis/scoring.py:97-98 | turning a false alarm into a pass never lowers the value |
| Correlation.WithholdingAMissNeverHurts | phylax/analysis/scoring.py:97-98 | leaving a missed detection out of the counts never lowers the value |
| Correlation.WithholdingAnAlarmNeverHurts | phylax/analysis/scoring.py:97-98 | leaving a false alarm out of the counts never lowers the value |
| AgentScore.RepsUnderCap | neurons/validator.py:791-805 | time never runs backwards, every repetition starts below the cap, the total stays below the cap plus one repetition, and a spent cap runs nothing |
| AgentScore.RunRepetitions | neurons/validator.py:791-805 | the loop collects the completed repetitions in order and adds up the time of all that ran |
| RepetitionMeaning.Stops | neurons/validator.py:791-794 | there is exactly one place at which the loop stops: before it every repetition finds time left, and there none is left or the list ends |
| RepetitionMeaning.RepsExactly | neurons/validator.py:791-805 | exactly the repetitions before that place run, each starting where the ones before it end, and the results are those of the completed ones in order |
| RepetitionMeaning.OneClock | neurons/validator.py:622-644 | all tasks together run as one list of repetitions under one clock |
| AgentScore.WallTimeBounded | neurons/validator.py:622-644 | over the nested task and repetition loops wall time never decreases, stays below the cap plus one repetition, and every repetition starts below the cap |
| AgentScore.AgentWallBound | phylax/rounds.py:25-27 | the same for the whole run of an agent with the cap of its track, unknown tracks included |
| RepetitionMeaning.AgentWallCaps | phylax/rounds.py:10-27 | the caps are 2400, 3600, 5400 and 18000 seconds for skills, MCP servers, packages and repositories, and 2400 for any other name |
| AgentScore.SpentCapStopsAll | neurons/validator.py:791-794 | once the cap is spent no later task runs a repetition |
| AgentScore.SpentCapNoVerdict | neurons/validator.py:791-807 | once the cap is spent every later behavioural task yields no verdict |
| AgentScore.TaskVerdict | neurons/validator.py:775-833 | the verdict is the vote of the completed repetitions with the last one's findings, none without repetitions or where required inference was not used |
| RepetitionMeaning.VerdictExactly | neurons/validator.py:790-833 | there is no verdict exactly when no repetition that ran completed, or inference is required and the task made no call; otherwise all completed ones vote and the findings are the last one's |
| AgentScore.GradeFindings | neurons/validator.py:663-669 | the quality is that of `finding_quality` over the expected and the reported findings, in [0, 1] |
| AgentScore.ScoreAgent | neurons/validator.py:621-691 | the task loop with its four counters and quality list computes the score of the judged tasks, which `AgentMeaning.ScoreExactly` gives in terms of the tasks |
| AgentMeaning.TallyExactly | neurons/validator.py:632-655 | the four counts are those of the malicious tasks blocked or warned of, the safe ones allowed, the safe ones not allowed and the malicious ones allowed, over the tasks with a verdict |
| AgentMeaning.MarksExactly | neurons/validator.py:656-673 | one grade for each task that has a verdict and expects findings, together the qualities of those answered rightly for their class |
| AgentMeaning.ScoreExactly | neurons/validator.py:621-691 | the score is the clamped correlation of that matrix, or where findings are expected 0.7 of it and 0.3 of the mean grade |
| AgentMeaning.PerfectIff | neurons/validator.py:632-691 | where no findings are expected the score is 1 if and only if no verdict is wrong and a task of each class is answered rightly |
| AgentMeaning.HopelessScoresNothing | neurons/validator.py:632-691 | an agent right on no task it answered scores 0, whatever it reported |
| AgentMeaning.FixedTaskNeverHurts | neurons/validator.py:632-691 | a task answered wrongly, answered rightly instead in the same time with the same findings, never lowers the score |
| AgentMeaning.MeanExactly | neurons/validator.py:688 | the mean of equal grades is that grade, and replacing one grade moves it by the difference over their number |
| EvidenceMeaning.QualityOnExactly | neurons/validator.py:663-669 | the quality of a task's findings is twice the greedy hits over the wanted and the reported ones together, 0 where either list is empty |
| AgentScore.RevisedTally | neurons/validator.py:646-655 | fixing one wrong verdict moves exactly one count, from missed to caught or from flagged to passed |
| AgentScore.FixingNeverHurts | neurons/validator.py:632-691 | fixing one wrong verdict, findings unchanged, never lowers the agent's score |
| AgentScore.WithholdingNeverHurts | neurons/validator.py:643-691 | keeping silent instead of giving a wrong verdict never lowers the agent's score, because a task without a verdict is left out of counts and findings |
| AgentScore.ScoreRange | neurons/validator.py:674-691 | the score is in [0, 1]; an agent that flags everything or passes everything gets at most 0.3 |
| AgentScore.ScoreRepositories | neurons/validator.py:624-631 | the repositories branch averages the task scores over the whole task set, 0 on an empty one |
| AgentMeaning.RepoScoreExactly | neurons/validator.py:900-930 | a task scores the mean of its completed repetitions' scores, each forced into [0, 1], and 0 without one |
| AgentMeaning.RepoTotalExactly | neurons/validator.py:624-631 | the total is the sum of the task scores, each under what is left of the one clock |
| AgentScore.RepoTotalBounds | neurons/validator.py:900-930 | each task adds between 0 and 1, and once the cap is spent every later task adds 0 |
| Matching.GreedyMatches | phylax/analysis/repositories.py:74-87 | greedy pairs expected and reported findings one to one and only where the matcher agrees |
| Matching.GreedyIsMaximal | phylax/analysis/repositories.py:79-86 | no unpaired expected finding matches an unpaired report |
| Matching.HalfOfMaximum | phylax/analysis/repositories.py:79-86 | any one-to-one matching has at most twice as many pairs as greedy |
| Matching.HalfIsReached | phylax/analysis/repositories.py:79-86 | the factor two is reached wherever the first finding takes the only report the second one matches |
| VulnerabilityMatching.GreedyLosesHalf | phylax/analysis/repositories.py:64-86 | it is reached by the real matcher: one file, one CWE, planted at lines 10 and 0, reported at lines 5 and 20 |
| Matching.HitsBounded | phylax/analysis/repositories.py:74-87 | hits are at most the number of expected and at most the number of reported findings |
| Matching.AppendedReport | phylax/analysis/repositories.py:79-86 | appending a report changes no existing pair and adds one exactly when an unpaired expected finding matches it |
| Matching.AppendedHits | phylax/analysis/repositories.py:79-86 | appending a report changes the hits by nothing or by one, with the exact condition |
| Matching.GreedyHits | phylax/analysis/repositories.py:77-86 | the nested loop over the used set counts exactly the greedy pairs |
| Matching.MatchCounts | phylax/analysis/repositories.py:74-87 | the loops over the used set count exactly the greedy pairs and the dictionary-shaped entries |
| FindingScores.DimScoreClosed | phylax/analysis/repositories.py:138-144 | with something planted the score is 5 hits / (4 planted + reported) |
| FindingScores.DimScoreRange | phylax/analysis/repositories.py:138-144 | the score is in [0, 1], 1 exactly when both lists pair off completely, 0 exactly without a hit |
| FindingScores.ReportingMore | phylax/analysis/repositories.py:138-144 | appending one report raises the score exactly when an unpaired expected finding wants it, and otherwise lowers it or leaves it 0 |
| EvidenceMeaning.CleanExactly | phylax/analysis/repositories.py:90-91 | with nothing planted every reported entry costs a fifth, so the score is 1 exactly when nothing is reported and 0 exactly from five entries on |
| EvidenceMeaning.CleanAppend | phylax/analysis/repositories.py:138-144 | there one more entry, malformed ones included, lowers the score by exactly 0.2 until it is 0 |
| FindingScores.ScoreDimension | phylax/analysis/repositories.py:138-144 | the code path through the match counts computes that score, and with nothing planted the one of `EvidenceMeaning.CleanExactly` |
| FindingScores.EvaluateLabelled | phylax/analysis/repositories.py:171-202 | scores every labelled dimension from its evidence and planted lists and blends them, 0 without analysed files, as `EvidenceMeaning.EvaluationExactly` has it in numbers |
| FindingScores.EvaluationRange | phylax/analysis/repositories.py:192-202 | the blend is in [0, 1], so its clip changes nothing, and is the vulnerability score itself when only that dimension is labelled |
| FindingScores.OneMoreVulnerability | phylax/analysis/repositories.py:179-202 | one more reported vulnerability raises the repository's score exactly when an unpaired planted one wants it, and else lowers it or leaves it, whatever the other dimensions are |
| EvidenceMeaning.OneMoreFalseReport | phylax/analysis/repositories.py:171-202 | one more entry in a labelled dimension with nothing planted never raises the repository's score, and lowers it exactly while there are fewer than five, in any of the three dimensions |
| EvidenceMeaning.EvaluationExactly | phylax/analysis/repositories.py:171-202 | the score is the mean of the labelled dimensions weighted 0.5, 0.3 and 0.2, and 0 where no file was analysed |
| SupplyChain.Flatten | phylax/analysis/repositories.py:120-135 | the four loops flatten the report into typed findings in that order, entries that are no dictionaries and dependencies without a CVE dropped |
| EvidenceMeaning.FlattenedExactly | phylax/analysis/repositories.py:120-135 | every position of the flat list: typosquats, dependency confusions, install scripts and dependencies with a CVE in this order, under their kinds, names in lower case |
| SupplyChain.OneMoreDependency | phylax/analysis/repositories.py:132-134 | one more dependency is one more finding at the end of the list with a CVE, and nothing without |
| FindingScores.OneMoreVulnerableDependency | phylax/analysis/repositories.py:179-202 | reporting one more dependency changes the repository's score not at all without a CVE, and with one raises it exactly when an unpaired planted finding wants it |
| FindingScores.FindingQuality | phylax/analysis/quality.py:70-93 | the second greedy loop computes F1 over the findings the detonation could not have shown |
| EvidenceMeaning.DeltaAppend | phylax/analysis/quality.py:58-67 | wanted are exactly the expected findings of the context plane, or all of them where nothing was observed, in their order |
| FindingScores.QualityIsF1 | phylax/analysis/quality.py:79-93 | the quality is 2 hits / (wanted + found), in [0, 1], and 1 exactly when the lists pair off completely |
| FindingScores.QualityWithinTwice | phylax/analysis/quality.py:79-93 | no other pairing of the findings could have scored more than twice as much |
| VulnerabilityMatching.NormaliseFile | phylax/analysis/repositories.py:15-19 | the loop over the stripped, lower-cased, forward-slashed name ends, and its result starts with neither "/" nor "./" |
| VulnerabilityMatching.NormFileExactly | phylax/analysis/repositories.py:15-19 | a name is the normalised one if and only if it is bare and the cleaned name is a run of "/" and "./" in front of it |
| MatchMeaning.CleanedExactly | phylax/analysis/repositories.py:16 | the cleaned name is what is left between the blanks at both ends, in lower case, with a slash for every backslash |
| VulnerabilityMatching.EndsWithIsSuffix | phylax/analysis/repositories.py:26 | being a name or ending with "/" and it is having its components as a suffix |
| VulnerabilityMatching.FileOkIsSuffix | phylax/analysis/repositories.py:22-26 | two files agree if and only if both normalised names are nonempty and one's component list is a suffix of the other's |
| MatchMeaning.CweNumberExactly | phylax/analysis/repositories.py:29-33 | a CWE field names its first run of digits without leading zeros, 0 if there are only zeros, and nothing without a digit |
| MatchMeaning.CwesExactly | phylax/analysis/repositories.py:36-41 | a record names the number of its field and those of its list, empty ones left out |
| MatchMeaning.WordsExactly | phylax/analysis/repositories.py:44-45 | the words of a text are exactly its maximal runs of lower-case letters and digits |
| MatchMeaning.WordsOfExactly | phylax/analysis/repositories.py:48-50 | the words of a record are those of its title and of its description in lower case |
| MatchMeaning.MatchesExactly | phylax/analysis/repositories.py:56-71 | two records match if and only if their files agree, they share a number or at least 34 in 100 of all their words, and two lines that are numbers are at most ten apart |
| VulnerabilityMatching.MatchesIsSymmetric | phylax/analysis/repositories.py:29-71 | the full matcher on records, with CWE numbers and words extracted, does not care which record is planted and which is reported |
| EditDistance.LevSkip | phylax/harness/reference_agent.py:313-316 | skipping an equal first character keeps the distance |
| EditDistance.OneApartIsLevOne | phylax/harness/reference_agent.py:312-327 | deciding at the first mismatch loses no solution |
| EditDistance.EditDistanceOne | phylax/harness/reference_agent.py:306-327 | the scan returns true if and only if the Levenshtein distance is exactly one |
| InferenceProxy.Tables.constructor | phylax/harness/inference_proxy.py:24-34 | the proxy starts with an empty meter and no session |
| InferenceProxy.Tables.OverBudget | phylax/harness/inference_proxy.py:40-47 | the request budget is tested before the token budget, both against the row at that moment |
| InferenceProxy.Tables.Admit | phylax/harness/inference_proxy.py:189-203 | the session and credential tests, with and without metering |
| ProxyLedger.AdmittedExactly | phylax/harness/inference_proxy.py:189-203 | under metering a request gets in exactly on the usable key of its nonce's session; without, its own key stands in for a missing or empty one; the session's provider goes before the named one |
| ProxyLedger.EndpointExactly | phylax/harness/inference_proxy.py:50-57 | a known provider decides the endpoint, otherwise the prefix of the key, otherwise there is none |
| ProxyLedger.CheckExactly | phylax/harness/inference_proxy.py:204-207 | a waiting request passes its check exactly while requests and tokens are left, and is turned away otherwise |
| InferenceProxy.Tables.Record | phylax/harness/inference_proxy.py:60-72 | one request and its tokens are added to the nonce's row, nothing without a nonce, and a malformed count stops the update midway |
| InferenceProxy.Tables.RecordUpstreamError | phylax/harness/inference_proxy.py:75-88 | counts the error, the key failure where the status says so, and the status |
| ProxyLedger.LedgerExactly | phylax/harness/inference_proxy.py:60-88 | until a nonce is renewed every field of its row is the sum over the answers and errors that reached its requests: requests, prompt and completion tokens, errors, key failures (401, 402, 403, 429), last status |
| InferenceProxy.Tables.Register | phylax/harness/inference_proxy.py:163-180 | replaces the session and clears the meter row, and refuses an empty nonce or key; `ProxyLedger.RegisteringStartsOver` says what that gives back |
| InferenceProxy.Tables.Reset | phylax/harness/inference_proxy.py:142-154 | drops one nonce's row and session, or everything |
| InferenceProxy.RequestsBounded | phylax/harness/inference_proxy.py:204-228 | under every interleaving with at most c requests of a nonce past the check, its metered requests plus those past the check stay within maxRequests + c - 1, whatever is registered again or reset meanwhile |
| InferenceProxy.RequestBoundReached | phylax/harness/inference_proxy.py:204-228 | that bound is reached: for every c there is an interleaving that meters exactly that many |
| InferenceProxy.TokensBounded | phylax/harness/inference_proxy.py:44-46 | where no answer costs more than t tokens, the tokens spent stay below the budget plus c times t, and none are spent when there is no budget |
| InferenceProxy.Isolation | phylax/harness/inference_proxy.py:37-88 | a run on other nonces, global reset aside, leaves a nonce's row, session and requests in flight as they were |
| InferenceProxy.KeptByEveryRun | phylax/harness/inference_proxy.py:75-88 | over every run key failures never exceed upstream errors and nothing is metered or registered under an empty nonce |
| InferenceProxy.EveryAnswerIsCounted | phylax/harness/inference_proxy.py:189-228 | under metering every answered request adds one to its nonce's row: none is forwarded off the meter |
| InferenceProxy.ExhaustionIsFinal | phylax/harness/inference_proxy.py:37-47 | a spent request budget stays spent, and no further request passes the check, until the nonce is registered again or reset |
| ProxyLedger.RenewedExactly | phylax/harness/inference_proxy.py:142-180 | registering leaves an empty row and the new session, resetting an empty row and no session, and neither touches a request under way |
| ProxyLedger.RenewedPasses | phylax/harness/inference_proxy.py:142-207 | whatever was spent, a request waiting when its nonce is registered again or reset passes its check |
| ProxyLedger.RegisteringStartsOver | phylax/harness/inference_proxy.py:163-228 | from every state, once a nonce is registered again with a usable key exactly the full number of requests served one by one gets through again, each metered |
| ProxyLedger.ResettingStartsOver | phylax/harness/inference_proxy.py:142-154 | without metering a reset gives the same back to requests that carry a usable key |
| ProxyLedger.NothingArrivesAfterReset | phylax/harness/inference_proxy.py:142-196 | under metering nothing of a nonce gets in after a reset of it or of everything, over every run, until it is registered with a key again |
| Draw.DrawIgnoresListingOrder | phylax/harness/corpus.py:103-110 | with distinct source ids the draw depends on the set of listed entries, not on their order |
| Draw.DrawIsSound | phylax/harness/corpus.py:103-110 | the draw takes nothing unlisted and nothing twice, and as many as asked for or all |
| Draw.BeforeExactly | phylax/harness/corpus.py:104-107 | ids are ordered by the first code point in which they differ, a prefix first |
| Draw.DrawExactly | phylax/harness/corpus.py:103-110 | the draw is the whole pool in the order of the ids, or the sampler's choice from it under this seed exactly if there is a seed and a positive count below its size |
| Draw.SelectTasksExactly | phylax/rounds.py:42-46 | the tasks are the items in the order of their refs, or the sampler's choice from them under this seed if there are more than asked for |
| Draw.FetchCorpus | phylax/harness/corpus.py:113-148 | the loop keeps exactly the drawn entries whose artifact was delivered with files, in the drawn order |
| Draw.FetchedExactly | phylax/harness/corpus.py:119-148 | an entry gives one item with its label, its artifact and the ref track/label/id if it has an id and its artifact is delivered, and none otherwise |
| Draw.SecondDrawDropsNothing | phylax/rounds.py:42-46 | the second draw over what was fetched is exactly those items in the order of their refs, for every listing and every positive count |
| Watchdog.AwaitExit | phylax/harness/executor.py:119-139 | the loop ends at the first poll that gives a reason and with that reason, so no poll follows a reading above the budget; at most two polls more than intervals fit into the wall budget |
| Watchdog.PollBound | phylax/harness/executor.py:120-124 | at most 14 polls for a CPU budget up to 8 seconds, otherwise at most 3/2 per second of it and two more |
| Watchdog.IntervalExactly | phylax/harness/executor.py:124 | a quarter of the CPU budget between two polls, at least half a second and at most two |
| Watchdog.StopsExactly | phylax/harness/executor.py:119-139 | a poll stops the container if and only if it has exited, has used more than its budget since the earliest reading, or its wall budget is spent: three times the CPU budget, or what is left to the agent but at least a second; the reason is the first of these |

## Left out

- Floating-point rounding, the rounding of submitted scores to six digits, and so the difference between a resumed and a fresh score.
- The chain, wallet, HTTP, Docker and file formats; a state file that is written only in part.
- Serverless mode: without a backend the validator evaluates a local corpus, and a closing window cancels the pass; the model has a backend and no local corpus.
- Tracks other than the four named ones in carried or served scores; the allocator ignores them.
- `_push_weights`: mapping hotkeys to uids, dropping unregistered ones, and the retry timer after a failed submission.
- When a timed refresh is due: the model allows one between any two polls.
- How the label text of a task becomes its class.
- How a repetition comes to its verdict: probes, traces and evidence gates are part of the repetition's outcome.
- Agreement between the proxy's meter and the validator's reading of it; the count of calls is an input to `AgentScore.TaskVerdict`.
- Records whose fields are not text, and how a line field is parsed: a `Vulnerability` has text fields and a line number or none.
- The supply-chain and secret matchers and the category matcher of `quality.py`: the greedy theorems hold for every matcher.
- The heuristic repository score used when nothing is labelled, and the evidence-weighted `combine`.
- Body-size limits, response relaying, and the read-only routes of the proxy.
- Attestations, progress reports, rejection counters and logging.
- Screening, packing, detonation and the FastAPI service.
- An error while starting up, and state files that hold something other than what the validator wrote.
