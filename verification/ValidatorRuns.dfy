/** What holds over every run of the validator: any sequence of polls and timed refreshes, with
    any answers from the backend, any evaluation results and any failing disk write. */
module ValidatorRuns {
  import opened Options
  import opened Sums
  import opened Emission
  import opened EmissionTotals
  import opened Smoothing
  import opened ValidatorState

  datatype Event =
    | Polled(p: Poll)
    | Timed(first: World, second: World)

  ghost function Step(m: Memory, e: Event): Outcome {
    match e
    case Polled(p) => PollFrom(m, p)
    case Timed(first, second) => RefreshFrom(m, first, second)
  }

  /** The state before event `i`. */
  ghost function At(m: Memory, es: seq<Event>, i: nat): Memory
    requires i <= |es|
  {
    if i == 0 then m else Step(At(m, es, i - 1), es[i - 1]).memory
  }

  // ----- every pushed vector is a weight vector

  ghost predicate Votable(pushes: seq<Weights>) {
    forall v :: v in pushes ==> EmptyOrUnit(v)
  }

  lemma HeardKeepsUnit(m: Memory, reply: Reply, disk: Disk)
    requires EmptyOrUnit(m.ema)
    ensures EmptyOrUnit(Heard(m, reply, disk).ema)
  {
  }

  lemma LoneVote(h: string)
    ensures EmptyOrUnit(map[h := 1.0])
  {
    SumUpdate(map[], h, 1.0);
    assert map[][h := 1.0] == map[h := 1.0];
  }

  lemma ScoredIsSafe(m: Memory, w: World, latest: Scores)
    requires EmptyOrUnit(m.ema)
    ensures EmptyOrUnit(Scored(m, w, latest).memory.ema)
    ensures Votable(Scored(m, w, latest).pushes)
  {
    hide EmissionWeights, Blend, ApplyReserved, EmptyOrUnit;
    BlendIsUnit(m.ema, EmissionWeights(BallotOf(m, w, latest)));
    ReservedEmptyOrUnit(SmoothedVector(m, w, latest), m.reservedHotkey, m.reservedShare);
  }

  lemma SetWeightsIsSafe(m: Memory, scores: Option<Scores>, w: World)
    requires EmptyOrUnit(m.ema)
    ensures EmptyOrUnit(SetWeightsFrom(m, scores, w).memory.ema)
    ensures Votable(SetWeightsFrom(m, scores, w).pushes)
  {
    hide EmissionWeights, Blend, ApplyReserved, EmptyOrUnit;
    HeardKeepsUnit(m, w.reply, w.disk);
    var h := Heard(m, w.reply, w.disk);
    LoneVote(h.reservedHotkey);
    ReservedEmptyOrUnit(h.ema, h.reservedHotkey, h.reservedShare);
    if scores.Some? {
      ScoredIsSafe(h, w, scores.value);
    }
  }

  lemma StepIsSafe(m: Memory, e: Event)
    requires EmptyOrUnit(m.ema)
    ensures EmptyOrUnit(Step(m, e).memory.ema)
    ensures Votable(Step(m, e).pushes)
  {
    hide SetWeightsFrom, EmptyOrUnit;
    match e
    case Polled(p) =>
      var ids := OpenIds(m, p);
      SetWeightsIsSafe(m.(running := true), None, p.starting);
      var held := SetWeightsFrom(m.(running := true), None, p.starting);
      var pass := RunRoundFrom(held.memory, p, ids);
      var over := pass.memory.(running := false);
      SetWeightsIsSafe(over, None, p.ending);
      if pass.verdict.Completed? {
        SetWeightsIsSafe(over, Some(pass.verdict.scores), p.ending);
      }
    case Timed(first, second) =>
      HeardKeepsUnit(m, first.reply, first.disk);
      SetWeightsIsSafe(Heard(m, first.reply, first.disk), Served(first.reply), second);
  }

  /** Over every run from an empty or unit-sum average, the average stays empty or unit-sum and
      every vector handed to the chain is empty or non-negative with sum one. */
  lemma {:induction false} EveryVoteIsUnit(m: Memory, es: seq<Event>, i: nat)
    requires i <= |es|
    requires EmptyOrUnit(m.ema)
    ensures EmptyOrUnit(At(m, es, i).ema)
    ensures i < |es| ==> Votable(Step(At(m, es, i), es[i]).pushes)
  {
    hide EmptyOrUnit, Step;
    if i > 0 {
      EveryVoteIsUnit(m, es, i - 1);
      StepIsSafe(At(m, es, i - 1), es[i - 1]);
    }
    if i < |es| {
      StepIsSafe(At(m, es, i), es[i]);
    }
  }

  // ----- the average moves only when a pass is scored or the operator resets it

  predicate SameEpoch(m: Memory, reply: Reply) {
    !HasFlags(reply) || reply.epoch == m.epoch
  }

  /** One reading of the backend, and what `set_weights` is to make of it; no scores where the
      answer is only read. */
  datatype Call = Call(before: Memory, scores: Option<Scores>, w: World)

  /** The operator moved the epoch, and the average on disk is dropped. */
  predicate Drops(c: Call) {
    !SameEpoch(c.before, c.w.reply) && c.w.disk.clearWeights
  }

  /** The unpaused branch with scores and no pass in flight is reached, and its average is written. */
  predicate Votes(c: Call) {
    var h := Heard(c.before, c.w.reply, c.w.disk);
    !Raises(c.w.reply) && !h.paused && !h.running && c.scores.Some? && c.w.disk.writeWeights
  }

  ghost function AverageOf(c: Call): Weights {
    if Votes(c) then SmoothedVector(Heard(c.before, c.w.reply, c.w.disk), c.w, c.scores.value)
    else if Drops(c) then map[]
    else c.before.ema
  }

  /** The exact new average of one `set_weights`, or of a mere reading of the backend. */
  lemma CallAverage(c: Call)
    ensures SetWeightsFrom(c.before, c.scores, c.w).memory.ema == AverageOf(c)
    ensures c.scores.None? ==> Heard(c.before, c.w.reply, c.w.disk).ema == AverageOf(c)
  {
    hide SmoothedVector, Held, Heard;
    if HasFlags(c.w.reply) {
      HeardFields(c.before, c.w.reply, c.w.disk);
    } else {
      HeardNothing(c.before, c.w.reply, c.w.disk);
    }
  }

  /** The state a pass leaves to the `set_weights` that ends it. */
  ghost function OverFrom(m: Memory, p: Poll): Pass {
    var pass := RunRoundFrom(SetWeightsFrom(m.(running := true), None, p.starting).memory, p, OpenIds(m, p));
    pass.(memory := pass.memory.(running := false))
  }

  /** The readings of the backend in one event, in order. */
  ghost function CallsOf(m: Memory, e: Event): seq<Call> {
    match e
    case Timed(first, second) =>
      [Call(m, None, first)]
      + if Raises(first.reply) then []
        else [Call(Heard(m, first.reply, first.disk), Served(first.reply), second)]
    case Polled(p) =>
      if !Starts(m, p) then []
      else
        [Call(m.(running := true), None, p.starting)]
        + if Raises(p.starting.reply) || OverFrom(m, p).verdict.Broke? then []
          else
            var over := OverFrom(m, p);
            [Call(over.memory, if over.verdict.Completed? then Some(over.verdict.scores) else None, p.ending)]
  }

  /** The exact average after any event: the one its last reading of the backend leaves, and what
      an earlier reading left is what the later one starts from. */
  lemma EventAverage(m: Memory, e: Event)
    ensures var calls := CallsOf(m, e);
            && Step(m, e).memory.ema == (if calls == [] then m.ema else AverageOf(calls[|calls| - 1]))
            && (calls != [] ==> calls[0].before.ema == m.ema)
            && (|calls| == 2 ==> calls[1].before.ema == AverageOf(calls[0]))
            && |calls| <= 2
  {
    hide SetWeightsFrom, Heard, Served, OpenIds, HeldBack, ProgressAfter, AverageOf;
    match e
    case Timed(first, second) =>
      CallAverage(Call(m, None, first));
      CallAverage(Call(Heard(m, first.reply, first.disk), Served(first.reply), second));
    case Polled(p) =>
      if Starts(m, p) {
        RaisedExactly(m.(running := true), None, p.starting);
        CallAverage(Call(m.(running := true), None, p.starting));
        var over := OverFrom(m, p);
        var scores := if over.verdict.Completed? then Some(over.verdict.scores) else None;
        CallAverage(Call(over.memory, scores, p.ending));
      }
  }

  lemma RaisedExactly(m: Memory, scores: Option<Scores>, w: World)
    ensures SetWeightsFrom(m, scores, w).raised == Raises(w.reply)
    ensures Raises(w.reply) ==> SetWeightsFrom(m, scores, w).memory == Heard(m, w.reply, w.disk)
  {
    hide SmoothedVector, Held, Heard;
  }

  /** No reading of the event drops or votes. */
  ghost predicate Quiet(m: Memory, e: Event) {
    forall c :: c in CallsOf(m, e) ==> !Drops(c) && !Votes(c)
  }

  /** Over every stretch of a run in which no reading of the backend drops the average on a changed
      epoch and none reaches the written, unpaused, scored branch, the average stays as it was. */
  lemma {:induction false} AverageUntouched(m: Memory, es: seq<Event>, i: nat, j: nat)
    requires i <= j <= |es|
    requires forall k :: i <= k < j ==> Quiet(At(m, es, k), es[k])
    ensures At(m, es, j).ema == At(m, es, i).ema
    decreases j
  {
    hide Step, CallsOf, Drops, Votes;
    if i < j {
      AverageUntouched(m, es, i, j - 1);
      assert Quiet(At(m, es, j - 1), es[j - 1]);
      EventAverage(At(m, es, j - 1), es[j - 1]);
    }
  }

  // ----- the in-flight flag

  /** After a poll that starts a pass the in-flight flag is on exactly when the backend's answer
      raised before the pass; no other event moves it. */
  lemma FlagAfter(m: Memory, e: Event)
    ensures Step(m, e).memory.running
            <==> if e.Polled? && Starts(m, e.p) then Raises(e.p.starting.reply) else m.running
  {
    hide SetWeightsFrom, Heard, Served, OpenIds, HeldBack, ProgressAfter;
    match e
    case Timed(first, second) =>
      HeardKeepsFlag(m, first.reply, first.disk);
      FlagKept(Heard(m, first.reply, first.disk), Served(first.reply), second);
    case Polled(p) =>
      if Starts(m, p) {
        RaisedExactly(m.(running := true), None, p.starting);
        FlagKept(m.(running := true), None, p.starting);
        var over := OverFrom(m, p);
        FlagKept(over.memory, None, p.ending);
        if over.verdict.Completed? {
          FlagKept(over.memory, Some(over.verdict.scores), p.ending);
        }
      }
  }

  lemma FlagKept(m: Memory, scores: Option<Scores>, w: World)
    ensures SetWeightsFrom(m, scores, w).memory.running == m.running
  {
    hide SmoothedVector, Held, Merged, Served;
  }

  /** While the flag is on, a timed refresh votes the carried winners or nothing, whatever the
      backend serves. */
  lemma StuckFlagHoldsWinners(m: Memory, first: World, second: World)
    requires m.running && !Raises(first.reply) && !Raises(second.reply)
    requires !Heard(Heard(m, first.reply, first.disk), second.reply, second.disk).paused
    ensures var h := Heard(Heard(m, first.reply, first.disk), second.reply, second.disk);
            RefreshFrom(m, first, second).pushes == if h.ema == map[] then [] else [Held(h, h.ema)]
  {
    hide Scored, Held, Heard;
    HeardKeepsFlag(m, first.reply, first.disk);
    HeardKeepsFlag(Heard(m, first.reply, first.disk), second.reply, second.disk);
  }

  lemma HeardKeepsFlag(m: Memory, reply: Reply, disk: Disk)
    ensures Heard(m, reply, disk).running == m.running
  {
  }

  lemma EpochKept(m: Memory, scores: Option<Scores>, w: World)
    requires SameEpoch(m, w.reply)
    ensures SetWeightsFrom(m, scores, w).memory.epoch == m.epoch
  {
    hide SmoothedVector, Held, Merged, Served;
  }

  /** A poll that starts no pass, or whose pass abstains or breaks off, leaves the average alone
      unless the operator moved the epoch meanwhile. */
  lemma AbstainingKeepsAverage(m: Memory, p: Poll)
    requires SameEpoch(m, p.starting.reply) && SameEpoch(m, p.ending.reply)
    requires Starts(m, p) ==> !ExecuteFrom(m, p, OpenIds(m, p)).verdict.Completed?
    ensures PollFrom(m, p).memory.ema == m.ema
  {
    hide SetWeightsFrom, PollFrom, Heard, OpenIds, HeldBack, ProgressAfter;
    EventAverage(m, Polled(p));
    if Starts(m, p) {
      EpochKept(m.(running := true), None, p.starting);
      RaisedExactly(m.(running := true), None, p.starting);
      var over := OverFrom(m, p);
      RaisedExactly(over.memory, if over.verdict.Completed? then Some(over.verdict.scores) else None, p.ending);
    }
  }

  lemma HeldVote(m: Memory, w: World)
    requires !Raises(w.reply) && !Heard(m, w.reply, w.disk).paused && SameEpoch(m, w.reply)
    ensures var h := Heard(m, w.reply, w.disk);
            SetWeightsFrom(m, None, w) == Outcome(h, if m.ema == map[] then [] else [Held(h, m.ema)], false)
            && h.ema == m.ema && h.epoch == m.epoch
  {
    hide Scored, Held;
  }

  /** The flags and the vote depend on nothing a pass changes. */
  predicate SameFlags(m: Memory, n: Memory) {
    && m.paused == n.paused && m.reservedHotkey == n.reservedHotkey && m.reservedShare == n.reservedShare
    && m.ema == n.ema && m.epoch == n.epoch
  }

  lemma HeardAlike(m: Memory, n: Memory, w: World)
    requires SameFlags(m, n)
    ensures SameFlags(Heard(m, w.reply, w.disk), Heard(n, w.reply, w.disk))
  {
    if HasFlags(w.reply) {
      hide Heard;
      HeardFields(m, w.reply, w.disk);
      HeardFields(n, w.reply, w.disk);
    }
  }

  lemma PassKeepsFlags(m: Memory, p: Poll, ids: map<Track, string>)
    ensures SameFlags(RunRoundFrom(m, p, ids).memory.(running := false), m)
  {
    hide ProgressAfter;
  }

  /** A pass that abstains votes the carried winners when it starts and again when it ends: what it
      scored meanwhile never reaches the chain. */
  lemma AbstainingHoldsWinners(m: Memory, p: Poll, ids: map<Track, string>)
    requires ExecuteFrom(m, p, ids).verdict.Abstained?
    requires var first := Heard(m, p.starting.reply, p.starting.disk);
             && !first.paused && !Heard(first, p.ending.reply, p.ending.disk).paused
             && SameEpoch(m, p.starting.reply) && SameEpoch(m, p.ending.reply)
    ensures var first := Heard(m, p.starting.reply, p.starting.disk);
            var last := Heard(first, p.ending.reply, p.ending.disk);
            ExecuteFrom(m, p, ids).pushes == if m.ema == map[] then [] else [Held(first, m.ema), Held(last, m.ema)]
  {
    hide SetWeightsFrom, ApplyReserved, RunRoundFrom, Heard;
    var first := Heard(m, p.starting.reply, p.starting.disk);
    RaisedExactly(m.(running := true), None, p.starting);
    HeardAlike(m, m.(running := true), p.starting);
    HeldVote(m.(running := true), p.starting);
    var held := SetWeightsFrom(m.(running := true), None, p.starting);
    var over := RunRoundFrom(held.memory, p, ids).memory.(running := false);
    RaisedExactly(over, None, p.ending);
    PassKeepsFlags(held.memory, p, ids);
    HeardAlike(first, over, p.ending);
    HeldVote(over, p.ending);
  }

  // ----- the reserved share never reaches the average

  function BlindReply(reply: Reply): Reply {
    if !HasFlags(reply) then reply else reply.(reservedHotkey := "", reservedShare := 0.0)
  }

  function BlindWorld(w: World): World {
    w.(reply := BlindReply(w.reply))
  }

  /** The same event in a world where nothing is ever reserved. */
  function BlindEvent(e: Event): Event {
    match e
    case Polled(p) => Polled(p.(starting := BlindWorld(p.starting), ending := BlindWorld(p.ending)))
    case Timed(first, second) => Timed(BlindWorld(first), BlindWorld(second))
  }

  function Blind(m: Memory): Memory {
    m.(reservedHotkey := "", reservedShare := 0.0)
  }

  lemma BlindHeard(m: Memory, w: World)
    ensures Blind(Heard(m, w.reply, w.disk)) == Heard(Blind(m), BlindReply(w.reply), w.disk)
    ensures Served(w.reply) == Served(BlindReply(w.reply))
  {
    hide Served, Heard;
    BlindServed(w.reply);
    if !HasFlags(w.reply) {
      HeardNothing(m, w.reply, w.disk);
      HeardNothing(Blind(m), w.reply, w.disk);
    } else {
      HeardFields(m, w.reply, w.disk);
      HeardFields(Blind(m), BlindReply(w.reply), w.disk);
    }
  }

  lemma BlindServed(reply: Reply)
    ensures Served(reply) == Served(BlindReply(reply))
  {
    hide Named;
    if reply.Told? {
      assert BlindReply(reply).tracks == reply.tracks;
    }
  }

  lemma BlindSetWeights(m: Memory, scores: Option<Scores>, w: World)
    ensures var x, y := SetWeightsFrom(m, scores, w), SetWeightsFrom(Blind(m), scores, BlindWorld(w));
            Blind(x.memory) == y.memory && x.raised == y.raised
  {
    hide EmissionWeights, Blend, ApplyReserved, Merged, Salt, Served, Heard;
    BlindHeard(m, w);
    var h := Heard(m, w.reply, w.disk);
    assert Heard(Blind(m), BlindReply(w.reply), w.disk) == Blind(h);
    if scores.Some? {
      assert BallotOf(Blind(h), BlindWorld(w), scores.value) == BallotOf(h, w, scores.value);
    }
  }

  lemma BlindPoll(m: Memory, p: Poll)
    ensures Blind(PollFrom(m, p).memory) == PollFrom(Blind(m), BlindEvent(Polled(p)).p).memory
  {
    hide ExecuteFrom, OpenIds, HeldBack;
    var q := BlindEvent(Polled(p)).p;
    BlindIds(m, p);
    BlindExecute(m, p, OpenIds(m, p));
  }

  lemma BlindIds(m: Memory, p: Poll)
    ensures OpenIds(Blind(m), BlindEvent(Polled(p)).p) == OpenIds(m, p)
    ensures HeldBack(BlindEvent(Polled(p)).p) == HeldBack(p)
  {
  }

  lemma BlindExecute(m: Memory, p: Poll, ids: map<Track, string>)
    ensures var x, y := ExecuteFrom(m, p, ids), ExecuteFrom(Blind(m), BlindEvent(Polled(p)).p, ids);
            Blind(x.memory) == y.memory && x.verdict == y.verdict
  {
    hide SetWeightsFrom, RunRoundFrom, ConcludeFrom;
    var q := BlindEvent(Polled(p)).p;
    BlindSetWeights(m.(running := true), None, p.starting);
    var held := SetWeightsFrom(m.(running := true), None, p.starting);
    var held' := SetWeightsFrom(Blind(m).(running := true), None, q.starting);
    BlindPass(held.memory, p, q, ids);
    BlindConclude(RunRoundFrom(held.memory, p, ids), held.pushes, held'.pushes, p.ending);
  }

  lemma BlindConclude(pass: Pass, pushes: seq<Weights>, pushes': seq<Weights>, ending: World)
    ensures var x := ConcludeFrom(pass, pushes, ending);
            var y := ConcludeFrom(Pass(Blind(pass.memory), pass.verdict), pushes', BlindWorld(ending));
            Blind(x.memory) == y.memory && x.verdict == y.verdict
  {
    hide SetWeightsFrom;
    var over := pass.memory.(running := false);
    BlindSetWeights(over, None, ending);
    if pass.verdict.Completed? {
      BlindSetWeights(over, Some(pass.verdict.scores), ending);
    }
  }

  lemma BlindStep(m: Memory, e: Event)
    ensures Blind(Step(m, e).memory) == Step(Blind(m), BlindEvent(e)).memory
  {
    hide SetWeightsFrom, Served, PollFrom;
    match e
    case Timed(first, second) =>
      BlindHeard(m, first);
      BlindSetWeights(Heard(m, first.reply, first.disk), Served(first.reply), second);
    case Polled(p) =>
      BlindPoll(m, p);
  }

  lemma BlindPass(m: Memory, p: Poll, q: Poll, ids: map<Track, string>)
    requires q == BlindEvent(Polled(p)).p
    ensures RunRoundFrom(Blind(m), q, ids).verdict == RunRoundFrom(m, p, ids).verdict
    ensures RunRoundFrom(Blind(m), q, ids).memory == Blind(RunRoundFrom(m, p, ids).memory)
  {
    SameProgress(p, q, ids, 4);
  }

  lemma {:induction false} SameProgress(p: Poll, q: Poll, ids: map<Track, string>, n: nat)
    requires n <= |TRACKS|
    requires p.runs == q.runs
    ensures ProgressAfter(p, ids, n) == ProgressAfter(q, ids, n)
  {
    if n > 0 {
      SameProgress(p, q, ids, n - 1);
    }
  }

  /** Over every run the average, the carried scores and the rounds done are what they would be
      had nothing ever been reserved: the reserved share never compounds. */
  lemma {:induction false} ReservedShareNeverCompounds(m: Memory, es: seq<Event>, blind: seq<Event>, i: nat)
    requires i <= |es| == |blind|
    requires forall k :: 0 <= k < |es| ==> blind[k] == BlindEvent(es[k])
    ensures At(Blind(m), blind, i) == Blind(At(m, es, i))
    ensures At(Blind(m), blind, i).ema == At(m, es, i).ema
  {
    hide Step;
    if i > 0 {
      ReservedShareNeverCompounds(m, es, blind, i - 1);
      BlindStep(At(m, es, i - 1), es[i - 1]);
    }
  }


  // ----- repeated refreshes with the same scores

  /** A backend answer in the known epoch with emissions not paused, and a disk that takes the writes. */
  predicate Steady(m: Memory, w: World) {
    && w.reply.Told? && !w.reply.paused && w.reply.epoch == m.epoch
    && w.disk.writeScores && w.disk.writeWeights
  }

  /** The weight map a timed refresh votes when the backend answers both reads alike. */
  ghost function VotedMap(m: Memory, w: World): Weights
    requires w.reply.Told?
  {
    EmissionWeights(BallotOf(m, w, Served(w.reply).value))
  }

  ghost function AfterRefreshes(m: Memory, w: World, n: nat): Memory {
    if n == 0 then m else RefreshFrom(AfterRefreshes(m, w, n - 1), w, w).memory
  }

  lemma SteadyRefresh(m: Memory, w: World)
    requires Steady(m, w) && !m.running
    ensures var after := RefreshFrom(m, w, w).memory;
            && after.ema == Blend(m.ema, VotedMap(m, w))
            && after.carried == Merged(m.carried, Served(w.reply), Served(w.reply).value)
            && after.seeds == m.seeds && after.epoch == m.epoch && !after.running
  {
    hide EmissionWeights, Blend, ApplyReserved, Merged, Salt, Served;
    ServedIsNonempty(w.reply);
  }

  lemma ServedIsNonempty(reply: Reply)
    requires reply.Told?
    ensures Served(reply).Some? && Nonempty(Served(reply).value) == Served(reply).value
  {
  }

  /** Scores carried from one refresh to the next change nothing when the backend repeats itself. */
  lemma MergeSettles(carried: Scores, served: Scores)
    requires Nonempty(served) == served
    ensures Merged(Merged(carried, Some(served), served), Some(served), served) == Merged(carried, Some(served), served)
  {
  }

  /** `n` timed refreshes against an unchanging backend: the carried average is exactly `n`
      blends of the one weight map, so it converges to it at rate 0.7. */
  lemma {:induction false} SteadyRefreshes(m: Memory, w: World, n: nat)
    requires Steady(m, w) && !m.running
    ensures var after := AfterRefreshes(m, w, n);
            && after.ema == Refreshed(n, m.ema, VotedMap(m, w))
            && Steady(after, w) && !after.running && VotedMap(after, w) == VotedMap(m, w)
    ensures n > 0 ==> AfterRefreshes(m, w, n).carried == Merged(m.carried, Served(w.reply), Served(w.reply).value)
    ensures AfterRefreshes(m, w, n).seeds == m.seeds
  {
    hide EmissionWeights, Blend, RefreshFrom, Merged, Salt, Served;
    if n > 0 {
      SteadyRefreshes(m, w, n - 1);
      var before := AfterRefreshes(m, w, n - 1);
      SteadyRefresh(before, w);
      ServedIsNonempty(w.reply);
      MergeSettles(m.carried, Served(w.reply).value);
    }
  }

  /** From an empty average the first refresh lands on the weight map and the rest stay there. */
  lemma SteadyFromNothing(m: Memory, w: World, n: nat)
    requires Steady(m, w) && !m.running
    requires m.ema == map[]
    requires VotedMap(m, w) != map[] && NoDust(VotedMap(m, w))
    ensures n > 0 ==> AfterRefreshes(m, w, n).ema == VotedMap(m, w)
  {
    hide EmissionWeights, Blend, RefreshFrom;
    VotedIsUnit(m, w);
    SteadyRefreshes(m, w, n);
    if n > 0 {
      Settled(n, VotedMap(m, w));
    }
  }

  lemma {:induction false} Settled(n: nat, v: Weights)
    requires n > 0
    requires UnitVector(v) && NoDust(v)
    ensures Refreshed(n, map[], v) == v
  {
    hide Blend;
    if n == 1 {
      assert Refreshed(0, map[], v) == map[];
      BlendFromNothing(v);
    } else {
      Settled(n - 1, v);
      BlendContracts(v, v);
      assert Blend(v, v) == v;
    }
  }

  /** After the first refresh the support is settled, and every further refresh multiplies each
      gap to the voted weight by exactly 0.7. */
  lemma SteadyConvergence(m: Memory, w: World, n: nat, h: string)
    requires Steady(m, w) && !m.running && EmptyOrUnit(m.ema)
    requires VotedMap(m, w) != map[] && NoDust(VotedMap(m, w))
    ensures UnitVector(AfterRefreshes(m, w, n + 1).ema)
    ensures Scaled(Gap(AfterRefreshes(m, w, n + 1).ema, VotedMap(m, w), h), Decay(n),
                   Gap(AfterRefreshes(m, w, 1).ema, VotedMap(m, w), h))
  {
    hide EmissionWeights, Blend, RefreshFrom, UnitVector, NoDust;
    var v := VotedMap(m, w);
    assert UnitVector(v) by { VotedIsUnit(m, w); }
    SteadyRefreshes(m, w, 1);
    SteadyRefreshes(m, w, n + 1);
    assert Refreshed(1, m.ema, v) == Blend(Refreshed(0, m.ema, v), v);
    BlendSupport(m.ema, v);
    BlendOfUnit(m.ema, v);
    ShiftRefreshes(n, m.ema, v);
    RefreshesConverge(n, Blend(m.ema, v), v);
  }

  lemma VotedIsUnit(m: Memory, w: World)
    requires w.reply.Told?
    requires VotedMap(m, w) != map[]
    ensures UnitVector(VotedMap(m, w))
  {
    hide EmissionWeights, UnitVector;
    EmissionConserves(BallotOf(m, w, Served(w.reply).value));
  }

  lemma {:induction false} ShiftRefreshes(n: nat, prior: Weights, v: Weights)
    ensures Refreshed(n + 1, prior, v) == Refreshed(n, Blend(prior, v), v)
  {
    hide Blend;
    if n > 0 {
      ShiftRefreshes(n - 1, prior, v);
    } else {
      assert Refreshed(0, prior, v) == prior;
    }
  }
}
