/** The life of a round over every sequence of polls: what is executed, what is done, what is retried. */
module RoundLifecycle {
  import opened Options
  import opened Emission
  import opened EmissionTotals
  import opened ValidatorState
  import opened ValidatorRuns

  // ----- what an event executes and settles

  predicate StartsAt(m: Memory, e: Event) {
    e.Polled? && Starts(m, e.p)
  }

  ghost function ExecutionOf(m: Memory, e: Event): Executed
    requires StartsAt(m, e)
  {
    ExecuteFrom(m, e.p, OpenIds(m, e.p))
  }

  ghost predicate Completes(m: Memory, e: Event) {
    StartsAt(m, e) && ExecutionOf(m, e).verdict.Completed?
  }

  ghost predicate Abstains(m: Memory, e: Event) {
    StartsAt(m, e) && ExecutionOf(m, e).verdict.Abstained?
  }

  /** The failed tracks of the pass of an event. */
  ghost function FailedAt(m: Memory, e: Event): set<Track>
    requires StartsAt(m, e)
  {
    ExecutionOf(m, e).memory.failed
  }

  /** The round ids an event settles: those of a completed pass whose track did not fail. */
  ghost function SettledAt(m: Memory, e: Event): set<string> {
    if Completes(m, e) then Finishing(OpenIds(m, e.p), FailedAt(m, e)) else {}
  }

  // ----- one step

  lemma SetWeightsKeepsRounds(m: Memory, scores: Option<Scores>, w: World)
    ensures var a := SetWeightsFrom(m, scores, w).memory;
            a.done == m.done && a.retryAt == m.retryAt && a.failed == m.failed && a.running == m.running
  {
    hide SmoothedVector, Held, Merged, Served, Heard;
    HeardKeepsRounds(m, w.reply, w.disk);
  }

  lemma ExecutionKeepsRounds(m: Memory, p: Poll, ids: map<Track, string>)
    ensures var a := ExecuteFrom(m, p, ids).memory; a.done == m.done && a.retryAt == m.retryAt
  {
    hide SetWeightsFrom, ProgressAfter;
    SetWeightsKeepsRounds(m.(running := true), None, p.starting);
    var pass := RunRoundFrom(SetWeightsFrom(m.(running := true), None, p.starting).memory, p, ids);
    var over := pass.memory.(running := false);
    SetWeightsKeepsRounds(over, None, p.ending);
    if pass.verdict.Completed? {
      SetWeightsKeepsRounds(over, Some(pass.verdict.scores), p.ending);
    }
  }

  lemma HeardKeepsRounds(m: Memory, reply: Reply, disk: Disk)
    ensures var a := Heard(m, reply, disk);
            a.done == m.done && a.retryAt == m.retryAt && a.failed == m.failed && a.running == m.running
  {
  }

  lemma StepOnRounds(m: Memory, e: Event)
    ensures Step(m, e).memory.done == m.done + SettledAt(m, e)
    ensures Step(m, e).memory.retryAt
            == if StartsAt(m, e) && (Abstains(m, e) || (Completes(m, e) && FailedAt(m, e) != {}))
               then e.p.later + RETRY_DELAY else m.retryAt
  {
    hide ExecuteFrom, SetWeightsFrom, OpenIds, Heard;
    match e
    case Polled(p) =>
      ExecutionKeepsRounds(m, p, OpenIds(m, p));
    case Timed(first, second) =>
      HeardKeepsRounds(m, first.reply, first.disk);
      SetWeightsKeepsRounds(Heard(m, first.reply, first.disk), Served(first.reply), second);
  }

  // ----- every run

  /** The rounds done are exactly those some earlier completed pass settled: the set only grows,
      and nothing else ever enters it. */
  lemma {:induction false} DoneExactly(m: Memory, es: seq<Event>, i: nat, rid: string)
    requires i <= |es|
    ensures rid in At(m, es, i).done
            <==> rid in m.done || exists j: nat :: j < i && rid in SettledAt(At(m, es, j), es[j])
  {
    hide Step, SettledAt;
    if i > 0 {
      DoneExactly(m, es, i - 1, rid);
      StepOnRounds(At(m, es, i - 1), es[i - 1]);
    }
  }

  lemma {:induction false} DoneGrows(m: Memory, es: seq<Event>, i: nat, j: nat)
    requires i <= j <= |es|
    ensures At(m, es, i).done <= At(m, es, j).done
    decreases j
  {
    hide Step, SettledAt;
    if i < j {
      DoneGrows(m, es, i, j - 1);
      StepOnRounds(At(m, es, j - 1), es[j - 1]);
    }
  }

  lemma NextIs(m: Memory, es: seq<Event>, i: nat)
    requires i < |es|
    ensures At(m, es, i + 1) == Step(At(m, es, i), es[i]).memory
  {
    hide Step;
  }

  /** A round id whose track did not fail in a completed pass is never executed again. */
  lemma NeverExecutedAgain(m: Memory, es: seq<Event>, i: nat, j: nat, rid: string)
    requires i < j < |es|
    requires rid in SettledAt(At(m, es, i), es[i])
    requires StartsAt(At(m, es, j), es[j])
    ensures rid !in OpenIds(At(m, es, j), es[j].p).Values
  {
    hide Step, SettledAt, OpenIds, Starts, At;
    NextIs(m, es, i);
    StepOnRounds(At(m, es, i), es[i]);
    DoneGrows(m, es, i + 1, j);
    ExecutesOnlyOpenRounds(At(m, es, j), es[j]);
  }

  /** A pass executes only open rounds that are not done, and never while a track answers with an
      error or an open submission window, nor before the retry time. */
  lemma ExecutesOnlyOpenRounds(m: Memory, e: Event)
    requires StartsAt(m, e)
    ensures forall t :: t in OpenIds(m, e.p) ==> e.p.replies(t).Open? && OpenIds(m, e.p)[t] !in m.done
    ensures forall t :: !e.p.replies(t).Submission? && !e.p.replies(t).Unreachable? && !e.p.replies(t).Rejected?
    ensures e.p.now >= m.retryAt
  {
    forall t ensures !Holds(e.p.replies(t)) {
      match t
      case Repositories =>
      case Packages =>
      case McpServers =>
      case Skills =>
    }
  }

  /** After a completed pass, the id of an executed track stays eligible exactly when every track
      that shared the id failed. */
  lemma StaysEligibleIff(m: Memory, e: Event, t: Track)
    requires Completes(m, e) && t in OpenIds(m, e.p)
    ensures OpenIds(m, e.p)[t] !in Step(m, e).memory.done
            <==> forall u :: u in OpenIds(m, e.p) && OpenIds(m, e.p)[u] == OpenIds(m, e.p)[t] ==> u in FailedAt(m, e)
  {
    hide Step, ExecuteFrom;
    StepOnRounds(m, e);
    ExecutesOnlyOpenRounds(m, e);
  }

  predicate Distinct(ids: map<Track, string>) {
    forall u, v :: u in ids && v in ids && ids[u] == ids[v] ==> u == v
  }

  /** With ids distinct across tracks, a failed track's id stays eligible. */
  lemma FailedStaysEligible(m: Memory, e: Event, t: Track)
    requires Completes(m, e) && t in OpenIds(m, e.p) && t in FailedAt(m, e)
    requires Distinct(OpenIds(m, e.p))
    ensures OpenIds(m, e.p)[t] !in Step(m, e).memory.done
  {
    hide Step, ExecuteFrom;
    StaysEligibleIff(m, e, t);
  }

  /** A poll that gets the same answers about rounds at the same time; what its pass comes to may differ. */
  ghost predicate SameRounds(p: Poll, q: Poll) {
    q == p.(later := q.later, blockKnown := q.blockKnown, runs := q.runs, starting := q.starting, ending := q.ending)
  }

  /** Every failed track's id stays eligible after a completed pass. */
  ghost predicate SparesFailures(m: Memory, q: Poll) {
    Completes(m, Polled(q)) ==>
      forall t :: t in OpenIds(m, q) && t in FailedAt(m, Polled(q)) ==>
                    OpenIds(m, q)[t] !in Step(m, Polled(q)).memory.done
  }

  /** The pass in which `t` fails and every other track finishes, with a silent backend. */
  function OnlyFails(p: Poll, t: Track): Poll {
    p.(blockKnown := true,
       runs := (u: Track) => if u == t then Failed(None) else Finished("s", []),
       starting := p.starting.(reply := Silent), ending := p.ending.(reply := Silent))
  }

  /** The progress of that pass over the tracks of `done`. */
  ghost predicate OnlyFailed(g: Progress, ids: map<Track, string>, t: Track, done: set<Track>) {
    !g.broke && g.failed == ids.Keys * done * {t} && g.scores.Keys == ids.Keys * done - {t}
  }

  lemma OnlyFailsNext(g: Progress, p: Poll, ids: map<Track, string>, t: Track, done: set<Track>, v: Track)
    requires OnlyFailed(g, ids, t, done)
    ensures OnlyFailed(Advance(g, v, RunOf(OnlyFails(p, t), ids, v)), ids, t, done + {v})
  {
    var h := Advance(g, v, RunOf(OnlyFails(p, t), ids, v));
    if v in ids {
      if v == t {
        assert h.failed == ids.Keys * (done + {v}) * {t};
        assert h.scores.Keys == ids.Keys * (done + {v}) - {t};
      } else {
        assert h.failed == ids.Keys * (done + {v}) * {t};
        assert h.scores.Keys == ids.Keys * (done + {v}) - {t};
      }
    } else {
      assert ids.Keys * (done + {v}) == ids.Keys * done;
    }
  }

  lemma OnlyFailsProgress(p: Poll, ids: map<Track, string>, t: Track)
    ensures OnlyFailed(ProgressAfter(OnlyFails(p, t), ids, 4), ids, t, {Repositories, Packages, McpServers, Skills})
  {
    hide OnlyFailed, Advance, RunOf, OnlyFails;
    var q := OnlyFails(p, t);
    assert OnlyFailed(ProgressAfter(q, ids, 0), ids, t, {}) by { NothingFailed(ids, t); }
    OnlyFailsNext(ProgressAfter(q, ids, 0), p, ids, t, {}, Repositories);
    OnlyFailsNext(ProgressAfter(q, ids, 1), p, ids, t, {Repositories}, Packages);
    OnlyFailsNext(ProgressAfter(q, ids, 2), p, ids, t, {Repositories, Packages}, McpServers);
    OnlyFailsNext(ProgressAfter(q, ids, 3), p, ids, t, {Repositories, Packages, McpServers}, Skills);
    assert {} + {Repositories} == {Repositories} && {Repositories} + {Packages} == {Repositories, Packages}
      && {Repositories, Packages} + {McpServers} == {Repositories, Packages, McpServers}
      && {Repositories, Packages, McpServers} + {Skills} == {Repositories, Packages, McpServers, Skills};
  }

  lemma NothingFailed(ids: map<Track, string>, t: Track)
    ensures OnlyFailed(Progress(map[], {}, map[], false), ids, t, {})
  {
  }

  lemma AllTracks(t: Track)
    ensures t in {Repositories, Packages, McpServers, Skills}
  {
  }

  lemma OnlyFailsPass(m: Memory, p: Poll, ids: map<Track, string>, t: Track, u: Track)
    requires t in ids && u in ids && t != u
    ensures var pass := RunRoundFrom(m, OnlyFails(p, t), ids);
            pass.verdict.Completed? && pass.memory.failed == {t}
  {
    hide ProgressAfter, Advance;
    OnlyFailsProgress(p, ids, t);
    var g := ProgressAfter(OnlyFails(p, t), ids, 4);
    AllTracks(t);
    AllTracks(u);
    assert u in g.scores;
    assert g.failed == {t};
  }

  lemma OnlyFailsCompletes(m: Memory, p: Poll, t: Track, u: Track)
    requires Starts(m, p)
    requires t in OpenIds(m, p) && u in OpenIds(m, p) && t != u
    ensures Completes(m, Polled(OnlyFails(p, t))) && FailedAt(m, Polled(OnlyFails(p, t))) == {t}
    ensures OpenIds(m, OnlyFails(p, t)) == OpenIds(m, p)
  {
    hide SetWeightsFrom, RunRoundFrom, HeldBack;
    var q, ids := OnlyFails(p, t), OpenIds(m, p);
    assert HeldBack(q) == HeldBack(p) by { SameAnswers(p, t); }
    assert OpenIds(m, q) == ids;
    RaisedExactly(m.(running := true), None, q.starting);
    var held := SetWeightsFrom(m.(running := true), None, q.starting).memory;
    OnlyFailsPass(held, p, ids, t, u);
    var pass := RunRoundFrom(held, q, ids);
    RaisedExactly(pass.memory.(running := false), Some(pass.verdict.scores), q.ending);
    SetWeightsKeepsRounds(pass.memory.(running := false), Some(pass.verdict.scores), q.ending);
  }

  lemma SameAnswers(p: Poll, t: Track)
    ensures HeldBack(OnlyFails(p, t)) == HeldBack(p)
  {
  }

  /** Of two open tracks that share an id, one can fail in a completed pass and be written off. */
  lemma SharedIdCanWriteOff(m: Memory, p: Poll, t: Track, u: Track)
    requires Starts(m, p)
    requires t in OpenIds(m, p) && u in OpenIds(m, p) && t != u && OpenIds(m, p)[t] == OpenIds(m, p)[u]
    ensures SameRounds(p, OnlyFails(p, t)) && !SparesFailures(m, OnlyFails(p, t))
  {
    hide Step, ExecuteFrom, OpenIds;
    OnlyFailsCompletes(m, p, t, u);
    StaysEligibleIff(m, Polled(OnlyFails(p, t)), t);
  }

  /** Failed tracks stay eligible whatever a pass comes to if and only if the ids of the open tracks
      are distinct. */
  lemma DistinctExactly(m: Memory, p: Poll)
    requires Starts(m, p)
    ensures Distinct(OpenIds(m, p)) <==> forall q :: SameRounds(p, q) ==> SparesFailures(m, q)
  {
    hide Step, ExecuteFrom, OpenIds, SparesFailures;
    if Distinct(OpenIds(m, p)) {
      forall q | SameRounds(p, q) ensures SparesFailures(m, q) {
        SameOpenIds(m, p, q);
        DistinctSpares(m, q);
      }
    } else {
      var t, u :| t in OpenIds(m, p) && u in OpenIds(m, p) && OpenIds(m, p)[t] == OpenIds(m, p)[u] && t != u;
      SharedIdCanWriteOff(m, p, t, u);
    }
  }

  lemma SameOpenIds(m: Memory, p: Poll, q: Poll)
    requires SameRounds(p, q)
    ensures OpenIds(m, q) == OpenIds(m, p)
  {
  }

  lemma DistinctSpares(m: Memory, q: Poll)
    requires Distinct(OpenIds(m, q))
    ensures SparesFailures(m, q)
  {
    hide Step, ExecuteFrom, OpenIds;
    if Completes(m, Polled(q)) {
      forall t | t in OpenIds(m, q) && t in FailedAt(m, Polled(q))
        ensures OpenIds(m, q)[t] !in Step(m, Polled(q)).memory.done
      {
        FailedStaysEligible(m, Polled(q), t);
      }
    }
  }

  /** Ids really are shared: two open tracks without an id of their own both take the block's, and
      then the one that fails is written off with the one that succeeds. */
  lemma SharedIdWritesOffTheFailure(m: Memory, p: Poll, t: Track, u: Track)
    requires Starts(m, p)
    requires t != u && p.replies(t) == p.replies(u) == Open("") && p.fallbackId !in m.done
    ensures var q := OnlyFails(p, t);
            && Completes(m, Polled(q)) && FailedAt(m, Polled(q)) == {t}
            && OpenIds(m, q)[t] == p.fallbackId && p.fallbackId in Step(m, Polled(q)).memory.done
  {
    assert t in OpenIds(m, p) && u in OpenIds(m, p) && OpenIds(m, p)[t] == OpenIds(m, p)[u] == p.fallbackId by {
      EveryTrackListed(t);
      EveryTrackListed(u);
    }
    hide Step, ExecuteFrom, OpenIds;
    OnlyFailsCompletes(m, p, t, u);
    StaysEligibleIff(m, Polled(OnlyFails(p, t)), t);
  }

  // ----- time

  /** The monotonic clock: a pass ends no earlier than it starts, and the next poll comes later. */
  predicate Clocked(es: seq<Event>) {
    && (forall i :: 0 <= i < |es| && es[i].Polled? ==> es[i].p.now <= es[i].p.later)
    && (forall i, j :: 0 <= i < j < |es| && es[i].Polled? && es[j].Polled? ==> es[i].p.later <= es[j].p.now)
  }

  /** Until event `j`, the retry time never moves back. */
  lemma {:induction false} RetryTimeHolds(m: Memory, es: seq<Event>, i: nat, j: nat)
    requires i <= j <= |es|
    requires Clocked(es)
    ensures At(m, es, i).retryAt <= At(m, es, j).retryAt
    decreases j
  {
    hide Step, ExecuteFrom, OpenIds;
    if i < j {
      RetryTimeHolds(m, es, i, j - 1);
      StepOnRounds(At(m, es, j - 1), es[j - 1]);
    }
  }

  lemma StartsInTime(m: Memory, e: Event)
    requires StartsAt(m, e)
    ensures e.p.now >= m.retryAt
  {
  }

  /** A pass that abstained, or in which a track failed, is followed by no pass within 300 seconds. */
  lemma NotRetriedWithin300(m: Memory, es: seq<Event>, i: nat, j: nat)
    requires i < j < |es|
    requires Clocked(es)
    requires StartsAt(At(m, es, i), es[i])
    requires Abstains(At(m, es, i), es[i]) || (Completes(At(m, es, i), es[i]) && FailedAt(At(m, es, i), es[i]) != {})
    requires StartsAt(At(m, es, j), es[j])
    ensures es[j].p.now >= es[i].p.later + 300.0
  {
    hide Step, Abstains, Completes, FailedAt, Starts, Clocked, At;
    var before, after := At(m, es, i), At(m, es, i + 1);
    NextIs(m, es, i);
    StepOnRounds(before, es[i]);
    RetryTimeHolds(m, es, i + 1, j);
    StartsInTime(At(m, es, j), es[j]);
  }
}
