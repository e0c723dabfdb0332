/** What a pass comes to, read off the poll alone: which tracks it evaluates, how it ends, which rows it
    scored, and that exactly those rows are what the chain is handed. */
module PassMeaning {
  import opened ChainIncentives
  import opened Options
  import opened Emission
  import opened RoundLifecycle
  import opened ValidatorRuns
  import opened ValidatorState
  import Draw

  // ----- the tracks one by one

  /** The seed a track had drawn when its evaluation ended, however it ended. */
  function DrawnSeed(run: TrackRun): Option<string> {
    match run
    case Failed(seed) => seed
    case NoTasks => None
    case Finished(drawn, _) => Some(drawn)
    case Crashed(seed) => seed
  }

  /** None of the first `n` tracks that have a round crashes. */
  predicate NoCrash(p: Poll, ids: map<Track, string>, n: nat)
    requires n <= |TRACKS|
  {
    forall i :: 0 <= i < n && TRACKS[i] in ids ==> !p.runs(TRACKS[i]).Crashed?
  }

  /** The `i`-th track is reached within the first `n`: it has a round and no track before it crashed. */
  predicate Reached(p: Poll, ids: map<Track, string>, n: nat, i: nat)
    requires i < |TRACKS|
  {
    i < n && TRACKS[i] in ids && NoCrash(p, ids, i)
  }

  /** What a pass has on record of a track that was reached or not. */
  ghost predicate OnRecord(g: Progress, t: Track, reached: bool, run: TrackRun) {
    && (t in g.scores <==> reached && run.Finished?)
    && (t in g.scores && run.Finished? ==> g.scores[t] == run.rows)
    && (t in g.failed <==> reached && run.Failed?)
    && (t in g.seeds <==> reached && DrawnSeed(run).Some?)
    && (t in g.seeds && DrawnSeed(run).Some? ==> g.seeds[t] == DrawnSeed(run).value)
  }

  ghost predicate RecordAfter(g: Progress, p: Poll, ids: map<Track, string>, n: nat)
    requires n <= |TRACKS|
  {
    && (g.broke <==> !NoCrash(p, ids, n))
    && forall i :: 0 <= i < |TRACKS| ==> OnRecord(g, TRACKS[i], Reached(p, ids, n, i), p.runs(TRACKS[i]))
  }

  /** One more track leaves the record of every other as it was. */
  lemma OthersKept(g: Progress, t: Track, run: TrackRun, u: Track, reached: bool, other: TrackRun)
    requires OnRecord(g, u, reached, other) && u != t
    ensures OnRecord(Advance(g, t, run), u, reached, other)
  {
  }

  lemma OwnRecorded(g: Progress, t: Track, run: TrackRun)
    requires OnRecord(g, t, false, run)
    ensures OnRecord(Advance(g, t, run), t, !g.broke, run)
  {
  }

  lemma Skipped(g: Progress, t: Track, run: TrackRun)
    requires OnRecord(g, t, false, run)
    ensures OnRecord(Advance(g, t, NoTasks), t, false, run)
  {
  }

  lemma RecordStep(g: Progress, p: Poll, ids: map<Track, string>, n: nat)
    requires n < |TRACKS|
    requires RecordAfter(g, p, ids, n)
    ensures RecordAfter(Advance(g, TRACKS[n], RunOf(p, ids, TRACKS[n])), p, ids, n + 1)
  {
    hide OnRecord, Advance;
    var t, run := TRACKS[n], RunOf(p, ids, TRACKS[n]);
    forall i | 0 <= i < |TRACKS|
      ensures OnRecord(Advance(g, t, run), TRACKS[i], Reached(p, ids, n + 1, i), p.runs(TRACKS[i]))
    {
      assert OnRecord(g, TRACKS[i], Reached(p, ids, n, i), p.runs(TRACKS[i]));
      if i != n {
        OthersKept(g, t, run, TRACKS[i], Reached(p, ids, n, i), p.runs(TRACKS[i]));
      } else if t in ids {
        OwnRecorded(g, t, run);
      } else {
        Skipped(g, t, p.runs(t));
      }
    }
    BrokeNext(g, p, ids, n);
  }

  lemma BrokeNext(g: Progress, p: Poll, ids: map<Track, string>, n: nat)
    requires n < |TRACKS|
    requires g.broke <==> !NoCrash(p, ids, n)
    ensures Advance(g, TRACKS[n], RunOf(p, ids, TRACKS[n])).broke <==> !NoCrash(p, ids, n + 1)
  {
    var t := TRACKS[n];
    assert NoCrash(p, ids, n + 1) <==> NoCrash(p, ids, n) && (t in ids ==> !p.runs(t).Crashed?);
  }

  lemma {:induction false} RecordHolds(p: Poll, ids: map<Track, string>, n: nat)
    requires n <= |TRACKS|
    ensures RecordAfter(ProgressAfter(p, ids, n), p, ids, n)
  {
    hide Advance;
    if n > 0 {
      RecordHolds(p, ids, n - 1);
      RecordStep(ProgressAfter(p, ids, n - 1), p, ids, n - 1);
    }
  }

  lemma PlaceOf(t: Track) returns (i: nat)
    ensures i < |TRACKS| && TRACKS[i] == t
  {
    i := match t case Repositories => 0 case Packages => 1 case McpServers => 2 case Skills => 3;
  }

  // ----- how a pass ends, and with what

  /** The rows of the tracks that were evaluated to the end. */
  function FinishedRows(p: Poll, ids: map<Track, string>): Scores {
    map t | t in ids && p.runs(t).Finished? :: p.runs(t).rows
  }

  predicate SomeCrash(p: Poll, ids: map<Track, string>) {
    exists t :: t in ids && p.runs(t).Crashed?
  }

  predicate SomeFinished(p: Poll, ids: map<Track, string>) {
    exists t :: t in ids && p.runs(t).Finished?
  }

  lemma NoCrashAtAll(p: Poll, ids: map<Track, string>)
    ensures NoCrash(p, ids, 4) <==> !SomeCrash(p, ids)
  {
    if NoCrash(p, ids, 4) {
      forall t | t in ids ensures !p.runs(t).Crashed? {
        var i := PlaceOf(t);
      }
    }
  }

  lemma AllOnRecord(p: Poll, ids: map<Track, string>, t: Track)
    requires !SomeCrash(p, ids)
    ensures OnRecord(ProgressAfter(p, ids, 4), t, t in ids, p.runs(t))
  {
    hide OnRecord, ProgressAfter;
    RecordHolds(p, ids, 4);
    var i := PlaceOf(t);
    assert NoCrash(p, ids, i) by {
      NoCrashAtAll(p, ids);
    }
  }

  /** With the block known, a pass breaks exactly when some track of it crashes, abstains exactly when none
      crashes and none is evaluated to the end, and otherwise completes with exactly the rows of the tracks
      that were, the failed tracks recorded as failed and every seed that was drawn recorded with its track. */
  lemma PassExactly(m: Memory, p: Poll, ids: map<Track, string>)
    ensures var pass := RunRoundFrom(m, p, ids);
            && (pass.verdict.Broke? <==> p.blockKnown && SomeCrash(p, ids))
            && (pass.verdict.Abstained? <==> !p.blockKnown || (!SomeCrash(p, ids) && !SomeFinished(p, ids)))
            && (pass.verdict.Completed? ==> pass.verdict.scores == FinishedRows(p, ids))
            && (p.blockKnown && !SomeCrash(p, ids) ==>
                  && pass.memory.failed == (set t | t in ids && p.runs(t).Failed?)
                  && pass.memory.seeds
                     == map t | t in ids && DrawnSeed(p.runs(t)).Some? :: DrawnSeed(p.runs(t)).value)
  {
    hide ProgressAfter, NoCrash;
    RecordHolds(p, ids, 4);
    NoCrashAtAll(p, ids);
    if p.blockKnown && !SomeCrash(p, ids) {
      var g := ProgressAfter(p, ids, 4);
      forall t ensures OnRecord(g, t, t in ids, p.runs(t)) {
        AllOnRecord(p, ids, t);
      }
      assert g.scores == FinishedRows(p, ids);
      assert SomeFinished(p, ids) <==> FinishedRows(p, ids) != map[] by {
        if t :| t in ids && p.runs(t).Finished? {
          assert t in FinishedRows(p, ids);
        }
        if t :| t in FinishedRows(p, ids) {
          assert t in ids && p.runs(t).Finished?;
        }
      }
    }
  }

  /** A pass that breaks has recorded the tracks before the one that crashed, and no later one. */
  lemma BrokenPass(m: Memory, p: Poll, ids: map<Track, string>, k: nat, i: nat)
    requires p.blockKnown && k < |TRACKS| && i < |TRACKS|
    requires TRACKS[k] in ids && p.runs(TRACKS[k]).Crashed? && NoCrash(p, ids, k)
    ensures var t, after := TRACKS[i], RunRoundFrom(m, p, ids).memory;
            && (t in after.failed <==> i < k && t in ids && p.runs(t).Failed?)
            && (t in after.seeds <==> i <= k && t in ids && DrawnSeed(p.runs(t)).Some?)
            && (t in after.seeds ==> after.seeds[t] == DrawnSeed(p.runs(t)).value)
  {
    hide ProgressAfter;
    RecordHolds(p, ids, 4);
    assert OnRecord(ProgressAfter(p, ids, 4), TRACKS[i], Reached(p, ids, 4, i), p.runs(TRACKS[i]));
    assert i > k ==> !NoCrash(p, ids, i);
  }

  // ----- when a pass starts, and on what

  /** The track answers with an open round that is not done yet; a round without an id of its own goes by
      the id of the block. */
  predicate ToEvaluate(m: Memory, p: Poll, t: Track) {
    && p.replies(t).Open?
    && (if p.replies(t).roundId == "" then p.fallbackId else p.replies(t).roundId) !in m.done
  }

  /** A poll starts a pass exactly when the retry time has come, no track answers with an error or an open
      submission window, and some track has a round to evaluate. */
  lemma StartsExactly(m: Memory, p: Poll)
    ensures Starts(m, p) <==>
            && m.retryAt <= p.now
            && (forall t :: !p.replies(t).Unreachable? && !p.replies(t).Rejected? && !p.replies(t).Submission?)
            && exists t :: ToEvaluate(m, p, t)
    ensures !Starts(m, p) ==> PollFrom(m, p) == Outcome(m, [], false)
  {
    hide ToEvaluate;
    EvaluatesExactly(m, p);
    assert OpenIds(m, p) != map[] <==> exists t :: t in OpenIds(m, p);
    if !HeldBack(p) {
      forall t ensures !Holds(p.replies(t)) {
        var i := PlaceOf(t);
      }
    }
  }

  lemma EvaluatesExactly(m: Memory, p: Poll)
    ensures forall t :: t in OpenIds(m, p) <==> ToEvaluate(m, p, t)
    ensures forall t :: t in OpenIds(m, p) ==>
              OpenIds(m, p)[t] == if p.replies(t).roundId == "" then p.fallbackId else p.replies(t).roundId
  {
    forall t ensures t in TRACKS {
      var i := PlaceOf(t);
    }
  }

  // ----- the rows of the ballot

  /** Reading a backend's answer: the rows of a track that name a hotkey, in any number, and a track
      without one counts as not served. */
  lemma {:induction false} NamedExactly(rows: seq<Row>, r: Row)
    ensures multiset(Named(rows))[r] == if r.hotkey != "" then multiset(rows)[r] else 0
  {
    if rows != [] {
      NamedExactly(rows[1..], r);
      assert rows == [rows[0]] + rows[1..];
    }
  }

  lemma ServedExactly(reply: Reply, t: Track)
    ensures Served(reply).Some? <==> reply.Told?
    ensures reply.Told? ==> (t in Served(reply).value <==>
                             t in reply.tracks && exists r :: r in reply.tracks[t] && r.hotkey != "")
    ensures reply.Told? && t in Served(reply).value ==>
              forall r :: multiset(Served(reply).value[t])[r]
                          == if r.hotkey != "" then multiset(reply.tracks[t])[r] else 0
  {
    hide Named;
    if reply.Told? && t in reply.tracks {
      var rows := reply.tracks[t];
      forall r ensures multiset(Named(rows))[r] == if r.hotkey != "" then multiset(rows)[r] else 0 {
        NamedExactly(rows, r);
      }
      if Named(rows) != [] {
        var r := Named(rows)[0];
        assert r in multiset(Named(rows));
        assert r in multiset(rows);
      }
      if r :| r in rows && r.hotkey != "" {
        assert r in multiset(rows);
        assert r in multiset(Named(rows));
      }
    }
  }

  /** Where the rows of a track on the ballot come from: this pass if it evaluated the track, else the backend
      if it served the track, else what was carried if that is not empty; otherwise the track has none. */
  lemma BallotExactly(m: Memory, w: World, latest: Scores, t: Track)
    ensures var b, served := BallotOf(m, w, latest), Served(w.reply);
            if t in latest then t in b.scores && b.scores[t] == latest[t]
            else if served.Some? && t in served.value then t in b.scores && b.scores[t] == served.value[t]
            else if t in m.carried && m.carried[t] != [] then t in b.scores && b.scores[t] == m.carried[t]
            else t !in b.scores
    ensures var b := BallotOf(m, w, latest);
            && b.contributors == w.contributors && b.digest == w.digest
            && t in b.thresholds && b.thresholds[t] == if t == Repositories then 0.50 else 0.20
  {
    hide Served, Salt;
  }

  // ----- the salt of the ballot

  function Joined(seeds: map<Track, string>, order: seq<Track>): string
    requires forall t :: t in order ==> t in seeds
  {
    if order == [] then "" else seeds[order[0]] + Joined(seeds, order[1..])
  }

  /** The tracks stand in the order of their names. */
  predicate ByName(order: seq<Track>) {
    forall i, j :: 0 <= i < j < |order| ==>
      order[i] != order[j] && Draw.Before(TrackName(order[i]), TrackName(order[j]))
  }

  function Rank(t: Track): nat {
    match t case McpServers => 0 case Packages => 1 case Repositories => 2 case Skills => 3
  }

  function Nth(k: nat): Track
    requires k < 4
  {
    if k == 0 then McpServers else if k == 1 then Packages else if k == 2 then Repositories else Skills
  }

  lemma AllRanked()
    ensures forall t: Track :: Rank(t) < 4 && Nth(Rank(t)) == t
    ensures forall k: nat :: k < 4 ==> Rank(Nth(k)) == k
  {
  }

  lemma SeedIs(seeds: map<Track, string>, t: Track)
    ensures SeedOf(seeds, t) == if t in seeds then seeds[t] else ""
  {
  }

  lemma JoinedFirst(seeds: map<Track, string>, order: seq<Track>)
    requires forall t :: t in order ==> t in seeds
    ensures order == [] ==> Joined(seeds, order) == ""
    ensures order != [] ==> Joined(seeds, order) == seeds[order[0]] + Joined(seeds, order[1..])
  {
  }

  lemma NameOrder(t: Track, u: Track)
    requires t != u
    ensures Draw.Before(TrackName(t), TrackName(u)) <==> Rank(t) < Rank(u)
  {
  }

  function SaltFrom(seeds: map<Track, string>, k: nat): string
    requires k <= 4
    decreases 4 - k
  {
    if k == 4 then "" else SeedOf(seeds, Nth(k)) + SaltFrom(seeds, k + 1)
  }

  lemma SomebodyListed(order: seq<Track>)
    ensures order == [] || exists t :: t in order
  {
    if order != [] {
      assert order[0] in order;
    }
  }

  /** The lowest of an ordered list of tracks comes first. */
  lemma LowestFirst(order: seq<Track>, t: Track)
    requires forall i, j :: 0 <= i < j < |order| ==> Rank(order[i]) < Rank(order[j])
    requires t in order && forall u :: u in order ==> Rank(u) >= Rank(t)
    ensures order == [t] + order[1..]
    ensures forall u :: u in order[1..] <==> u in order && Rank(u) > Rank(t)
  {
    hide Rank;
    assert order[0] in order;
    var i :| 0 <= i < |order| && order[i] == t;
    assert i == 0;
    forall u ensures u in order[1..] <==> u in order && Rank(u) > Rank(t) {
      if u in order && Rank(u) > Rank(t) {
        var j :| 0 <= j < |order| && order[j] == u;
        assert order[1..][j - 1] == u;
      }
      if u in order[1..] {
        var j :| 0 <= j < |order[1..]| && order[1..][j] == u;
        assert order[j + 1] == u;
      }
    }
  }

  lemma {:induction false} JoinedFrom(seeds: map<Track, string>, order: seq<Track>, k: nat)
    requires k <= 4
    requires forall i, j :: 0 <= i < j < |order| ==> Rank(order[i]) < Rank(order[j])
    requires forall t :: t in order <==> t in seeds && Rank(t) >= k
    ensures Joined(seeds, order) == SaltFrom(seeds, k)
    decreases 4 - k
  {
    hide Rank, Nth, Joined, SeedOf;
    AllRanked();
    if k == 4 {
      SomebodyListed(order);
      JoinedFirst(seeds, order);
    } else if Nth(k) in seeds {
      LowestFirst(order, Nth(k));
      JoinedFrom(seeds, order[1..], k + 1);
      JoinedFirst(seeds, order);
      SeedIs(seeds, Nth(k));
    } else {
      JoinedFrom(seeds, order, k + 1);
      SeedIs(seeds, Nth(k));
    }
  }

  lemma SaltUnrolled(seeds: map<Track, string>)
    ensures SaltFrom(seeds, 0) == Salt(seeds)
  {
    hide SeedOf;
    assert SaltFrom(seeds, 4) == "";
    assert SaltFrom(seeds, 3) == SeedOf(seeds, Skills) + SaltFrom(seeds, 4);
    assert SaltFrom(seeds, 2) == SeedOf(seeds, Repositories) + SaltFrom(seeds, 3);
    assert SaltFrom(seeds, 1) == SeedOf(seeds, Packages) + SaltFrom(seeds, 2);
    assert SaltFrom(seeds, 0) == SeedOf(seeds, McpServers) + SaltFrom(seeds, 1);
  }

  /** The salt is the seeds of the pass joined in the order of the names of their tracks. */
  lemma SaltExactly(seeds: map<Track, string>, order: seq<Track>)
    requires forall t :: t in order <==> t in seeds
    requires ByName(order)
    ensures Salt(seeds) == Joined(seeds, order)
  {
    hide Joined, Draw.Before, SaltFrom, Salt, Rank, TrackName;
    AllRanked();
    forall i, j | 0 <= i < j < |order| ensures Rank(order[i]) < Rank(order[j]) {
      NameOrder(order[i], order[j]);
    }
    JoinedFrom(seeds, order, 0);
    SaltUnrolled(seeds);
  }

  // ----- what reaches the chain

  /** While the operator pauses emissions, a refresh votes the reserved hotkey alone if there is one and
      nothing otherwise, and drops no score and no average beyond what the answer itself drops. */
  lemma PausedExactly(m: Memory, scores: Option<Scores>, w: World)
    requires !Raises(w.reply) && (if w.reply.Told? then w.reply.paused else m.paused)
    ensures var hotkey := if w.reply.Told? then w.reply.reservedHotkey else m.reservedHotkey;
            SetWeightsFrom(m, scores, w).pushes == if hotkey == "" then [] else [map[hotkey := 1.0]]
    ensures SetWeightsFrom(m, scores, w).memory == Heard(m, w.reply, w.disk)
  {
    hide Scored, Unscored;
  }

  /** Emissions are paused once the answer that ends the pass is read. */
  predicate PausedAtEnd(m: Memory, p: Poll) {
    if HasFlags(p.ending.reply) then p.ending.reply.paused
    else if HasFlags(p.starting.reply) then p.starting.reply.paused
    else m.paused
  }

  lemma PassKeepsTheRest(m: Memory, p: Poll, ids: map<Track, string>)
    ensures var after := RunRoundFrom(m, p, ids).memory;
            after == m.(seeds := after.seeds, failed := after.failed)
  {
    hide ProgressAfter;
  }

  /** Without scores or with a pass in flight, the answer alone decides the state that is left. */
  lemma HeldAsHeard(m: Memory, scores: Option<Scores>, w: World)
    requires scores.None? || m.running
    ensures SetWeightsFrom(m, scores, w).memory == Heard(m, w.reply, w.disk)
  {
    hide Scored, Held, Heard;
    HeardKeepsFlag(m, w.reply, w.disk);
  }

  lemma HeardPaused(m: Memory, w: World)
    ensures Heard(m, w.reply, w.disk).paused == if HasFlags(w.reply) then w.reply.paused else m.paused
  {
  }

  lemma PausedOver(m: Memory, p: Poll)
    requires Starts(m, p)
    ensures var over := OverFrom(m, p).memory;
            && Heard(over, p.ending.reply, p.ending.disk).paused == PausedAtEnd(m, p)
            && !Heard(over, p.ending.reply, p.ending.disk).running
  {
    hide SetWeightsFrom, RunRoundFrom, OpenIds, HeldBack, Heard;
    var held := Heard(m.(running := true), p.starting.reply, p.starting.disk);
    HeldAsHeard(m.(running := true), None, p.starting);
    PassKeepsTheRest(held, p, OpenIds(m, p));
    HeardPaused(m.(running := true), p.starting);
    HeardPaused(OverFrom(m, p).memory, p.ending);
    HeardKeepsFlag(OverFrom(m, p).memory, p.ending.reply, p.ending.disk);
  }

  lemma HeardWhileRunning(m: Memory, w: World)
    ensures Heard(m.(running := true), w.reply, w.disk) == Heard(m, w.reply, w.disk).(running := true)
  {
    hide Heard;
    if HasFlags(w.reply) {
      HeardFields(m, w.reply, w.disk);
      HeardFields(m.(running := true), w.reply, w.disk);
    } else {
      HeardNothing(m, w.reply, w.disk);
      HeardNothing(m.(running := true), w.reply, w.disk);
    }
  }

  /** The state a completed pass hands to the vote: the seeds and the failed tracks are those of the pass, and
      the average and the carried scores are as the answer before the pass left them. */
  lemma OverExactly(m: Memory, p: Poll)
    requires Starts(m, p) && !Raises(p.starting.reply)
    requires p.blockKnown && !SomeCrash(p, OpenIds(m, p))
    ensures var ids, over, held := OpenIds(m, p), OverFrom(m, p).memory,
              Heard(m, p.starting.reply, p.starting.disk);
            && over.failed == (set t | t in ids && p.runs(t).Failed?)
            && over.seeds == (map t | t in ids && DrawnSeed(p.runs(t)).Some? :: DrawnSeed(p.runs(t)).value)
            && over.ema == held.ema && over.carried == held.carried && over.epoch == held.epoch
            && over.reservedHotkey == held.reservedHotkey && over.reservedShare == held.reservedShare
  {
    hide OpenIds, SomeCrash, SetWeightsFrom, Heard, RunRoundFrom, HeldBack;
    var held := SetWeightsFrom(m.(running := true), None, p.starting).memory;
    HeldAsHeard(m.(running := true), None, p.starting);
    HeardWhileRunning(m, p.starting);
    PassExactly(held, p, OpenIds(m, p));
    PassKeepsTheRest(held, p, OpenIds(m, p));
  }

  /** A pass that completes hands the chain the vector of exactly the rows of the tracks it evaluated to the
      end, whatever was scored before. */
  lemma PassIsPushed(m: Memory, p: Poll)
    requires Starts(m, p) && !Raises(p.starting.reply) && !Raises(p.ending.reply)
    requires p.blockKnown && !SomeCrash(p, OpenIds(m, p)) && SomeFinished(p, OpenIds(m, p))
    requires !PausedAtEnd(m, p)
    ensures var o, rows, last := PollFrom(m, p), FinishedRows(p, OpenIds(m, p)),
              Heard(OverFrom(m, p).memory, p.ending.reply, p.ending.disk);
            && !o.raised && o.pushes != []
            && o.pushes[|o.pushes| - 1] == Pushed(last, p.ending, rows)
            && (p.ending.disk.writeScores ==> o.memory.carried == Merged(last.carried, Served(p.ending.reply), rows))
  {
    hide SetWeightsFrom, RunRoundFrom, OpenIds, SomeCrash, SomeFinished, Heard, Merged, Pushed, FinishedRows,
      PausedAtEnd, HeldBack;
    var ids := OpenIds(m, p);
    RaisedExactly(m.(running := true), None, p.starting);
    var held := SetWeightsFrom(m.(running := true), None, p.starting);
    PassExactly(held.memory, p, ids);
    PausedOver(m, p);
    var over, rows := OverFrom(m, p), FinishedRows(p, ids);
    assert over.verdict == Completed(rows);
    RaisedExactly(over.memory, Some(rows), p.ending);
    PushedExactly(over.memory, p.ending, rows);
    CarriedExactly(over.memory, p.ending, rows);
  }

  lemma CarriedExactly(m: Memory, w: World, latest: Scores)
    requires var h := Heard(m, w.reply, w.disk); !Raises(w.reply) && !h.paused && !h.running
    ensures var h, c := Heard(m, w.reply, w.disk), SetWeightsFrom(m, Some(latest), w).memory.carried;
            c == if w.disk.writeScores then Merged(h.carried, Served(w.reply), latest) else h.carried
  {
    hide SmoothedVector, Held, Merged, Heard, Served;
  }

  // ----- what is done and what is retried

  predicate SomeFailed(p: Poll, ids: map<Track, string>) {
    exists t :: t in ids && p.runs(t).Failed?
  }

  /** A pass that no answer cuts short raises exactly when it breaks. It settles the ids of the tracks that did not
      fail if it completes, and none otherwise; and it is put off by 300 seconds if it abstains or some track
      failed. */
  lemma RoundsExactly(m: Memory, p: Poll)
    requires Starts(m, p) && !Raises(p.starting.reply) && !Raises(p.ending.reply)
    ensures var ids, o := OpenIds(m, p), PollFrom(m, p);
            var breaks := p.blockKnown && SomeCrash(p, ids);
            var completes := p.blockKnown && !SomeCrash(p, ids) && SomeFinished(p, ids);
            && o.raised == breaks
            && o.memory.done == (if completes then m.done + (set t | t in ids && !p.runs(t).Failed? :: ids[t])
                                 else m.done)
            && o.memory.retryAt == (if !breaks && (!completes || SomeFailed(p, ids)) then p.later + 300.0
                                    else m.retryAt)
  {
    hide SetWeightsFrom, RunRoundFrom, OpenIds, SomeCrash, SomeFinished, SomeFailed, HeldBack, Step;
    var ids, e := OpenIds(m, p), Polled(p);
    RaisedExactly(m.(running := true), None, p.starting);
    var held := SetWeightsFrom(m.(running := true), None, p.starting).memory;
    PassExactly(held, p, ids);
    var over := OverFrom(m, p);
    RaisedExactly(over.memory, if over.verdict.Completed? then Some(over.verdict.scores) else None, p.ending);
    StepOnRounds(m, e);
    StepIsPoll(m, p);
    if over.verdict.Completed? {
      SetWeightsKeepsRounds(over.memory, Some(over.verdict.scores), p.ending);
      FailedExactly(p, ids, over.memory.failed);
    }
  }

  lemma StepIsPoll(m: Memory, p: Poll)
    ensures Step(m, Polled(p)) == PollFrom(m, p)
  {
    hide PollFrom;
  }

  lemma FailedExactly(p: Poll, ids: map<Track, string>, failed: set<Track>)
    requires failed == set t | t in ids && p.runs(t).Failed?
    ensures failed != {} <==> SomeFailed(p, ids)
    ensures Finishing(ids, failed) == set t | t in ids && !p.runs(t).Failed? :: ids[t]
  {
    assert failed != {} <==> exists t :: t in failed;
    forall t | t in ids ensures t in failed <==> p.runs(t).Failed? {}
    var rest: set<string> := set t | t in ids && !p.runs(t).Failed? :: ids[t];
    forall rid ensures rid in Finishing(ids, failed) <==> rid in rest {}
  }
}
