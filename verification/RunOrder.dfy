/** Completion order over whole runs: permuting the score rows in every answer and every pass changes
    no vector pushed, no average, no round. */
module RunOrder {
  import opened Emission
  import opened EmissionIncentives
  import opened Options
  import opened Smoothing
  import opened Sorting
  import opened Sums
  import opened ValidatorRuns
  import opened ValidatorState

  // ----- the same rows in another order

  ghost predicate Alike(x: Scores, y: Scores) {
    x.Keys == y.Keys && forall t :: t in x ==> multiset(x[t]) == multiset(y[t])
  }

  ghost predicate AlikeReply(r: Reply, s: Reply) {
    if r.Told? then s.Told? && s == r.(tracks := s.tracks) && Alike(r.tracks, s.tracks) else s == r
  }

  ghost predicate AlikeWorld(w: World, v: World) {
    v == w.(reply := v.reply) && AlikeReply(w.reply, v.reply)
  }

  ghost predicate AlikeRun(a: TrackRun, b: TrackRun) {
    if a.Finished? then b.Finished? && a.drawn == b.drawn && multiset(a.rows) == multiset(b.rows) else b == a
  }

  ghost predicate AlikePoll(p: Poll, q: Poll) {
    && q == p.(runs := q.runs, starting := q.starting, ending := q.ending)
    && AlikeWorld(p.starting, q.starting) && AlikeWorld(p.ending, q.ending)
    && forall t :: AlikeRun(p.runs(t), q.runs(t))
  }

  ghost predicate AlikeEvent(e: Event, f: Event) {
    match e
    case Polled(p) => f.Polled? && AlikePoll(p, f.p)
    case Timed(first, second) => f.Timed? && AlikeWorld(first, f.first) && AlikeWorld(second, f.second)
  }

  ghost predicate AlikeMemory(m: Memory, n: Memory) {
    n == m.(carried := n.carried) && Alike(m.carried, n.carried)
  }

  ghost predicate AlikeOutcome(x: Outcome, y: Outcome) {
    AlikeMemory(x.memory, y.memory) && x.pushes == y.pushes && x.raised == y.raised
  }

  // ----- the hotkeys involved, which the digest tells apart

  predicate RowsWithin(rows: seq<Row>, hotkeys: set<string>) {
    forall r :: r in rows ==> r.hotkey in hotkeys
  }

  predicate Within(scores: Scores, hotkeys: set<string>) {
    forall t :: t in scores ==> RowsWithin(scores[t], hotkeys)
  }

  ghost predicate TellsApart(digest: string -> int, hotkeys: set<string>) {
    forall salt, x, y ::
      x in hotkeys && y in hotkeys && TiebreakKey(digest, salt, x) == TiebreakKey(digest, salt, y) ==> x == y
  }

  ghost predicate CleanWorld(w: World, hotkeys: set<string>) {
    TellsApart(w.digest, hotkeys) && (w.reply.Told? ==> Within(w.reply.tracks, hotkeys))
  }

  ghost predicate CleanEvent(e: Event, hotkeys: set<string>) {
    match e
    case Polled(p) =>
      && CleanWorld(p.starting, hotkeys) && CleanWorld(p.ending, hotkeys)
      && forall t :: p.runs(t).Finished? ==> RowsWithin(p.runs(t).rows, hotkeys)
    case Timed(first, second) => CleanWorld(first, hotkeys) && CleanWorld(second, hotkeys)
  }

  // ----- reading and merging scores

  lemma {:induction false} NamedCounts(rows: seq<Row>, r: Row)
    ensures multiset(Named(rows))[r] == if r.hotkey != "" then multiset(rows)[r] else 0
  {
    if rows != [] {
      NamedCounts(rows[1..], r);
      assert rows == [rows[0]] + rows[1..];
    }
  }

  lemma NamedAlike(x: seq<Row>, y: seq<Row>)
    requires multiset(x) == multiset(y)
    ensures multiset(Named(x)) == multiset(Named(y))
    ensures Named(x) == [] <==> Named(y) == []
  {
    forall r: Row ensures multiset(Named(x))[r] == multiset(Named(y))[r] {
      NamedCounts(x, r);
      NamedCounts(y, r);
    }
    MultisetMembers(Named(x), Named(y));
  }

  lemma {:induction false} NamedWithin(rows: seq<Row>, hotkeys: set<string>)
    requires RowsWithin(rows, hotkeys)
    ensures RowsWithin(Named(rows), hotkeys)
  {
    if rows != [] {
      assert rows[0] in rows && forall r :: r in rows[1..] ==> r in rows;
      NamedWithin(rows[1..], hotkeys);
    }
  }

  ghost predicate AlikeServed(a: Option<Scores>, b: Option<Scores>) {
    a.Some? == b.Some? && (a.Some? ==> Alike(a.value, b.value))
  }

  lemma ServedAlike(r: Reply, s: Reply)
    requires AlikeReply(r, s)
    ensures AlikeServed(Served(r), Served(s))
  {
    hide Named;
    if r.Told? {
      forall t | t in r.tracks
        ensures multiset(Named(r.tracks[t])) == multiset(Named(s.tracks[t]))
        ensures Named(r.tracks[t]) == [] <==> Named(s.tracks[t]) == []
      {
        NamedAlike(r.tracks[t], s.tracks[t]);
      }
    }
  }

  lemma ServedWithin(r: Reply, hotkeys: set<string>)
    requires r.Told? ==> Within(r.tracks, hotkeys)
    ensures Served(r).Some? ==> Within(Served(r).value, hotkeys)
  {
    hide Named, RowsWithin;
    if r.Told? {
      forall t | t in Served(r).value ensures RowsWithin(Served(r).value[t], hotkeys) {
        NamedWithin(r.tracks[t], hotkeys);
      }
    }
  }

  lemma EmptyAlike(x: seq<Row>, y: seq<Row>)
    requires multiset(x) == multiset(y)
    ensures x == [] <==> y == []
  {
    MultisetMembers(x, y);
  }

  lemma MergedAlike(c: Scores, d: Scores, a: Option<Scores>, b: Option<Scores>, x: Scores, y: Scores)
    requires Alike(c, d) && AlikeServed(a, b) && Alike(x, y)
    ensures Alike(Merged(c, a, x), Merged(d, b, y))
  {
    forall t | t in c ensures c[t] == [] <==> d[t] == [] {
      EmptyAlike(c[t], d[t]);
    }
    assert Alike(Nonempty(c), Nonempty(d));
  }

  lemma MergedWithin(c: Scores, a: Option<Scores>, x: Scores, hotkeys: set<string>)
    requires Within(c, hotkeys) && (a.Some? ==> Within(a.value, hotkeys)) && Within(x, hotkeys)
    ensures Within(Merged(c, a, x), hotkeys)
  {
  }

  // ----- one call

  lemma VoteAlike(b: Ballot, c: Ballot, hotkeys: set<string>)
    requires c == b.(scores := c.scores) && Alike(b.scores, c.scores)
    requires Within(b.scores, hotkeys) && TellsApart(b.digest, hotkeys)
    ensures EmissionWeights(b) == EmissionWeights(c)
  {
    hide EmissionWeights;
    forall t ensures multiset(RowsOf(b, t)) == multiset(RowsOf(c, t))
                     && NoCollision(b.digest, SaltOf(b, t), RowsOf(b, t)) {
    }
    OrderIndependence(b, c);
  }

  lemma HeardInOrder(m: Memory, n: Memory, r: Reply, s: Reply, disk: Disk, hotkeys: set<string>)
    requires AlikeMemory(m, n) && AlikeReply(r, s)
    requires Within(m.carried, hotkeys)
    ensures AlikeMemory(Heard(m, r, disk), Heard(n, s, disk))
    ensures Within(Heard(m, r, disk).carried, hotkeys)
  {
    hide Heard;
    if HasFlags(r) {
      HeardFields(m, r, disk);
      HeardFields(n, s, disk);
    } else {
      HeardNothing(m, r, disk);
      HeardNothing(n, s, disk);
    }
  }

  lemma BallotAlike(m: Memory, n: Memory, w: World, v: World, x: Scores, y: Scores, hotkeys: set<string>)
    requires AlikeMemory(m, n) && AlikeWorld(w, v) && Alike(x, y)
    requires CleanWorld(w, hotkeys) && Within(m.carried, hotkeys) && Within(x, hotkeys)
    ensures var b, c := BallotOf(m, w, x), BallotOf(n, v, y);
            && c == b.(scores := c.scores) && Alike(b.scores, c.scores) && Within(b.scores, hotkeys)
            && b.scores == Merged(m.carried, Served(w.reply), x) && c.scores == Merged(n.carried, Served(v.reply), y)
            && b.digest == w.digest
  {
    hide Merged, Salt, Served, Alike, Within, TellsApart;
    ServedAlike(w.reply, v.reply);
    ServedWithin(w.reply, hotkeys);
    MergedAlike(m.carried, n.carried, Served(w.reply), Served(v.reply), x, y);
    MergedWithin(m.carried, Served(w.reply), x, hotkeys);
  }

  lemma ScoredAlike(m: Memory, n: Memory, w: World, v: World, x: Scores, y: Scores, hotkeys: set<string>)
    requires AlikeMemory(m, n) && AlikeWorld(w, v) && Alike(x, y)
    requires CleanWorld(w, hotkeys) && Within(m.carried, hotkeys) && Within(x, hotkeys)
    ensures AlikeOutcome(Scored(m, w, x), Scored(n, v, y))
    ensures Within(Scored(m, w, x).memory.carried, hotkeys)
  {
    hide EmissionWeights, Blend, ApplyReserved, Merged, Salt, Served, Alike, Within, TellsApart, BallotOf, AlikeReply;
    BallotAlike(m, n, w, v, x, y, hotkeys);
    VoteAlike(BallotOf(m, w, x), BallotOf(n, v, y), hotkeys);
    assert SmoothedVector(m, w, x) == SmoothedVector(n, v, y);
  }

  /** One `set_weights` on the same rows in another order pushes the same vectors. */
  lemma CallAlike(m: Memory, n: Memory, a: Option<Scores>, b: Option<Scores>, w: World, v: World, hotkeys: set<string>)
    requires AlikeMemory(m, n) && AlikeWorld(w, v) && AlikeServed(a, b)
    requires CleanWorld(w, hotkeys) && Within(m.carried, hotkeys) && (a.Some? ==> Within(a.value, hotkeys))
    ensures AlikeOutcome(SetWeightsFrom(m, a, w), SetWeightsFrom(n, b, v))
    ensures Within(SetWeightsFrom(m, a, w).memory.carried, hotkeys)
  {
    hide Scored, ApplyReserved, Heard, Alike, Within, TellsApart;
    HeardInOrder(m, n, w.reply, v.reply, w.disk, hotkeys);
    if a.Some? {
      ScoredAlike(Heard(m, w.reply, w.disk), Heard(n, v.reply, v.disk), w, v, a.value, b.value, hotkeys);
    }
  }

  // ----- one pass

  ghost predicate AlikeProgress(g: Progress, h: Progress) {
    h == g.(scores := h.scores) && Alike(g.scores, h.scores)
  }

  lemma {:induction false} ProgressAlike(p: Poll, q: Poll, ids: map<Track, string>, n: nat, hotkeys: set<string>)
    requires n <= |TRACKS|
    requires AlikePoll(p, q) && CleanEvent(Polled(p), hotkeys)
    ensures AlikeProgress(ProgressAfter(p, ids, n), ProgressAfter(q, ids, n))
    ensures Within(ProgressAfter(p, ids, n).scores, hotkeys)
  {
    if n > 0 {
      ProgressAlike(p, q, ids, n - 1, hotkeys);
      hide ProgressAfter, AlikeWorld, CleanWorld;
      AdvanceAlike(ProgressAfter(p, ids, n - 1), ProgressAfter(q, ids, n - 1), TRACKS[n - 1],
                   RunOf(p, ids, TRACKS[n - 1]), RunOf(q, ids, TRACKS[n - 1]), hotkeys);
    }
  }

  lemma AdvanceAlike(g: Progress, h: Progress, t: Track, a: TrackRun, b: TrackRun, hotkeys: set<string>)
    requires AlikeProgress(g, h) && AlikeRun(a, b)
    requires Within(g.scores, hotkeys) && (a.Finished? ==> RowsWithin(a.rows, hotkeys))
    ensures AlikeProgress(Advance(g, t, a), Advance(h, t, b))
    ensures Within(Advance(g, t, a).scores, hotkeys)
  {
  }

  ghost predicate AlikeVerdict(a: Verdict, b: Verdict) {
    if a.Completed? then b.Completed? && Alike(a.scores, b.scores) else b == a
  }

  ghost predicate AlikePass(x: Pass, y: Pass, hotkeys: set<string>) {
    && AlikeMemory(x.memory, y.memory) && AlikeVerdict(x.verdict, y.verdict)
    && Within(x.memory.carried, hotkeys) && (x.verdict.Completed? ==> Within(x.verdict.scores, hotkeys))
  }

  lemma PassAlike(m: Memory, n: Memory, p: Poll, q: Poll, ids: map<Track, string>, hotkeys: set<string>)
    requires AlikeMemory(m, n) && AlikePoll(p, q) && CleanEvent(Polled(p), hotkeys) && Within(m.carried, hotkeys)
    ensures AlikePass(RunRoundFrom(m, p, ids), RunRoundFrom(n, q, ids), hotkeys)
  {
    hide ProgressAfter, CleanEvent, AlikeWorld, Within;
    ProgressAlike(p, q, ids, 4, hotkeys);
    var g, h := ProgressAfter(p, ids, 4), ProgressAfter(q, ids, 4);
    assert g.scores == map[] <==> h.scores == map[];
  }

  ghost predicate AlikeExecuted(x: Executed, y: Executed, hotkeys: set<string>) {
    && AlikeMemory(x.memory, y.memory) && x.pushes == y.pushes && AlikeVerdict(x.verdict, y.verdict)
    && Within(x.memory.carried, hotkeys)
  }

  lemma ConcludeAlike(x: Pass, y: Pass, pushes: seq<Weights>, w: World, v: World, hotkeys: set<string>)
    requires AlikePass(x, y, hotkeys) && AlikeWorld(w, v) && CleanWorld(w, hotkeys)
    ensures AlikeExecuted(ConcludeFrom(x, pushes, w), ConcludeFrom(y, pushes, v), hotkeys)
  {
    hide SetWeightsFrom, Alike, Within, AlikeWorld, CleanWorld;
    var over, over' := x.memory.(running := false), y.memory.(running := false);
    CallAlike(over, over', None, None, w, v, hotkeys);
    if x.verdict.Completed? {
      CallAlike(over, over', Some(x.verdict.scores), Some(y.verdict.scores), w, v, hotkeys);
    }
  }

  lemma ExecuteAlike(m: Memory, n: Memory, p: Poll, q: Poll, ids: map<Track, string>, hotkeys: set<string>)
    requires AlikeMemory(m, n) && AlikePoll(p, q) && CleanEvent(Polled(p), hotkeys) && Within(m.carried, hotkeys)
    ensures AlikeExecuted(ExecuteFrom(m, p, ids), ExecuteFrom(n, q, ids), hotkeys)
  {
    hide SetWeightsFrom, RunRoundFrom, ConcludeFrom, Alike, Within, AlikeWorld, CleanWorld;
    CallAlike(m.(running := true), n.(running := true), None, None, p.starting, q.starting, hotkeys);
    var held := SetWeightsFrom(m.(running := true), None, p.starting);
    var held' := SetWeightsFrom(n.(running := true), None, q.starting);
    PassAlike(held.memory, held'.memory, p, q, ids, hotkeys);
    ConcludeAlike(RunRoundFrom(held.memory, p, ids), RunRoundFrom(held'.memory, q, ids), held.pushes,
                  p.ending, q.ending, hotkeys);
  }

  // ----- one event and every run

  lemma PollAlike(m: Memory, n: Memory, p: Poll, q: Poll, hotkeys: set<string>)
    requires AlikeMemory(m, n) && AlikePoll(p, q) && CleanEvent(Polled(p), hotkeys) && Within(m.carried, hotkeys)
    ensures AlikeOutcome(PollFrom(m, p), PollFrom(n, q))
    ensures Within(PollFrom(m, p).memory.carried, hotkeys)
  {
    hide ExecuteFrom, Alike, Within, AlikeWorld, CleanEvent;
    assert OpenIds(n, q) == OpenIds(m, p);
    ExecuteAlike(m, n, p, q, OpenIds(m, p), hotkeys);
  }

  lemma StepAlike(m: Memory, n: Memory, e: Event, f: Event, hotkeys: set<string>)
    requires AlikeMemory(m, n) && AlikeEvent(e, f) && CleanEvent(e, hotkeys) && Within(m.carried, hotkeys)
    ensures AlikeOutcome(Step(m, e), Step(n, f))
    ensures Within(Step(m, e).memory.carried, hotkeys)
  {
    hide SetWeightsFrom, PollFrom, Heard, Served, Alike, Within, TellsApart;
    match e
    case Polled(p) => PollAlike(m, n, p, f.p, hotkeys);
    case Timed(first, second) =>
      HeardInOrder(m, n, first.reply, f.first.reply, first.disk, hotkeys);
      ServedAlike(first.reply, f.first.reply);
      ServedWithin(first.reply, hotkeys);
      CallAlike(Heard(m, first.reply, first.disk), Heard(n, f.first.reply, first.disk),
                Served(first.reply), Served(f.first.reply), second, f.second, hotkeys);
  }

  /** Over every run, the same rows in any other order in every answer and every finished track lead
      to the same averages, the same rounds and the same vectors on the chain. */
  lemma {:induction false} RunsIgnoreOrder(m: Memory, n: Memory, es: seq<Event>, fs: seq<Event>, i: nat,
                                           hotkeys: set<string>)
    requires i <= |es| == |fs|
    requires AlikeMemory(m, n) && Within(m.carried, hotkeys)
    requires forall k :: 0 <= k < |es| ==> AlikeEvent(es[k], fs[k]) && CleanEvent(es[k], hotkeys)
    ensures AlikeMemory(At(m, es, i), At(n, fs, i)) && Within(At(m, es, i).carried, hotkeys)
    ensures i < |es| ==> Step(At(m, es, i), es[i]).pushes == Step(At(n, fs, i), fs[i]).pushes
  {
    hide Step, Alike, Within, AlikeEvent, CleanEvent;
    if i > 0 {
      RunsIgnoreOrder(m, n, es, fs, i - 1, hotkeys);
      StepAlike(At(m, es, i - 1), At(n, fs, i - 1), es[i - 1], fs[i - 1], hotkeys);
    }
    if i < |es| {
      StepAlike(At(m, es, i), At(n, fs, i), es[i], fs[i], hotkeys);
    }
  }
}
