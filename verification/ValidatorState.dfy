/** The validator's carried state and, as functions on it, what one weight refresh and one
    round poll do to it. `Validator` runs the same steps on an object. */
module ValidatorState {
  import opened Options
  import opened Sums
  import opened Emission
  import opened Smoothing

  /** Everything carried between steps; `ema`, `carried` and `epoch` live in state files. */
  datatype Memory = Memory(
    paused: bool,
    reservedHotkey: string,
    reservedShare: real,
    running: bool,
    seeds: map<Track, string>,
    ema: Weights,
    carried: Scores,
    epoch: int,
    done: set<string>,
    failed: set<Track>,
    retryAt: real)

  // ----- what the outside world answers

  /** The backend's answer when the validator reads its results back: none, a well-formed one, one
      with a score row that is not a number, or one that is not a dictionary at all. */
  datatype Reply =
    | Silent
    | Told(paused: bool, reservedHotkey: string, reservedShare: real, epoch: int, tracks: Scores)
    | Garbled(paused: bool, reservedHotkey: string, reservedShare: real, epoch: int)
    | Unreadable

  /** Reading the answer raises. */
  predicate Raises(reply: Reply) {
    reply.Garbled? || reply.Unreadable?
  }

  /** The answer carries flags; a garbled one raises only after they took effect. */
  predicate HasFlags(reply: Reply) {
    reply.Told? || reply.Garbled?
  }

  /** Which of the state-file writes of one refresh succeed. */
  datatype Disk = Disk(clearScores: bool, clearWeights: bool, writeEpoch: bool, writeScores: bool, writeWeights: bool)

  /** The outside of one weight refresh. */
  datatype World = World(reply: Reply, disk: Disk, contributors: set<string>, digest: string -> int)

  // ----- reading the backend

  function Named(rows: seq<Row>): seq<Row> {
    if rows == [] then []
    else (if rows[0].hotkey != "" then [rows[0]] else []) + Named(rows[1..])
  }

  function Served(reply: Reply): Option<Scores> {
    if !reply.Told? then None
    else Some(map t | t in reply.tracks && Named(reply.tracks[t]) != [] :: Named(reply.tracks[t]))
  }

  /** The flags follow the answer; a new epoch drops the carried scores and the average. */
  function Heard(m: Memory, reply: Reply, disk: Disk): Memory {
    if !HasFlags(reply) then m
    else
      var told := m.(paused := reply.paused, reservedHotkey := reply.reservedHotkey,
                     reservedShare := reply.reservedShare);
      if reply.epoch == m.epoch then told
      else told.(carried := if disk.clearScores then map[] else m.carried,
                 ema := if disk.clearWeights then map[] else m.ema,
                 epoch := if disk.writeEpoch then reply.epoch else m.epoch)
  }

  /** The state fields an answer leaves, one by one. */
  lemma HeardFields(m: Memory, reply: Reply, disk: Disk)
    requires HasFlags(reply)
    ensures var h := Heard(m, reply, disk);
            && h.paused == reply.paused && h.reservedHotkey == reply.reservedHotkey
            && h.reservedShare == reply.reservedShare
            && h.ema == (if reply.epoch != m.epoch && disk.clearWeights then map[] else m.ema)
            && h.epoch == (if reply.epoch != m.epoch && disk.writeEpoch then reply.epoch else m.epoch)
            && h.carried == (if reply.epoch != m.epoch && disk.clearScores then map[] else m.carried)
            && h.running == m.running && h.seeds == m.seeds && h.done == m.done
            && h.failed == m.failed && h.retryAt == m.retryAt
  {
  }

  lemma HeardNothing(m: Memory, reply: Reply, disk: Disk)
    requires !HasFlags(reply)
    ensures Heard(m, reply, disk) == m
  {
  }

  // ----- one weight refresh

  const THRESHOLDS: map<Track, real> := map[Skills := 0.20, McpServers := 0.20, Packages := 0.20, Repositories := 0.50]

  function Nonempty(scores: Scores): Scores {
    map t | t in scores && scores[t] != [] :: scores[t]
  }

  /** Scores of this pass over what the backend served over what was carried. */
  function Merged(carried: Scores, served: Option<Scores>, latest: Scores): Scores {
    Nonempty(carried) + (if served.Some? then served.value else map[]) + latest
  }

  function SeedOf(seeds: map<Track, string>, t: Track): string {
    if t in seeds then seeds[t] else ""
  }

  /** The round seeds joined in the order of the track names. */
  function Salt(seeds: map<Track, string>): string {
    SeedOf(seeds, McpServers) + SeedOf(seeds, Packages) + SeedOf(seeds, Repositories) + SeedOf(seeds, Skills)
  }

  function BallotOf(m: Memory, w: World, latest: Scores): Ballot {
    Ballot(Merged(m.carried, Served(w.reply), latest), w.contributors, THRESHOLDS, w.digest, Salt(m.seeds))
  }

  /** A state, the vectors handed to the chain on the way to it, in order, and whether the step
      was cut short by an error. */
  datatype Outcome = Outcome(memory: Memory, pushes: seq<Weights>, raised: bool)

  ghost function Held(m: Memory, vector: Weights): Weights {
    ApplyReserved(vector, m.reservedHotkey, m.reservedShare)
  }

  ghost function SmoothedVector(m: Memory, w: World, latest: Scores): Weights {
    Blend(m.ema, EmissionWeights(BallotOf(m, w, latest)))
  }

  ghost function Scored(m: Memory, w: World, latest: Scores): Outcome {
    var blended := SmoothedVector(m, w, latest);
    Outcome(
      m.(carried := if w.disk.writeScores then Merged(m.carried, Served(w.reply), latest) else m.carried,
         ema := if w.disk.writeWeights then blended else m.ema),
      [Held(m, blended)], false)
  }

  ghost function Unscored(m: Memory): Outcome {
    Outcome(m, if m.ema == map[] then [] else [Held(m, m.ema)], false)
  }

  /** What `set_weights` does. */
  ghost function SetWeightsFrom(m0: Memory, scores: Option<Scores>, w: World): Outcome {
    var m := Heard(m0, w.reply, w.disk);
    if Raises(w.reply) then Outcome(m, [], true)
    else if m.paused then
      Outcome(m, if m.reservedHotkey != "" then [map[m.reservedHotkey := 1.0]] else [], false)
    else if m.running || scores.None? then Unscored(m)
    else Scored(m, w, scores.value)
  }

  /** The timed refresh: read the backend, then set weights from what it served. */
  ghost function RefreshFrom(m: Memory, first: World, second: World): Outcome {
    if Raises(first.reply) then Outcome(Heard(m, first.reply, first.disk), [], true)
    else SetWeightsFrom(Heard(m, first.reply, first.disk), Served(first.reply), second)
  }

  // ----- one evaluation pass

  datatype PollReply =
    | Unreachable
    | Rejected
    | NoRound
    | Submission
    | Open(roundId: string)

  /** What evaluating one track comes to. A track that fails or crashes may have drawn its seed already. */
  datatype TrackRun =
    | Failed(seed: Option<string>)
    | NoTasks
    | Finished(drawn: string, rows: seq<Row>)
    | Crashed(seed: Option<string>)

  /** The outside of one poll: `now` when it starts, `later` when the pass is over. */
  datatype Poll = Poll(
    now: real,
    later: real,
    replies: Track -> PollReply,
    fallbackId: string,
    blockKnown: bool,
    runs: Track -> TrackRun,
    starting: World,
    ending: World)

  /** How a pass ends; `Broke` is an error that reaches the run loop. */
  datatype Verdict = Completed(scores: Scores) | Abstained | Broke

  /** The tracks of one pass as they are worked through. */
  datatype Progress = Progress(seeds: map<Track, string>, failed: set<Track>, scores: Scores, broke: bool)

  function Seeded(seeds: map<Track, string>, t: Track, seed: Option<string>): map<Track, string> {
    if seed.Some? then seeds[t := seed.value] else seeds
  }

  /** Without a local corpus, a track that has no round id has no tasks. */
  function RunOf(p: Poll, ids: map<Track, string>, t: Track): TrackRun {
    if t in ids then p.runs(t) else NoTasks
  }

  function Advance(g: Progress, t: Track, run: TrackRun): Progress {
    if g.broke then g
    else
      match run
      case Failed(seed) => g.(seeds := Seeded(g.seeds, t, seed), failed := g.failed + {t})
      case NoTasks => g
      case Finished(seed, rows) => g.(seeds := g.seeds[t := seed], scores := g.scores[t := rows])
      case Crashed(seed) => g.(seeds := Seeded(g.seeds, t, seed), broke := true)
  }

  function ProgressAfter(p: Poll, ids: map<Track, string>, n: nat): Progress
    requires n <= |TRACKS|
  {
    if n == 0 then Progress(map[], {}, map[], false)
    else Advance(ProgressAfter(p, ids, n - 1), TRACKS[n - 1], RunOf(p, ids, TRACKS[n - 1]))
  }

  datatype Pass = Pass(memory: Memory, verdict: Verdict)

  function VerdictOf(g: Progress): Verdict {
    if g.broke then Broke else if g.scores == map[] then Abstained else Completed(g.scores)
  }

  /** What `run_round` does: the failed set is only rebuilt once the block is known. */
  function RunRoundFrom(m: Memory, p: Poll, ids: map<Track, string>): Pass {
    if !p.blockKnown then Pass(m.(seeds := map[]), Abstained)
    else
      var g := ProgressAfter(p, ids, 4);
      Pass(m.(seeds := g.seeds, failed := g.failed), VerdictOf(g))
  }

  datatype Executed = Executed(memory: Memory, pushes: seq<Weights>, verdict: Verdict)

  /** The end of a pass: set the new weights, or the held ones again if it abstained. */
  ghost function ConcludeFrom(pass: Pass, pushes: seq<Weights>, ending: World): Executed {
    var over := pass.memory.(running := false);
    match pass.verdict
    case Broke => Executed(over, pushes, Broke)
    case Abstained =>
      var o := SetWeightsFrom(over, None, ending);
      Executed(o.memory, pushes + o.pushes, if o.raised then Broke else Abstained)
    case Completed(scores) =>
      var o := SetWeightsFrom(over, Some(scores), ending);
      Executed(o.memory, pushes + o.pushes, if o.raised then Broke else Completed(scores))
  }

  /** What `_execute_round` does: hold the last winners, run the pass, conclude it. An error while
      holding the winners is not caught, and leaves the in-flight flag on. */
  ghost function ExecuteFrom(m: Memory, p: Poll, ids: map<Track, string>): Executed {
    var held := SetWeightsFrom(m.(running := true), None, p.starting);
    if held.raised then Executed(held.memory, held.pushes, Broke)
    else ConcludeFrom(RunRoundFrom(held.memory, p, ids), held.pushes, p.ending)
  }

  // ----- one poll

  const POLL_ORDER: seq<Track> := [Skills, McpServers, Packages, Repositories]
  const RETRY_DELAY := 300.0

  function IdOf(p: Poll, t: Track): string {
    if p.replies(t).Open? && p.replies(t).roundId != "" then p.replies(t).roundId else p.fallbackId
  }

  predicate Holds(r: PollReply) {
    r.Unreachable? || r.Rejected? || r.Submission?
  }

  /** A pass may start only if no track answers with an error or an open submission window. */
  predicate HeldBack(p: Poll) {
    Holds(p.replies(Skills)) || Holds(p.replies(McpServers))
    || Holds(p.replies(Packages)) || Holds(p.replies(Repositories))
  }

  /** The rounds to evaluate: open, and not done yet. */
  function OpenIds(m: Memory, p: Poll): map<Track, string> {
    map t | t in TRACKS && p.replies(t).Open? && IdOf(p, t) !in m.done :: IdOf(p, t)
  }

  predicate Starts(m: Memory, p: Poll) {
    p.now >= m.retryAt && !HeldBack(p) && OpenIds(m, p) != map[]
  }

  /** The ids of the tracks that did not fail. */
  function Finishing(ids: map<Track, string>, failed: set<Track>): set<string> {
    set t | t in ids && t !in failed :: ids[t]
  }

  /** What `_begin_round` does. */
  ghost function PollFrom(m: Memory, p: Poll): Outcome {
    if !Starts(m, p) then Outcome(m, [], false)
    else
      var ids := OpenIds(m, p);
      var x := ExecuteFrom(m, p, ids);
      match x.verdict
      case Broke => Outcome(x.memory, x.pushes, true)
      case Abstained => Outcome(x.memory.(retryAt := p.later + RETRY_DELAY), x.pushes, false)
      case Completed(_) =>
        Outcome(x.memory.(done := x.memory.done + Finishing(ids, x.memory.failed),
                          retryAt := if x.memory.failed != {} then p.later + RETRY_DELAY else x.memory.retryAt),
                x.pushes, false)
  }
}
