/** The validator object: the methods update its fields step by step and are proved to do
    what the functions of `ValidatorState` say. */
module Validator {
  import opened Options
  import opened Sums
  import opened Emission
  import opened EmissionAlgorithm
  import opened Smoothing
  import opened ValidatorState

  class PhylaxValidator {
    var emissionsPaused: bool
    var reservedHotkey: string
    var reservedShare: real
    var roundRunning: bool
    var roundSeeds: map<Track, string>
    var doneRounds: set<string>
    var failedTracks: set<Track>
    var retryAt: real
    // the state directory
    var weightsEma: Weights
    var trackScores: Scores
    var scoresEpoch: int

    ghost function Snap(): Memory
      reads this
    {
      Memory(emissionsPaused, reservedHotkey, reservedShare, roundRunning, roundSeeds,
             weightsEma, trackScores, scoresEpoch, doneRounds, failedTracks, retryAt)
    }

    constructor (weightsOnDisk: Weights, scoresOnDisk: Scores, epochOnDisk: int)
      ensures Snap() == Memory(false, "", 0.0, false, map[], weightsOnDisk, scoresOnDisk, epochOnDisk, {}, {}, 0.0)
    {
      emissionsPaused, reservedHotkey, reservedShare := false, "", 0.0;
      roundRunning, roundSeeds := false, map[];
      doneRounds, failedTracks, retryAt := {}, {}, 0.0;
      weightsEma, trackScores, scoresEpoch := weightsOnDisk, scoresOnDisk, epochOnDisk;
    }

    method ResetCarriedState(epoch: int, disk: Disk)
      modifies this`trackScores, this`weightsEma, this`scoresEpoch
      ensures Snap() == old(Snap()).(carried := if disk.clearScores then map[] else old(trackScores),
                                     ema := if disk.clearWeights then map[] else old(weightsEma),
                                     epoch := if disk.writeEpoch then epoch else old(scoresEpoch))
    {
      if disk.clearScores { trackScores := map[]; }
      if disk.clearWeights { weightsEma := map[]; }
      if disk.writeEpoch { scoresEpoch := epoch; }
    }

    /** Reads the backend; the flags take effect before a bad row raises. */
    method ScoresFromServer(reply: Reply, disk: Disk) returns (served: Option<Scores>, raised: bool)
      modifies this
      ensures Snap() == Heard(old(Snap()), reply, disk)
      ensures served == Served(reply) && raised == Raises(reply)
    {
      hide Served, Heard;
      NoScores(reply);
      if !HasFlags(reply) {
        HeardNothing(Snap(), reply, disk);
        return None, reply.Unreadable?;
      }
      FollowFlags(reply, disk);
      if reply.Garbled? {
        return None, true;
      }
      return Served(reply), false;
    }

    /** The flags of an answer, and the reset when its epoch is new. */
    method FollowFlags(reply: Reply, disk: Disk)
      requires HasFlags(reply)
      modifies this
      ensures Snap() == Heard(old(Snap()), reply, disk)
    {
      emissionsPaused := reply.paused;
      reservedHotkey := reply.reservedHotkey;
      reservedShare := reply.reservedShare;
      ghost var told := Snap();
      assert told == old(Snap()).(paused := reply.paused, reservedHotkey := reply.reservedHotkey,
                                  reservedShare := reply.reservedShare);
      if reply.epoch != scoresEpoch {
        ResetCarriedState(reply.epoch, disk);
      }
    }

    method AllTrackScores(latest: Scores, served: Option<Scores>, disk: Disk) returns (merged: Scores)
      modifies this`trackScores
      ensures merged == Merged(old(trackScores), served, latest)
      ensures trackScores == if disk.writeScores then merged else old(trackScores)
    {
      merged := Nonempty(trackScores);
      if served.Some? {
        merged := merged + served.value;
      }
      merged := merged + latest;
      if disk.writeScores {
        trackScores := merged;
      }
    }

    method SetWeights(scores: Option<Scores>, w: World) returns (pushes: seq<Weights>, raised: bool)
      modifies this
      ensures Outcome(Snap(), pushes, raised) == SetWeightsFrom(old(Snap()), scores, w)
    {
      pushes := [];
      var served;
      served, raised := ScoresFromServer(w.reply, w.disk);
      if raised {
        return;
      }
      if emissionsPaused {
        return if reservedHotkey != "" then [map[reservedHotkey := 1.0]] else [], false;
      }
      if roundRunning || scores.None? {
        if weightsEma == map[] {
          return;
        }
        var held := ApplyReservedShare(weightsEma, reservedHotkey, reservedShare);
        return [held], false;
      }
      pushes := VoteScores(scores.value, served, w);
    }

    /** The scored branch of `set_weights`: the average is saved before the reserved share is applied. */
    method VoteScores(latest: Scores, served: Option<Scores>, w: World) returns (pushes: seq<Weights>)
      requires served == Served(w.reply)
      modifies this
      ensures Outcome(Snap(), pushes, false) == Scored(old(Snap()), w, latest)
    {
      hide EmissionWeights, Blend, ApplyReserved, Merged;
      ghost var before := Snap();
      var prior := weightsEma;
      var merged := AllTrackScores(latest, served, w.disk);
      var ballot := Ballot(merged, w.contributors, THRESHOLDS, w.digest, Salt(roundSeeds));
      assert ballot == BallotOf(before, w, latest);
      var blended := BlendedWeights(prior, ballot);
      assert blended == SmoothedVector(before, w, latest);
      if w.disk.writeWeights {
        weightsEma := blended;
      }
      var voted := ApplyReservedShare(blended, reservedHotkey, reservedShare);
      pushes := [voted];
      assert voted == Held(before, blended);
      assert Snap() == Scored(before, w, latest).memory;
    }

    static method BlendedWeights(prior: Weights, b: Ballot) returns (blended: Weights)
      ensures blended == Blend(prior, EmissionWeights(b))
    {
      var weightMap := ComputeEmissionWeights(b);
      blended := Normalise(DropDust(Mix(prior, weightMap)));
    }

    method Refresh(first: World, second: World) returns (pushes: seq<Weights>, raised: bool)
      modifies this
      ensures Outcome(Snap(), pushes, raised) == RefreshFrom(old(Snap()), first, second)
    {
      var served;
      served, raised := ScoresFromServer(first.reply, first.disk);
      if raised {
        return [], true;
      }
      pushes, raised := SetWeights(served, second);
    }

    method RunRound(p: Poll, ids: map<Track, string>) returns (verdict: Verdict)
      modifies this`roundSeeds, this`failedTracks
      ensures Pass(Snap(), verdict) == RunRoundFrom(old(Snap()), p, ids)
    {
      roundSeeds := map[];
      if !p.blockKnown {
        return Abstained;
      }
      failedTracks := {};
      var scores: Scores := map[];
      for i := 0 to |TRACKS|
        invariant ProgressAfter(p, ids, i) == Progress(roundSeeds, failedTracks, scores, false)
      {
        var t := TRACKS[i];
        match RunOf(p, ids, t) {
          case Failed(seed) =>
            if seed.Some? { roundSeeds := roundSeeds[t := seed.value]; }
            failedTracks := failedTracks + {t};
          case NoTasks =>
          case Finished(seed, rows) =>
            roundSeeds := roundSeeds[t := seed];
            scores := scores[t := rows];
          case Crashed(seed) =>
            if seed.Some? { roundSeeds := roundSeeds[t := seed.value]; }
            BrokenStays(p, ids, i + 1);
            return Broke;
        }
      }
      return if scores == map[] then Abstained else Completed(scores);
    }

    method ExecuteRound(p: Poll, ids: map<Track, string>) returns (pushes: seq<Weights>, verdict: Verdict)
      modifies this
      ensures Executed(Snap(), pushes, verdict) == ExecuteFrom(old(Snap()), p, ids)
    {
      hide SetWeightsFrom, RunRoundFrom;
      roundRunning := true;
      var raised;
      pushes, raised := SetWeights(None, p.starting);
      if raised {
        return pushes, Broke;
      }
      verdict := RunRound(p, ids);
      roundRunning := false;
      if verdict.Broke? {
        return;
      }
      var more;
      more, raised := SetWeights(if verdict.Completed? then Some(verdict.scores) else None, p.ending);
      pushes := pushes + more;
      if raised {
        verdict := Broke;
      }
    }

    /** Asks for every track's round; `clear` is whether none of them holds the pass back. */
    method PollTracks(p: Poll) returns (clear: bool, ids: map<Track, string>)
      ensures clear <==> !HeldBack(p)
      ensures clear ==> ids == OpenIds(Snap(), p)
    {
      ids := map[];
      for i := 0 to |POLL_ORDER|
        invariant forall t :: t in POLL_ORDER[..i] ==> !Holds(p.replies(t))
        invariant ids == map t | t in POLL_ORDER[..i] && p.replies(t).Open? && IdOf(p, t) !in doneRounds :: IdOf(p, t)
      {
        var t := POLL_ORDER[i];
        assert POLL_ORDER[..i + 1] == POLL_ORDER[..i] + [t];
        if Holds(p.replies(t)) {
          Covered(t, p);
          return false, map[];
        }
        if p.replies(t).Open? && IdOf(p, t) !in doneRounds {
          ids := ids[t := IdOf(p, t)];
        }
      }
      PolledAll(p);
      clear := true;
    }

    /** One poll of the run loop; the returned flag says whether a pass completed. */
    method BeginRound(p: Poll) returns (completed: bool, pushes: seq<Weights>, raised: bool)
      modifies this
      ensures Outcome(Snap(), pushes, raised) == PollFrom(old(Snap()), p)
      ensures completed <==>
                Starts(old(Snap()), p) && ExecuteFrom(old(Snap()), p, OpenIds(old(Snap()), p)).verdict.Completed?
    {
      hide ExecuteFrom, OpenIds, HeldBack;
      raised := false;
      if p.now < retryAt {
        return false, [], false;
      }
      var clear, ids := PollTracks(p);
      if !clear || ids == map[] {
        return false, [], false;
      }
      var verdict;
      pushes, verdict := ExecuteRound(p, ids);
      match verdict {
        case Broke =>
          completed, raised := false, true;
        case Abstained =>
          retryAt := p.later + RETRY_DELAY;
          completed := false;
        case Completed(_) =>
          doneRounds := doneRounds + Finishing(ids, failedTracks);
          if failedTracks != {} {
            retryAt := p.later + RETRY_DELAY;
          }
          completed := true;
      }
    }
  }

  lemma NoScores(reply: Reply)
    ensures !reply.Told? ==> Served(reply) == None
  {
  }

  lemma {:induction false} BrokenStays(p: Poll, ids: map<Track, string>, i: nat)
    requires i <= |TRACKS|
    requires ProgressAfter(p, ids, i).broke
    ensures ProgressAfter(p, ids, 4) == ProgressAfter(p, ids, i)
    decreases |TRACKS| - i
  {
    if i < 4 {
      BrokenStays(p, ids, i + 1);
    }
  }

  lemma Covered(t: Track, p: Poll)
    requires Holds(p.replies(t))
    ensures HeldBack(p)
  {
  }

  lemma PolledAll(p: Poll)
    ensures POLL_ORDER[..|POLL_ORDER|] == POLL_ORDER
    ensures forall t :: t in POLL_ORDER && t in TRACKS
  {
    forall t ensures t in POLL_ORDER && t in TRACKS {
      match t
      case Repositories => assert TRACKS[0] == POLL_ORDER[3] == t;
      case Packages => assert TRACKS[1] == POLL_ORDER[2] == t;
      case McpServers => assert TRACKS[2] == POLL_ORDER[1] == t;
      case Skills => assert TRACKS[3] == POLL_ORDER[0] == t;
    }
  }
}
