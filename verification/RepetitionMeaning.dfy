/** What the repetition loop and the task verdict come to, read off the durations and the outcomes:
    which repetitions run, what they yield, and that all tasks share one clock. */
module RepetitionMeaning {
  import opened AgentScore
  import opened Options
  import opened RepetitionVote

  // ----- which repetitions run

  /** The time the first `k` repetitions take. */
  function Elapsed<T>(reps: seq<Rep<T>>, k: nat): real
    requires k <= |reps|
  {
    if k == 0 then 0.0 else Elapsed(reps, k - 1) + reps[k - 1].duration
  }

  /** The loop stops in front of repetition `k`: each earlier one found time left, and `k` finds none or is
      the end of the list. */
  ghost predicate StopsAt<T>(reps: seq<Rep<T>>, used: real, cap: real, k: nat) {
    && k <= |reps|
    && (forall i :: 0 <= i < k ==> used + Elapsed(reps, i) < cap)
    && (k < |reps| ==> used + Elapsed(reps, k) >= cap)
  }

  /** What the completed ones yield, in order. */
  function Delivered<T>(reps: seq<Rep<T>>): seq<T> {
    if reps == [] then []
    else
      var last := reps[|reps| - 1];
      Delivered(reps[..|reps| - 1]) + (if last.outcome.Some? then [last.outcome.value] else [])
  }

  lemma {:induction false} ElapsedShift<T>(reps: seq<Rep<T>>, k: nat)
    requires 0 < |reps| && k < |reps|
    ensures Elapsed(reps, k + 1) == reps[0].duration + Elapsed(reps[1..], k)
  {
    if k > 0 {
      ElapsedShift(reps, k - 1);
    } else {
      assert Elapsed(reps, 0) == 0.0;
    }
  }

  lemma {:induction false} DeliveredFirst<T>(reps: seq<Rep<T>>)
    requires reps != []
    ensures Delivered(reps) == (if reps[0].outcome.Some? then [reps[0].outcome.value] else []) + Delivered(reps[1..])
  {
    var n := |reps| - 1;
    if n > 0 {
      DeliveredFirst(reps[..n]);
      assert reps[..n][1..] == reps[1..][..n - 1];
    } else {
      assert reps[..0] == [] && reps[1..] == [];
    }
  }

  /** The loop stops somewhere, and at one place only. */
  lemma {:induction false} Stops<T>(reps: seq<Rep<T>>, used: real, cap: real, k: nat)
    ensures StopsAt(reps, used, cap, |RunReps(reps, used, cap).starts|)
    ensures StopsAt(reps, used, cap, k) ==> k == |RunReps(reps, used, cap).starts|
  {
    assert used + (if |reps| >= 0 then Elapsed(reps, 0) else 0.0) == used;
    if reps != [] && cap - used > 0.0 {
      var next := used + reps[0].duration;
      Stops(reps[1..], next, cap, if k == 0 then 0 else k - 1);
      var n := |RunReps(reps[1..], next, cap).starts|;
      forall i | 0 <= i <= n && i < |reps|
        ensures i > 0 ==> used + Elapsed(reps, i) == next + Elapsed(reps[1..], i - 1)
      {
        if i > 0 {
          ElapsedShift(reps, i - 1);
        }
      }
      if n + 1 < |reps| {
        ElapsedShift(reps, n);
      }
      if StopsAt(reps, used, cap, k) {
        StopsLater(reps, used, cap, k);
      }
    }
  }

  lemma StopsLater<T>(reps: seq<Rep<T>>, used: real, cap: real, k: nat)
    requires reps != [] && used < cap && StopsAt(reps, used, cap, k)
    ensures k > 0 && StopsAt(reps[1..], used + reps[0].duration, cap, k - 1)
  {
    assert Elapsed(reps, 0) == 0.0;
    forall i | 0 <= i < k && i < |reps|
      ensures used + Elapsed(reps, i + 1) == used + reps[0].duration + Elapsed(reps[1..], i)
    {
      ElapsedShift(reps, i);
    }
  }

  lemma RunsFirst<T>(reps: seq<Rep<T>>, used: real, cap: real)
    ensures reps == [] || used >= cap ==> RunReps(reps, used, cap) == Ran([], [], used)
    ensures reps != [] && used < cap ==>
              var rest := RunReps(reps[1..], used + reps[0].duration, cap);
              RunReps(reps, used, cap)
              == Ran((if reps[0].outcome.Some? then [reps[0].outcome.value] else []) + rest.results,
                     [used] + rest.starts, rest.used)
  {
  }

  lemma StopsFirst<T>(reps: seq<Rep<T>>, used: real, cap: real, k: nat)
    requires StopsAt(reps, used, cap, k)
    ensures k == 0 <==> reps == [] || used >= cap
    ensures k <= |reps| && Elapsed(reps, 0) == 0.0 && Delivered(reps[..0]) == []
  {
    assert Elapsed(reps, 0) == 0.0;
  }

  /** Exactly the repetitions in front of the stop run, each where the ones before it end, and the loop yields
      what the completed ones among them yield. */
  lemma {:induction false} RepsExactly<T>(reps: seq<Rep<T>>, used: real, cap: real, k: nat)
    requires StopsAt(reps, used, cap, k)
    ensures var ran := RunReps(reps, used, cap);
            && |ran.starts| == k
            && (forall i :: 0 <= i < k ==> ran.starts[i] == used + Elapsed(reps, i))
            && ran.used == used + Elapsed(reps, k)
            && ran.results == Delivered(reps[..k])
  {
    hide RunReps, StopsAt, Delivered, Elapsed;
    RunsFirst(reps, used, cap);
    StopsFirst(reps, used, cap, k);
    if reps != [] && used < cap {
      StopsLater(reps, used, cap, k);
      RepsExactly(reps[1..], used + reps[0].duration, cap, k - 1);
      ElapsedShift(reps, k - 1);
      DeliveredFirst(reps[..k]);
      assert reps[..k][1..] == reps[1..][..k - 1];
      forall i | 0 < i < k ensures Elapsed(reps, i) == reps[0].duration + Elapsed(reps[1..], i - 1) {
        ElapsedShift(reps, i - 1);
      }
    }
  }

  // ----- one clock for all tasks

  function Flat<T>(work: seq<seq<Rep<T>>>, n: nat): seq<Rep<T>>
    requires n <= |work|
  {
    if n == 0 then [] else Flat(work, n - 1) + work[n - 1]
  }

  lemma {:induction false} RunsOn<T>(a: seq<Rep<T>>, b: seq<Rep<T>>, used: real, cap: real)
    ensures var first, whole := RunReps(a, used, cap), RunReps(a + b, used, cap);
            var second := RunReps(b, first.used, cap);
            whole == Ran(first.results + second.results, first.starts + second.starts, second.used)
  {
    hide RunReps;
    RunsFirst(a, used, cap);
    RunsFirst(a + b, used, cap);
    RunsFirst(b, used, cap);
    if a == [] {
      assert a + b == b;
    } else if cap - used > 0.0 {
      RunsOn(a[1..], b, used + a[0].duration, cap);
      assert (a + b)[1..] == a[1..] + b;
    }
  }

  /** The tasks run as one list of repetitions under one clock: whatever a task leaves is what the next one
      has. */
  lemma {:induction false} OneClock<T>(work: seq<seq<Rep<T>>>, cap: real, n: nat)
    requires n <= |work|
    ensures UsedAfter(work, cap, n) == RunReps(Flat(work, n), 0.0, cap).used
  {
    hide RunReps;
    RunsFirst<T>([], 0.0, cap);
    if n > 0 {
      OneClock(work, cap, n - 1);
      RunsOn(Flat(work, n - 1), work[n - 1], 0.0, cap);
    }
  }

  /** The wall caps of the four tracks in seconds; a name outside the table gets the default budget. */
  lemma AgentWallCaps(track: string)
    ensures AgentWallCap("skills") == 2400 && AgentWallCap("mcp_servers") == 3600
    ensures AgentWallCap("packages") == 5400 && AgentWallCap("repositories") == 18000
    ensures track !in {"skills", "mcp_servers", "packages", "repositories"} ==> AgentWallCap(track) == 2400
  {
  }

  // ----- the verdict of a task

  lemma {:induction false} DeliveredNone<T>(reps: seq<Rep<T>>)
    ensures Delivered(reps) == [] <==> forall i :: 0 <= i < |reps| ==> reps[i].outcome.None?
  {
    if reps != [] {
      var n := |reps| - 1;
      DeliveredNone(reps[..n]);
      assert (forall i :: 0 <= i < |reps| ==> reps[i].outcome.None?)
             <==> reps[n].outcome.None? && forall i :: 0 <= i < n ==> reps[..n][i].outcome.None?;
    }
  }

  lemma {:induction false} DeliveredLast<T>(reps: seq<Rep<T>>, j: nat)
    requires j < |reps| && reps[j].outcome.Some?
    requires forall i :: j < i < |reps| ==> reps[i].outcome.None?
    ensures Delivered(reps) != [] && Delivered(reps)[|Delivered(reps)| - 1] == reps[j].outcome.value
  {
    if j < |reps| - 1 {
      DeliveredLast(reps[..|reps| - 1], j);
    }
  }

  /** There is no verdict exactly when none of the repetitions that ran completed, or the track needs inference
      and the task is metered at no call. Otherwise all that completed vote, and the findings are those of the
      last one. */
  lemma VerdictExactly<E, R>(t: Task<E, R>, needInference: bool, used: real, cap: real, k: nat,
                             ds: seq<Decision>, j: nat)
    requires StopsAt(t.reps, used, cap, k)
    requires |ds| == |Delivered(t.reps[..k])|
    requires forall i :: 0 <= i < |ds| ==> ds[i] == Delivered(t.reps[..k])[i].decision
    ensures var verdict := VerdictOf(t, needInference, used, cap);
            && (verdict == None <==>
                (forall i :: 0 <= i < k ==> t.reps[i].outcome.None?) || (needInference && t.calls == 0))
            && (verdict.Some? ==> ds != [] && verdict.value.decision == Vote(ds))
            && (verdict.Some? && j < k && t.reps[j].outcome.Some? && (forall i :: j < i < k ==> t.reps[i].outcome.None?)
                ==> verdict.value.findings == t.reps[j].outcome.value.findings)
  {
    hide Vote, RunReps, StopsAt, Delivered;
    assert k <= |t.reps| by { StopsInside(t.reps, used, cap, k); }
    RepsExactly(t.reps, used, cap, k);
    DeliveredNone(t.reps[..k]);
    assert Decisions(Delivered(t.reps[..k])) == ds;
    if j < k && t.reps[j].outcome.Some? && (forall i :: j < i < k ==> t.reps[i].outcome.None?) {
      DeliveredLast(t.reps[..k], j);
    }
  }

  lemma StopsInside<T>(reps: seq<Rep<T>>, used: real, cap: real, k: nat)
    requires StopsAt(reps, used, cap, k)
    ensures k <= |reps|
  {
  }

  // ----- the vote in decisions

  /** How many repetitions decided so. */
  function Decided(ds: seq<Decision>, d: Decision): nat {
    if ds == [] then 0 else (if ds[0] == d then 1 else 0) + Decided(ds[1..], d)
  }

  lemma {:induction false} DecidedBelow(ds: seq<Decision>)
    ensures Below(Ordinals(ds), 1) == Decided(ds, Allow)
    ensures Below(Ordinals(ds), 2) == Decided(ds, Allow) + Decided(ds, Warn)
    ensures Below(Ordinals(ds), 3) == |ds|
  {
    if ds != [] {
      DecidedBelow(ds[1..]);
      assert Ordinals(ds)[1..] == Ordinals(ds[1..]);
    }
  }

  /** The vote is to allow if at least half of the repetitions allow, else to warn if at least half allow or warn,
      and else to block. */
  lemma VoteExactly(ds: seq<Decision>)
    requires ds != []
    ensures Vote(ds) == if 2 * Decided(ds, Allow) >= |ds| then Allow
                        else if 2 * (Decided(ds, Allow) + Decided(ds, Warn)) >= |ds| then Warn
                        else Block
  {
    hide LowerMedian;
    DecidedBelow(ds);
    MedianBelow(Ordinals(ds), 1);
    MedianBelow(Ordinals(ds), 2);
    MedianBelow(Ordinals(ds), 3);
    VoteIsCast(ds);
  }
}
