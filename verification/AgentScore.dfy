/** Scoring one agent over its task set: repetitions under the round wall cap, the task verdicts,
    the confusion matrix with the finding qualities, and the repository mean. */
module AgentScore {
  import opened Options
  import opened Correlation
  import opened FindingScores
  import opened Matching
  import opened RepetitionVote
  import opened Sorting

  // ----- budgets

  datatype Budget = Budget(tasks: nat, repetitions: nat, cpuSeconds: nat)

  function BudgetFor(track: string): Budget {
    if track == "mcp_servers" then Budget(40, 3, 15)
    else if track == "packages" then Budget(30, 3, 30)
    else if track == "repositories" then Budget(50, 2, 90)
    else Budget(50, 3, 8)
  }

  const AGENT_WALL_FACTOR := 2

  function AgentWallCap(track: string): int {
    var b := BudgetFor(track);
    AGENT_WALL_FACTOR * b.tasks * b.repetitions * b.cpuSeconds
  }

  // ----- repetitions under the wall cap

  /** What one repetition would take and yield: nothing if it fails. */
  datatype Rep<+T> = Rep(duration: real, outcome: Option<T>)

  datatype Ran<+T> = Ran(results: seq<T>, starts: seq<real>, used: real)

  /** Repetitions run in order until the cap is spent; failed ones only cost time. */
  function RunReps<T>(reps: seq<Rep<T>>, used: real, cap: real): Ran<T> {
    if reps == [] || cap - used <= 0.0 then Ran([], [], used)
    else
      var rest := RunReps(reps[1..], used + reps[0].duration, cap);
      Ran((if reps[0].outcome.Some? then [reps[0].outcome.value] else []) + rest.results,
          [used] + rest.starts, rest.used)
  }

  ghost predicate Bounded<T>(reps: seq<Rep<T>>, longest: real) {
    forall i :: 0 <= i < |reps| ==> 0.0 <= reps[i].duration <= longest
  }

  /** Time never runs backwards, every repetition starts below the cap, the total stays below the
      cap plus one repetition, and a spent cap lets nothing run. */
  lemma {:induction false} RepsUnderCap<T>(reps: seq<Rep<T>>, used: real, cap: real, longest: real)
    requires Bounded(reps, longest)
    requires used < cap + longest
    ensures used <= RunReps(reps, used, cap).used < cap + longest
    ensures forall i :: 0 <= i < |RunReps(reps, used, cap).starts| ==> used <= RunReps(reps, used, cap).starts[i] < cap
    ensures used >= cap ==> RunReps(reps, used, cap) == Ran([], [], used)
  {
    if reps != [] && cap - used > 0.0 {
      RepsUnderCap(reps[1..], used + reps[0].duration, cap, longest);
    }
  }

  lemma RunsNext<T>(reps: seq<Rep<T>>, i: nat, used: real, cap: real)
    requires i < |reps| && cap - used > 0.0
    ensures var ran, rest := RunReps(reps[i..], used, cap), RunReps(reps[i + 1..], used + reps[i].duration, cap);
            && ran.used == rest.used
            && ran.results == (if reps[i].outcome.Some? then [reps[i].outcome.value] else []) + rest.results
  {
    assert reps[i..][1..] == reps[i + 1..];
  }

  lemma NothingRuns<T>(reps: seq<Rep<T>>, used: real, cap: real)
    requires reps == [] || cap - used <= 0.0
    ensures RunReps(reps, used, cap) == Ran([], [], used)
  {
  }

  /** The repetition loop of `_task_verdict` and `_score_repo_task`. */
  method RunRepetitions<T>(reps: seq<Rep<T>>, used: real, cap: real) returns (results: seq<T>, wallUsed: real)
    ensures results == RunReps(reps, used, cap).results
    ensures wallUsed == RunReps(reps, used, cap).used
  {
    hide RunReps;
    results, wallUsed := [], used;
    var i := 0;
    assert reps[0..] == reps;
    while i < |reps|
      invariant 0 <= i <= |reps|
      invariant RunReps(reps, used, cap).results == results + RunReps(reps[i..], wallUsed, cap).results
      invariant RunReps(reps, used, cap).used == RunReps(reps[i..], wallUsed, cap).used
    {
      var remaining := cap - wallUsed;
      if remaining <= 0.0 {
        break;
      }
      RunsNext(reps, i, wallUsed, cap);
      wallUsed := wallUsed + reps[i].duration;
      if reps[i].outcome.Some? {
        results := results + [reps[i].outcome.value];
      }
      i := i + 1;
    }
    NothingRuns(reps[i..], wallUsed, cap);
  }

  // ----- the wall clock over a whole task set

  /** Wall time used after the first `n` tasks. */
  function UsedAfter<T>(work: seq<seq<Rep<T>>>, cap: real, n: nat): real
    requires n <= |work|
  {
    if n == 0 then 0.0 else RunReps(work[n - 1], UsedAfter(work, cap, n - 1), cap).used
  }

  ghost predicate AllBounded<T>(work: seq<seq<Rep<T>>>, longest: real) {
    forall i :: 0 <= i < |work| ==> Bounded(work[i], longest)
  }

  /** Over the nested loops wall time never decreases, stays below the cap plus one repetition,
      and every repetition of every task starts before the cap. */
  lemma {:induction false} WallTimeBounded<T>(work: seq<seq<Rep<T>>>, cap: real, longest: real, m: nat, n: nat)
    requires AllBounded(work, longest)
    requires 0.0 < cap && 0.0 <= longest
    requires m <= n <= |work|
    ensures 0.0 <= UsedAfter(work, cap, m) <= UsedAfter(work, cap, n) < cap + longest
    ensures n < |work| ==>
              var starts := RunReps(work[n], UsedAfter(work, cap, n), cap).starts;
              forall i :: 0 <= i < |starts| ==> UsedAfter(work, cap, n) <= starts[i] < cap
    decreases n
  {
    if 0 < n {
      WallTimeBounded(work, cap, longest, if m < n then m else m - 1, n - 1);
      RepsUnderCap(work[n - 1], UsedAfter(work, cap, n - 1), cap, longest);
    }
    if n < |work| {
      RepsUnderCap(work[n], UsedAfter(work, cap, n), cap, longest);
    }
  }

  /** Once the cap is spent no later task runs anything. */
  lemma {:induction false} SpentCapStopsAll<T>(work: seq<seq<Rep<T>>>, cap: real, longest: real, m: nat, n: nat)
    requires AllBounded(work, longest)
    requires 0.0 < cap && 0.0 <= longest
    requires m <= n < |work|
    requires UsedAfter(work, cap, m) >= cap
    ensures RunReps(work[n], UsedAfter(work, cap, n), cap) == Ran([], [], UsedAfter(work, cap, m))
  {
    if m < n {
      SpentCapStopsAll(work, cap, longest, m, n - 1);
    }
  }

  /** On every track the whole run of an agent stays below its wall cap plus one repetition. */
  lemma AgentWallBound<T>(track: string, work: seq<seq<Rep<T>>>, longest: real)
    requires AllBounded(work, longest) && 0.0 <= longest
    ensures UsedAfter(work, AgentWallCap(track) as real, |work|) < AgentWallCap(track) as real + longest
  {
    assert AgentWallCap(track) > 0;
    WallTimeBounded(work, AgentWallCap(track) as real, longest, 0, |work|);
  }

  // ----- one behavioural task

  datatype Decision = Allow | Warn | Block

  function Ordinal(d: Decision): int {
    match d
    case Allow => 0
    case Warn => 1
    case Block => 2
  }

  function DecisionOf(ordinal: int): Decision {
    if ordinal == 0 then Allow else if ordinal == 1 then Warn else Block
  }

  function Ordinals(ds: seq<Decision>): seq<int> {
    seq(|ds|, i requires 0 <= i < |ds| => Ordinal(ds[i]))
  }

  /** The decision of a task: the vote of its repetitions. */
  function Vote(ds: seq<Decision>): Decision
    requires ds != []
  {
    DecisionOf(LowerMedian(Ordinals(ds)))
  }

  /** The vote is one of the decisions cast, and its ordinal is the lower median of theirs. */
  lemma VoteIsCast(ds: seq<Decision>)
    requires ds != []
    ensures Vote(ds) in ds
    ensures Ordinal(Vote(ds)) == LowerMedian(Ordinals(ds))
  {
    var s := Ordinals(ds);
    SortKeeps(s, AtMost());
    MultisetMembers(s, Sort(s, AtMost()));
    assert LowerMedian(s) in Sort(s, AtMost());
    var i :| 0 <= i < |s| && s[i] == LowerMedian(s);
    assert Vote(ds) == ds[i];
  }

  datatype Target = Unrated | Safe | Malicious

  /** What a completed repetition yields. */
  datatype Output<+R> = Output(decision: Decision, findings: seq<Entry<R>>)

  /** A task: its class, what its repetitions would yield, the metered inference calls (-1 when
      unreadable), the findings expected of it, and whether its detonation observed anything. */
  datatype Task<+E, +R> = Task(target: Target, reps: seq<Rep<Output<R>>>, calls: int,
                               expected: seq<Entry<E>>, observed: bool)

  /** How findings are compared: which expected ones belong to the context plane, and the matcher. */
  datatype Rubric<!E, !R> = Rubric(context: E -> bool, matches: (E, R) -> bool)

  function Decisions<R>(outputs: seq<Output<R>>): seq<Decision> {
    seq(|outputs|, i requires 0 <= i < |outputs| => outputs[i].decision)
  }

  /** The decision is voted by all completed repetitions; the findings are the last one's. */
  function VerdictOf<E, R>(t: Task<E, R>, needInference: bool, used: real, cap: real): Option<Output<R>> {
    var outputs := RunReps(t.reps, used, cap).results;
    if outputs == [] || (needInference && t.calls == 0) then None
    else Some(Output(Vote(Decisions(outputs)), outputs[|outputs| - 1].findings))
  }

  method TaskVerdict<E, R>(t: Task<E, R>, needInference: bool, used: real, cap: real)
    returns (verdict: Option<Output<R>>, wallUsed: real)
    ensures verdict == VerdictOf(t, needInference, used, cap)
    ensures wallUsed == RunReps(t.reps, used, cap).used
  {
    var outputs;
    outputs, wallUsed := RunRepetitions(t.reps, used, cap);
    if outputs == [] {
      return None, wallUsed;
    }
    if needInference && t.calls == 0 {
      return None, wallUsed;
    }
    verdict := Some(Output(Vote(Decisions(outputs)), outputs[|outputs| - 1].findings));
  }

  // ----- judged tasks

  type Fraction = x: real | 0.0 <= x <= 1.0

  /** What a task reached: a decision, and the quality of the findings behind it. */
  datatype Outcome = Outcome(decision: Decision, quality: Fraction)

  /** An attempted task of a known class, with what it reached and whether findings were expected. */
  datatype Judged = Judged(malicious: bool, verdict: Option<Outcome>, expects: bool)

  /** The quality `finding_quality` gives to the findings of a task. */
  function QualityOn<E, R>(t: Task<E, R>, findings: seq<Entry<R>>, rubric: Rubric<E, R>): Fraction {
    var wanted, found := DeltaFindings(t.expected, t.observed, rubric.context), Findings(findings);
    if wanted == [] || found == [] then 0.0
    else
      QualityIsF1(wanted, found, rubric.matches);
      Quality(wanted, found, rubric.matches)
  }

  predicate Flagged(d: Decision) {
    d.Block? || d.Warn?
  }

  predicate Correct(malicious: bool, d: Decision) {
    if malicious then Flagged(d) else d.Allow?
  }

  function Count(c: Tally, j: Judged): Tally {
    if j.verdict.None? then c
    else if j.malicious then
      if Flagged(j.verdict.value.decision) then c.(tp := c.tp + 1) else c.(fn := c.fn + 1)
    else
      if j.verdict.value.decision.Allow? then c.(tn := c.tn + 1) else c.(fp := c.fp + 1)
  }

  function TallyOf(js: seq<Judged>): Tally {
    if js == [] then Tally(0, 0, 0, 0) else Count(TallyOf(js[..|js| - 1]), js[|js| - 1])
  }

  /** Findings count only behind a correct verdict. */
  function Graded(j: Judged): seq<real> {
    if j.verdict.None? || !j.expects then []
    else [if Correct(j.malicious, j.verdict.value.decision) then j.verdict.value.quality else 0.0]
  }

  function Grades(js: seq<Judged>): seq<real> {
    if js == [] then [] else Grades(js[..|js| - 1]) + Graded(js[|js| - 1])
  }

  function Sum(xs: seq<real>): real {
    if xs == [] then 0.0 else Sum(xs[..|xs| - 1]) + xs[|xs| - 1]
  }

  function Mean(xs: seq<real>): real
    requires xs != []
  {
    Sum(xs) / |xs| as real
  }

  function Blended(correctness: real, quality: real): real {
    Clip01(0.7 * correctness + 0.3 * quality)
  }

  function ScoreOf(root: real -> real, js: seq<Judged>): real {
    var c := TallyOf(js);
    if c.tp + c.tn + c.fp + c.fn == 0 then 0.0
    else if Grades(js) == [] then ClampedMcc(root, c)
    else Blended(ClampedMcc(root, c), Mean(Grades(js)))
  }

  // ----- the behavioural task loop

  /** What each task may run; a task of unknown class runs nothing. */
  function WorkOf<E, R>(tasks: seq<Task<E, R>>): (work: seq<seq<Rep<Output<R>>>>)
    ensures |work| == |tasks|
  {
    seq(|tasks|, i requires 0 <= i < |tasks| => if tasks[i].target.Unrated? then [] else tasks[i].reps)
  }

  function Judge<E, R>(t: Task<E, R>, verdict: Option<Output<R>>, rubric: Rubric<E, R>): Judged {
    Judged(t.target.Malicious?,
           if verdict.None? then None
           else Some(Outcome(verdict.value.decision, QualityOn(t, verdict.value.findings, rubric))),
           t.expected != [])
  }

  function JudgedTask<E, R>(t: Task<E, R>, rubric: Rubric<E, R>, needInference: bool,
                            used: real, cap: real): seq<Judged> {
    if t.target.Unrated? then [] else [Judge(t, VerdictOf(t, needInference, used, cap), rubric)]
  }

  function Judgements<E, R>(tasks: seq<Task<E, R>>, rubric: Rubric<E, R>, needInference: bool,
                            cap: real, n: nat): seq<Judged>
    requires n <= |tasks|
  {
    if n == 0 then []
    else Judgements(tasks, rubric, needInference, cap, n - 1)
         + JudgedTask(tasks[n - 1], rubric, needInference, UsedAfter(WorkOf(tasks), cap, n - 1), cap)
  }

  lemma UsedStart<E, R>(tasks: seq<Task<E, R>>, cap: real)
    ensures UsedAfter(WorkOf(tasks), cap, 0) == 0.0
  {
  }

  lemma UsedNext<E, R>(tasks: seq<Task<E, R>>, cap: real, n: nat)
    requires n < |tasks|
    ensures UsedAfter(WorkOf(tasks), cap, n + 1)
            == if tasks[n].target.Unrated? then UsedAfter(WorkOf(tasks), cap, n)
               else RunReps(tasks[n].reps, UsedAfter(WorkOf(tasks), cap, n), cap).used
  {
  }

  lemma NothingJudged()
    ensures TallyOf([]) == Tally(0, 0, 0, 0) && Grades([]) == []
  {
  }

  lemma JudgedNext(js: seq<Judged>, j: Judged)
    ensures TallyOf(js + [j]) == Count(TallyOf(js), j)
    ensures Grades(js + [j]) == Grades(js) + Graded(j)
  {
    assert (js + [j])[..|js|] == js;
  }

  /** `finding_quality` as the task loop calls it. */
  method GradeFindings<E, R>(t: Task<E, R>, findings: seq<Entry<R>>, rubric: Rubric<E, R>) returns (quality: real)
    ensures quality == QualityOn(t, findings, rubric)
  {
    quality := FindingQuality(t.expected, findings, t.observed, rubric.context, rubric.matches);
  }

  /** The behavioural branch of `_score_agent`. */
  method ScoreAgent<E, R>(root: real -> real, tasks: seq<Task<E, R>>, rubric: Rubric<E, R>,
                          needInference: bool, cap: real)
    returns (score: real, wallUsed: real)
    ensures score == ScoreOf(root, Judgements(tasks, rubric, needInference, cap, |tasks|))
    ensures wallUsed == UsedAfter(WorkOf(tasks), cap, |tasks|)
  {
    hide RunReps, VerdictOf, UsedAfter, WorkOf, ClampedMcc, Clip01, Mean, Blended, TallyOf, Grades, QualityOn;
    NothingJudged();
    UsedStart(tasks, cap);
    wallUsed := 0.0;
    var tp, tn, fp, fn := 0, 0, 0, 0;
    var grades: seq<real> := [];
    ghost var js: seq<Judged> := [];
    for n := 0 to |tasks|
      invariant js == Judgements(tasks, rubric, needInference, cap, n)
      invariant wallUsed == UsedAfter(WorkOf(tasks), cap, n)
      invariant tp >= 0 && tn >= 0 && fp >= 0 && fn >= 0
      invariant Tally(tp, tn, fp, fn) == TallyOf(js)
      invariant grades == Grades(js)
    {
      var t := tasks[n];
      UsedNext(tasks, cap, n);
      if t.target != Unrated {
        var malicious := t.target == Malicious;
        ghost var started := wallUsed;
        var verdict;
        verdict, wallUsed := TaskVerdict(t, needInference, wallUsed, cap);
        ghost var j := Judge(t, verdict, rubric);
        assert JudgedTask(t, rubric, needInference, started, cap) == [j];
        JudgedNext(js, j);
        js := js + [j];
        if verdict.Some? {
          var decision := verdict.value.decision;
          var flagged := decision == Block || decision == Warn;
          if malicious && flagged {
            tp := tp + 1;
          } else if malicious {
            fn := fn + 1;
          } else if decision == Allow {
            tn := tn + 1;
          } else {
            fp := fp + 1;
          }
          if t.expected != [] {
            var correct := if malicious then flagged else decision == Allow;
            var quality := 0.0;
            if correct {
              quality := GradeFindings(t, verdict.value.findings, rubric);
            }
            grades := grades + [quality];
          }
        }
      }
    }
    if tp + tn + fp + fn == 0 {
      return 0.0, wallUsed;
    }
    var correctness := ClampedMcc(root, Tally(tp, tn, fp, fn));
    if grades == [] {
      return correctness, wallUsed;
    }
    score := Blended(correctness, Mean(grades));
  }

  /** A behavioural task after the cap is spent reaches no verdict. */
  lemma SpentCapNoVerdict<E, R>(tasks: seq<Task<E, R>>, needInference: bool, cap: real, longest: real, m: nat, n: nat)
    requires AllBounded(WorkOf(tasks), longest)
    requires 0.0 < cap && 0.0 <= longest
    requires m <= n < |tasks| && !tasks[n].target.Unrated?
    requires UsedAfter(WorkOf(tasks), cap, m) >= cap
    ensures VerdictOf(tasks[n], needInference, UsedAfter(WorkOf(tasks), cap, n), cap) == None
  {
    SpentCapStopsAll(WorkOf(tasks), cap, longest, m, n);
  }

  // ----- what fixing one verdict does to the agent's score

  /** Task `i` reached the wrong verdict. */
  predicate WrongAt(js: seq<Judged>, i: nat) {
    i < |js| && js[i].verdict.Some? && !Correct(js[i].malicious, js[i].verdict.value.decision)
  }

  /** The same run with another verdict on task `i`. */
  function Revised(js: seq<Judged>, i: nat, decision: Decision): seq<Judged>
    requires i < |js| && js[i].verdict.Some?
  {
    js[i := js[i].(verdict := Some(js[i].verdict.value.(decision := decision)))]
  }

  lemma RevisedPrefix(js: seq<Judged>, i: nat, decision: Decision)
    requires i < |js| && js[i].verdict.Some?
    ensures i < |js| - 1 ==> Revised(js, i, decision)[..|js| - 1] == Revised(js[..|js| - 1], i, decision)
    ensures i == |js| - 1 ==> Revised(js, i, decision)[..|js| - 1] == js[..|js| - 1]
  {
  }

  lemma {:induction false} RevisedTally(js: seq<Judged>, i: nat, decision: Decision)
    requires WrongAt(js, i) && Correct(js[i].malicious, decision)
    ensures js[i].malicious ==> TallyOf(js).fn > 0 && TallyOf(Revised(js, i, decision)) == Caught(TallyOf(js))
    ensures !js[i].malicious ==> TallyOf(js).fp > 0 && TallyOf(Revised(js, i, decision)) == Cleared(TallyOf(js))
  {
    hide TallyOf;
    RevisedPrefix(js, i, decision);
    TallyLast(js);
    TallyLast(Revised(js, i, decision));
    if i < |js| - 1 {
      RevisedTally(js[..|js| - 1], i, decision);
    }
  }

  lemma TallyLast(js: seq<Judged>)
    requires js != []
    ensures TallyOf(js) == Count(TallyOf(js[..|js| - 1]), js[|js| - 1])
  {
  }

  lemma SumAppend(xs: seq<real>, ys: seq<real>)
    requires |ys| <= 1
    ensures Sum(xs + ys) == Sum(xs) + Sum(ys)
  {
    if ys == [] {
      assert xs + ys == xs;
    } else {
      assert (xs + ys)[..|xs|] == xs;
      assert ys[..0] == [];
    }
  }

  lemma GradesLast(js: seq<Judged>)
    requires js != []
    ensures Grades(js) == Grades(js[..|js| - 1]) + Graded(js[|js| - 1])
    ensures |Graded(js[|js| - 1])| <= 1
  {
  }

  lemma {:induction false} RevisedGrades(js: seq<Judged>, i: nat, decision: Decision)
    requires WrongAt(js, i) && Correct(js[i].malicious, decision)
    ensures |Grades(Revised(js, i, decision))| == |Grades(js)|
    ensures Sum(Grades(Revised(js, i, decision))) >= Sum(Grades(js))
  {
    hide Sum, Grades, Graded;
    var last, revised := |js| - 1, Revised(js, i, decision);
    RevisedPrefix(js, i, decision);
    if i < last {
      RevisedGrades(js[..last], i, decision);
    } else {
      RevisedGrade(js[last], decision);
    }
    GradesLast(js);
    GradesLast(revised);
    SumAppend(Grades(js[..last]), Graded(js[last]));
    SumAppend(Grades(revised[..last]), Graded(revised[last]));
  }

  lemma RevisedGrade(j: Judged, decision: Decision)
    requires j.verdict.Some?
    requires !Correct(j.malicious, j.verdict.value.decision) && Correct(j.malicious, decision)
    ensures var revised := j.(verdict := Some(j.verdict.value.(decision := decision)));
            |Graded(revised)| == |Graded(j)| && Sum(Graded(revised)) >= Sum(Graded(j))
  {
  }

  lemma GradeInRange(j: Judged)
    ensures |Graded(j)| <= 1
    ensures 0.0 <= Sum(Graded(j)) <= |Graded(j)| as real
    ensures Sum([]) == 0.0
  {
  }

  lemma {:induction false} GradesInRange(js: seq<Judged>)
    ensures 0.0 <= Sum(Grades(js)) <= |Grades(js)| as real
  {
    hide Sum, Graded;
    if js == [] {
      GradeInRange(Judged(false, None, false));
    } else {
      var last := |js| - 1;
      GradesInRange(js[..last]);
      GradeInRange(js[last]);
      SumAppend(Grades(js[..last]), Graded(js[last]));
    }
  }

  lemma DivideMonotone(x: real, y: real, n: real)
    requires n > 0.0
    ensures x <= y ==> x / n <= y / n
    ensures 0.0 <= x <= n ==> 0.0 <= x / n <= 1.0
  {
  }

  /** Turning one wrong verdict into a right one, with the findings unchanged, never lowers the
      agent's score. */
  lemma FixingNeverHurts(root: real -> real, js: seq<Judged>, i: nat, decision: Decision)
    requires IsRoot(root)
    requires WrongAt(js, i) && Correct(js[i].malicious, decision)
    ensures ScoreOf(root, Revised(js, i, decision)) >= ScoreOf(root, js)
  {
    hide ClampedMcc;
    RevisedTally(js, i, decision);
    RevisedGrades(js, i, decision);
    if js[i].malicious {
      CatchingNeverHurts(root, TallyOf(js));
    } else {
      ClearingNeverHurts(root, TallyOf(js));
    }
    if Grades(js) != [] {
      DivideMonotone(Sum(Grades(js)), Sum(Grades(Revised(js, i, decision))), |Grades(js)| as real);
    }
  }

  // ----- what withholding a verdict does

  /** The same run with no verdict on task `i`, as when none of its repetitions completed. */
  function Withheld(js: seq<Judged>, i: nat): seq<Judged>
    requires i < |js|
  {
    js[i := js[i].(verdict := None)]
  }

  lemma WithheldPrefix(js: seq<Judged>, i: nat)
    requires i < |js|
    ensures i < |js| - 1 ==> Withheld(js, i)[..|js| - 1] == Withheld(js[..|js| - 1], i)
    ensures i == |js| - 1 ==> Withheld(js, i)[..|js| - 1] == js[..|js| - 1]
  {
  }

  lemma {:induction false} WithheldTally(js: seq<Judged>, i: nat)
    requires WrongAt(js, i)
    ensures js[i].malicious ==> TallyOf(js).fn > 0 && TallyOf(Withheld(js, i)) == Unmissed(TallyOf(js))
    ensures !js[i].malicious ==> TallyOf(js).fp > 0 && TallyOf(Withheld(js, i)) == Unalarmed(TallyOf(js))
  {
    hide TallyOf;
    WithheldPrefix(js, i);
    TallyLast(js);
    TallyLast(Withheld(js, i));
    if i < |js| - 1 {
      WithheldTally(js[..|js| - 1], i);
    }
  }

  lemma WithheldGrade(j: Judged)
    requires j.verdict.Some? && !Correct(j.malicious, j.verdict.value.decision)
    ensures Graded(j) == if j.expects then [0.0] else []
    ensures Graded(j.(verdict := None)) == []
    ensures Sum([]) == Sum([0.0]) == 0.0
  {
  }

  /** The grade that goes is a zero. */
  lemma {:induction false} WithheldGrades(js: seq<Judged>, i: nat)
    requires WrongAt(js, i)
    ensures |Grades(Withheld(js, i))| == |Grades(js)| - (if js[i].expects then 1 else 0)
    ensures Sum(Grades(Withheld(js, i))) == Sum(Grades(js))
  {
    hide Sum, Grades, Graded;
    var last, withheld := |js| - 1, Withheld(js, i);
    WithheldPrefix(js, i);
    if i < last {
      WithheldGrades(js[..last], i);
    } else {
      WithheldGrade(js[last]);
    }
    GradesLast(js);
    GradesLast(withheld);
    SumAppend(Grades(js[..last]), Graded(js[last]));
    SumAppend(Grades(withheld[..last]), Graded(withheld[last]));
  }

  lemma MeanOverFewer(sum: real, few: nat, many: nat)
    requires 0 < few <= many && sum >= 0.0
    ensures sum / many as real <= sum / few as real
  {
    var q := sum / many as real;
    assert q * many as real == sum;
    assert q >= 0.0 by { DivideMonotone(0.0, sum, many as real); }
    assert q * few as real <= q * many as real;
    DivideMonotone(q * few as real, sum, few as real);
    assert q * few as real / few as real == q;
  }

  /** Keeping silent instead of giving a wrong verdict never lowers the agent's score, because a task
      without a verdict is left out of the matrix and of the findings. */
  lemma WithholdingNeverHurts(root: real -> real, js: seq<Judged>, i: nat)
    requires IsRoot(root)
    requires WrongAt(js, i)
    ensures ScoreOf(root, Withheld(js, i)) >= ScoreOf(root, js)
  {
    hide ClampedMcc, TallyOf, Grades, Sum, Graded;
    var before, after := TallyOf(js), TallyOf(Withheld(js, i));
    WithheldTally(js, i);
    WithheldGrades(js, i);
    GradesInRange(js);
    ClampedRange(root, before);
    ClampedRange(root, after);
    if js[i].malicious {
      WithholdingAMissNeverHurts(root, before);
    } else {
      WithholdingAnAlarmNeverHurts(root, before);
    }
    if Grades(Withheld(js, i)) != [] {
      MeanOverFewer(Sum(Grades(js)), |Grades(Withheld(js, i))|, |Grades(js)|);
    } else if Grades(js) != [] {
      assert Sum(Grades(js)) == 0.0 by { NothingSummed(Grades(Withheld(js, i))); }
      DivideMonotone(0.0, 0.0, |Grades(js)| as real);
    }
    if after.tp + after.tn + after.fp + after.fn == 0 {
      NoRightVerdict(root, js, i);
    }
  }

  lemma NothingSummed(xs: seq<real>)
    ensures xs == [] ==> Sum(xs) == 0.0
  {
  }

  lemma {:induction false} NothingGraded(js: seq<Judged>)
    requires TallyOf(js).tp + TallyOf(js).tn + TallyOf(js).fp + TallyOf(js).fn == 0
    ensures Grades(js) == []
  {
    if js != [] {
      NothingGraded(js[..|js| - 1]);
    }
  }

  /** If only the one wrong verdict was given, the score was nothing. */
  lemma NoRightVerdict(root: real -> real, js: seq<Judged>, i: nat)
    requires IsRoot(root)
    requires WrongAt(js, i)
    requires var c := TallyOf(Withheld(js, i)); c.tp + c.tn + c.fp + c.fn == 0
    ensures ScoreOf(root, js) == 0.0
  {
    hide ClampedMcc, TallyOf, Grades, Sum, Graded;
    WithheldTally(js, i);
    WithheldGrades(js, i);
    NothingGraded(Withheld(js, i));
    NothingSummed(Grades(Withheld(js, i)));
    ClampedRange(root, TallyOf(js));
  }

  // ----- the range of the score

  lemma BlendedRange(correctness: real, quality: real)
    requires 0.0 <= quality <= 1.0
    ensures 0.0 <= Blended(correctness, quality) <= 1.0
    ensures correctness == 0.0 ==> Blended(correctness, quality) <= 0.3
  {
  }

  /** The score lies in [0, 1]. An agent that flags everything, or passes everything, earns nothing
      for its verdicts and at most 0.3 for its findings. */
  lemma ScoreRange(root: real -> real, js: seq<Judged>)
    requires IsRoot(root)
    ensures 0.0 <= ScoreOf(root, js) <= 1.0
    ensures TallyOf(js).tp + TallyOf(js).fp == 0 || TallyOf(js).tn + TallyOf(js).fn == 0 ==> ScoreOf(root, js) <= 0.3
  {
    hide ClampedMcc, Clip01, TallyOf, Grades, Sum;
    ClampedRange(root, TallyOf(js));
    GradesInRange(js);
    if Grades(js) != [] {
      DivideMonotone(Sum(Grades(js)), Sum(Grades(js)), |Grades(js)| as real);
      BlendedRange(ClampedMcc(root, TallyOf(js)), Mean(Grades(js)));
    }
  }

  // ----- the repositories branch

  function Clipped(xs: seq<real>): seq<real> {
    seq(|xs|, i requires 0 <= i < |xs| => Clip01(xs[i]))
  }

  /** A task's score: the mean of its clipped repetition scores, nothing when none completed. */
  function RepoScore(reps: seq<Rep<real>>, used: real, cap: real): real {
    var results := RunReps(reps, used, cap).results;
    if results == [] then 0.0 else Mean(Clipped(results))
  }

  function RepoTotal(work: seq<seq<Rep<real>>>, cap: real, n: nat): real
    requires n <= |work|
  {
    if n == 0 then 0.0
    else RepoTotal(work, cap, n - 1) + RepoScore(work[n - 1], UsedAfter(work, cap, n - 1), cap)
  }

  /** The repositories branch of `_score_agent`, with `_score_repo_task` inlined. */
  method ScoreRepositories(work: seq<seq<Rep<real>>>, cap: real) returns (score: real)
    ensures work == [] ==> score == 0.0
    ensures work != [] ==> score == RepoTotal(work, cap, |work|) / |work| as real
  {
    if work == [] {
      return 0.0;
    }
    var total, wallUsed := 0.0, 0.0;
    for n := 0 to |work|
      invariant wallUsed == UsedAfter(work, cap, n)
      invariant total == RepoTotal(work, cap, n)
    {
      var results;
      results, wallUsed := RunRepetitions(work[n], wallUsed, cap);
      if results != [] {
        total := total + Mean(Clipped(results));
      }
    }
    score := total / |work| as real;
  }

  lemma {:induction false} SumInRange(xs: seq<real>)
    requires forall i :: 0 <= i < |xs| ==> 0.0 <= xs[i] <= 1.0
    ensures 0.0 <= Sum(xs) <= |xs| as real
  {
    if xs != [] {
      SumInRange(xs[..|xs| - 1]);
    }
  }

  lemma RepoScoreInRange(reps: seq<Rep<real>>, used: real, cap: real)
    ensures 0.0 <= RepoScore(reps, used, cap) <= 1.0
  {
    var results := RunReps(reps, used, cap).results;
    SumInRange(Clipped(results));
    if results != [] {
      DivideMonotone(Sum(Clipped(results)), Sum(Clipped(results)), |results| as real);
    }
  }

  /** The repositories total after `n` tasks is at most `n`, so the mean over the task set is in
      [0, 1]; once the cap is spent the total no longer moves. */
  lemma {:induction false} RepoTotalBounds(work: seq<seq<Rep<real>>>, cap: real, longest: real, m: nat, n: nat)
    requires AllBounded(work, longest)
    requires 0.0 < cap && 0.0 <= longest
    requires m <= n <= |work|
    ensures 0.0 <= RepoTotal(work, cap, n) <= n as real
    ensures UsedAfter(work, cap, m) >= cap ==> RepoTotal(work, cap, n) == RepoTotal(work, cap, m)
    decreases n
  {
    if 0 < n {
      RepoTotalBounds(work, cap, longest, if m < n then m else m - 1, n - 1);
      RepoScoreInRange(work[n - 1], UsedAfter(work, cap, n - 1), cap);
      if m < n && UsedAfter(work, cap, m) >= cap {
        SpentCapStopsAll(work, cap, longest, m, n - 1);
      }
    }
  }
}
