/** What an agent's score says about its verdicts on the tasks themselves: which cell of the matrix a task
    lands in, what a perfect and a hopeless agent earn, and what turning one task's verdict does. */
module AgentMeaning {
  import opened AgentScore
  import opened Correlation
  import opened Options
  import opened RepetitionMeaning

  // ----- which cell of the matrix a task lands in

  /** The verdict of task `i` under the clock the tasks before it leave; a task of unknown class gets none. */
  function VerdictAt<E, R>(tasks: seq<Task<E, R>>, needInference: bool, cap: real, i: nat): Option<Output<R>>
    requires i < |tasks|
  {
    if tasks[i].target.Unrated? then None
    else VerdictOf(tasks[i], needInference, UsedAfter(WorkOf(tasks), cap, i), cap)
  }

  /** The task is of the class and its verdict flags it, or passes it. */
  predicate Lands<E, R>(t: Task<E, R>, v: Option<Output<R>>, target: Target, flagged: bool) {
    t.target == target && v.Some? && (v.value.decision != Allow) == flagged
  }

  /** Among the first `n` tasks those of one class with a verdict, flagged or passed. */
  function Cell<E, R>(tasks: seq<Task<E, R>>, needInference: bool, cap: real, n: nat,
                      target: Target, flagged: bool): set<nat>
    requires n <= |tasks|
  {
    set i: nat | i < n && Lands(tasks[i], VerdictAt(tasks, needInference, cap, i), target, flagged)
  }

  lemma CellNext<E, R>(tasks: seq<Task<E, R>>, needInference: bool, cap: real, n: nat, target: Target, flagged: bool)
    requires n < |tasks|
    ensures |Cell(tasks, needInference, cap, n + 1, target, flagged)|
            == |Cell(tasks, needInference, cap, n, target, flagged)|
               + if Lands(tasks[n], VerdictAt(tasks, needInference, cap, n), target, flagged) then 1 else 0
  {
    hide VerdictAt, Lands, Cell;
    CellGrows(tasks, needInference, cap, n, target, flagged);
    AddOne(Cell(tasks, needInference, cap, n, target, flagged), n);
  }

  lemma CellGrows<E, R>(tasks: seq<Task<E, R>>, needInference: bool, cap: real, n: nat, target: Target, flagged: bool)
    requires n < |tasks|
    ensures n !in Cell(tasks, needInference, cap, n, target, flagged)
    ensures Cell(tasks, needInference, cap, n + 1, target, flagged)
            == Cell(tasks, needInference, cap, n, target, flagged)
               + if Lands(tasks[n], VerdictAt(tasks, needInference, cap, n), target, flagged) then {n} else {}
  {
    hide VerdictAt, Lands;
  }

  lemma AddOne(s: set<nat>, n: nat)
    requires n !in s
    ensures |s + {n}| == |s| + 1 && s + {} == s
  {
  }

  lemma JudgementsNext<E, R>(tasks: seq<Task<E, R>>, rubric: Rubric<E, R>, needInference: bool, cap: real, n: nat)
    requires n < |tasks|
    ensures var js, v := Judgements(tasks, rubric, needInference, cap, n), VerdictAt(tasks, needInference, cap, n);
            Judgements(tasks, rubric, needInference, cap, n + 1)
            == if tasks[n].target.Unrated? then js else js + [Judge(tasks[n], v, rubric)]
  {
  }

  lemma CountExactly<E, R>(c: Tally, t: Task<E, R>, v: Option<Output<R>>, rubric: Rubric<E, R>)
    requires !t.target.Unrated?
    ensures var d := Count(c, Judge(t, v, rubric));
            && d.tp == c.tp + (if Lands(t, v, Malicious, true) then 1 else 0)
            && d.fn == c.fn + (if Lands(t, v, Malicious, false) then 1 else 0)
            && d.fp == c.fp + (if Lands(t, v, Safe, true) then 1 else 0)
            && d.tn == c.tn + (if Lands(t, v, Safe, false) then 1 else 0)
  {
    hide QualityOn;
  }

  /** The matrix counts tasks: the malicious ones flagged and passed, and the safe ones passed and flagged,
      where to flag is to block or to warn. A task without a verdict or of unknown class is in no cell. */
  lemma {:induction false} TallyExactly<E, R>(tasks: seq<Task<E, R>>, rubric: Rubric<E, R>, needInference: bool,
                                              cap: real, n: nat)
    requires n <= |tasks|
    ensures var c := TallyOf(Judgements(tasks, rubric, needInference, cap, n));
            && c.tp == |Cell(tasks, needInference, cap, n, Malicious, true)|
            && c.fn == |Cell(tasks, needInference, cap, n, Malicious, false)|
            && c.fp == |Cell(tasks, needInference, cap, n, Safe, true)|
            && c.tn == |Cell(tasks, needInference, cap, n, Safe, false)|
  {
    hide VerdictAt, Cell, Count, Judge, TallyOf, Lands, Judgements;
    if n == 0 {
      NothingJudged();
      NoJudgements(tasks, rubric, needInference, cap);
      NoCells(tasks, needInference, cap);
    } else {
      var js, v := Judgements(tasks, rubric, needInference, cap, n - 1), VerdictAt(tasks, needInference, cap, n - 1);
      TallyExactly(tasks, rubric, needInference, cap, n - 1);
      JudgementsNext(tasks, rubric, needInference, cap, n - 1);
      CellNext(tasks, needInference, cap, n - 1, Malicious, true);
      CellNext(tasks, needInference, cap, n - 1, Malicious, false);
      CellNext(tasks, needInference, cap, n - 1, Safe, true);
      CellNext(tasks, needInference, cap, n - 1, Safe, false);
      if tasks[n - 1].target.Unrated? {
        UnratedLandsNowhere(tasks[n - 1], v);
      } else {
        CountExactly(TallyOf(js), tasks[n - 1], v, rubric);
        JudgedNext(js, Judge(tasks[n - 1], v, rubric));
      }
    }
  }

  lemma UnratedLandsNowhere<E, R>(t: Task<E, R>, v: Option<Output<R>>)
    requires t.target.Unrated?
    ensures !Lands(t, v, Malicious, true) && !Lands(t, v, Malicious, false)
    ensures !Lands(t, v, Safe, true) && !Lands(t, v, Safe, false)
  {
  }

  lemma NoJudgements<E, R>(tasks: seq<Task<E, R>>, rubric: Rubric<E, R>, needInference: bool, cap: real)
    ensures Judgements(tasks, rubric, needInference, cap, 0) == []
  {
  }

  lemma NoCells<E, R>(tasks: seq<Task<E, R>>, needInference: bool, cap: real)
    ensures Cell(tasks, needInference, cap, 0, Malicious, true) == {}
    ensures Cell(tasks, needInference, cap, 0, Malicious, false) == {}
    ensures Cell(tasks, needInference, cap, 0, Safe, true) == {}
    ensures Cell(tasks, needInference, cap, 0, Safe, false) == {}
  {
  }

  // ----- the findings behind the verdicts

  /** The task has a verdict and expects findings, so it is graded. */
  predicate Wants<E, R>(t: Task<E, R>, v: Option<Output<R>>) {
    v.Some? && t.expected != []
  }

  function GradedTasks<E, R>(tasks: seq<Task<E, R>>, needInference: bool, cap: real, n: nat): set<nat>
    requires n <= |tasks|
  {
    set i: nat | i < n && Wants(tasks[i], VerdictAt(tasks, needInference, cap, i))
  }

  /** The findings of a malicious task count if it is flagged, those of a safe one if it is passed. */
  function Mark<E, R>(t: Task<E, R>, v: Option<Output<R>>, rubric: Rubric<E, R>): real {
    if v.None? || t.expected == [] || (t.target == Malicious) != (v.value.decision != Allow) then 0.0
    else QualityOn(t, v.value.findings, rubric)
  }

  /** The sum of the marks of the first `n` tasks. */
  function Marks<E, R>(tasks: seq<Task<E, R>>, rubric: Rubric<E, R>, needInference: bool, cap: real, n: nat): real
    requires n <= |tasks|
  {
    if n == 0 then 0.0
    else Marks(tasks, rubric, needInference, cap, n - 1)
         + Mark(tasks[n - 1], VerdictAt(tasks, needInference, cap, n - 1), rubric)
  }

  lemma GradedGrows<E, R>(tasks: seq<Task<E, R>>, needInference: bool, cap: real, n: nat)
    requires n < |tasks|
    ensures n !in GradedTasks(tasks, needInference, cap, n)
    ensures GradedTasks(tasks, needInference, cap, n + 1)
            == GradedTasks(tasks, needInference, cap, n)
               + if Wants(tasks[n], VerdictAt(tasks, needInference, cap, n)) then {n} else {}
  {
    hide VerdictAt, Wants;
  }

  lemma GradedNext<E, R>(tasks: seq<Task<E, R>>, needInference: bool, cap: real, n: nat)
    requires n < |tasks|
    ensures |GradedTasks(tasks, needInference, cap, n + 1)|
            == |GradedTasks(tasks, needInference, cap, n)|
               + if Wants(tasks[n], VerdictAt(tasks, needInference, cap, n)) then 1 else 0
  {
    hide VerdictAt, Wants, GradedTasks;
    GradedGrows(tasks, needInference, cap, n);
    AddOne(GradedTasks(tasks, needInference, cap, n), n);
  }

  lemma GradedExactly<E, R>(t: Task<E, R>, v: Option<Output<R>>, rubric: Rubric<E, R>)
    ensures Graded(Judge(t, v, rubric)) == if Wants(t, v) then [Mark(t, v, rubric)] else []
    ensures !Wants(t, v) ==> Mark(t, v, rubric) == 0.0
    ensures Sum([Mark(t, v, rubric)]) == Mark(t, v, rubric) && Sum([]) == 0.0
  {
    hide QualityOn;
    var x := Mark(t, v, rubric);
    assert [x][..0] == [] && Sum([x][..0]) == 0.0;
  }

  lemma UnratedWantsNothing<E, R>(tasks: seq<Task<E, R>>, rubric: Rubric<E, R>, needInference: bool, cap: real, n: nat)
    requires n < |tasks| && tasks[n].target.Unrated?
    ensures var v := VerdictAt(tasks, needInference, cap, n); !Wants(tasks[n], v) && Mark(tasks[n], v, rubric) == 0.0
  {
  }

  /** As many grades as graded tasks, and together as much as their marks. */
  lemma {:induction false} MarksExactly<E, R>(tasks: seq<Task<E, R>>, rubric: Rubric<E, R>, needInference: bool,
                                              cap: real, n: nat)
    requires n <= |tasks|
    ensures var grades := Grades(Judgements(tasks, rubric, needInference, cap, n));
            && |grades| == |GradedTasks(tasks, needInference, cap, n)|
            && Sum(grades) == Marks(tasks, rubric, needInference, cap, n)
  {
    hide VerdictAt, Judgements, Grades, Judge, Sum, Mark, Wants, GradedTasks, Graded;
    if n == 0 {
      NothingJudged();
      NoJudgements(tasks, rubric, needInference, cap);
      NothingWanted(tasks, rubric, needInference, cap);
    } else {
      var js, v := Judgements(tasks, rubric, needInference, cap, n - 1), VerdictAt(tasks, needInference, cap, n - 1);
      MarksExactly(tasks, rubric, needInference, cap, n - 1);
      JudgementsNext(tasks, rubric, needInference, cap, n - 1);
      GradedNext(tasks, needInference, cap, n - 1);
      if tasks[n - 1].target.Unrated? {
        UnratedWantsNothing(tasks, rubric, needInference, cap, n - 1);
      } else {
        var j := Judge(tasks[n - 1], v, rubric);
        GradedExactly(tasks[n - 1], v, rubric);
        JudgedNext(js, j);
        SumAppend(Grades(js), Graded(j));
      }
    }
  }

  lemma NothingWanted<E, R>(tasks: seq<Task<E, R>>, rubric: Rubric<E, R>, needInference: bool, cap: real)
    ensures GradedTasks(tasks, needInference, cap, 0) == {} && Marks(tasks, rubric, needInference, cap, 0) == 0.0
    ensures Sum([]) == 0.0
  {
  }

  // ----- the score

  ghost function AgentScoreOf<E, R>(root: real -> real, tasks: seq<Task<E, R>>, rubric: Rubric<E, R>,
                                    needInference: bool, cap: real): real {
    ScoreOf(root, Judgements(tasks, rubric, needInference, cap, |tasks|))
  }

  /** The matrix of the tasks. */
  function Matrix<E, R>(tasks: seq<Task<E, R>>, needInference: bool, cap: real): Tally {
    Tally(|Cell(tasks, needInference, cap, |tasks|, Malicious, true)|,
          |Cell(tasks, needInference, cap, |tasks|, Safe, false)|,
          |Cell(tasks, needInference, cap, |tasks|, Safe, true)|,
          |Cell(tasks, needInference, cap, |tasks|, Malicious, false)|)
  }

  /** The score of an agent in terms of its tasks: the clamped correlation of its matrix, or where findings
      are expected seven tenths of that and three tenths of the mean mark over the graded tasks. */
  lemma ScoreExactly<E, R>(root: real -> real, tasks: seq<Task<E, R>>, rubric: Rubric<E, R>,
                           needInference: bool, cap: real)
    requires IsRoot(root)
    ensures var mcc, graded := ClampedMcc(root, Matrix(tasks, needInference, cap)),
                               |GradedTasks(tasks, needInference, cap, |tasks|)|;
            AgentScoreOf(root, tasks, rubric, needInference, cap)
            == if graded == 0 then mcc
               else 0.7 * mcc + 0.3 * (Marks(tasks, rubric, needInference, cap, |tasks|) / graded as real)
  {
    hide ClampedMcc, Judgements, TallyOf, Grades, Sum, Marks, GradedTasks, Cell;
    var js, c := Judgements(tasks, rubric, needInference, cap, |tasks|), Matrix(tasks, needInference, cap);
    TallyExactly(tasks, rubric, needInference, cap, |tasks|);
    MarksExactly(tasks, rubric, needInference, cap, |tasks|);
    assert TallyOf(js) == c;
    ClampedRange(root, c);
    GradesInRange(js);
    if c.tp + c.tn + c.fp + c.fn == 0 {
      NothingGraded(js);
    }
    if Grades(js) != [] {
      DivideMonotone(Sum(Grades(js)), Sum(Grades(js)), |Grades(js)| as real);
      BlendIsPlain(ClampedMcc(root, c), Mean(Grades(js)));
    }
  }

  lemma BlendIsPlain(correctness: real, quality: real)
    requires 0.0 <= correctness <= 1.0 && 0.0 <= quality <= 1.0
    ensures Blended(correctness, quality) == 0.7 * correctness + 0.3 * quality
  {
  }

  /** Task `i` has a verdict that is right for its class. */
  predicate RightOn<E, R>(tasks: seq<Task<E, R>>, needInference: bool, cap: real, i: nat)
    requires i < |tasks|
  {
    var v := VerdictAt(tasks, needInference, cap, i);
    v.Some? && (tasks[i].target == Malicious <==> v.value.decision != Allow)
  }

  predicate WrongOn<E, R>(tasks: seq<Task<E, R>>, needInference: bool, cap: real, i: nat)
    requires i < |tasks|
  {
    VerdictAt(tasks, needInference, cap, i).Some? && !RightOn(tasks, needInference, cap, i)
  }

  lemma RightCells<E, R>(tasks: seq<Task<E, R>>, needInference: bool, cap: real, i: nat)
    requires i < |tasks|
    ensures var n := |tasks|;
            && (RightOn(tasks, needInference, cap, i)
                <==> i in Cell(tasks, needInference, cap, n, Malicious, true)
                     || i in Cell(tasks, needInference, cap, n, Safe, false))
            && (WrongOn(tasks, needInference, cap, i)
                <==> i in Cell(tasks, needInference, cap, n, Malicious, false)
                     || i in Cell(tasks, needInference, cap, n, Safe, true))
  {
    hide VerdictOf, UsedAfter, WorkOf;
  }

  lemma EmptyIff(s: set<nat>)
    ensures |s| == 0 <==> forall i :: i !in s
  {
    if i :| i in s {
      assert |s - {i}| == |s| - 1;
    }
  }

  /** Where no task with a verdict expects findings, an agent scores 1 exactly when it is right on every task
      it gave a verdict on and has one on a task of each class. */
  lemma PerfectIff<E, R>(root: real -> real, tasks: seq<Task<E, R>>, rubric: Rubric<E, R>,
                         needInference: bool, cap: real)
    requires IsRoot(root)
    requires forall i :: 0 <= i < |tasks| && VerdictAt(tasks, needInference, cap, i).Some? ==> tasks[i].expected == []
    ensures AgentScoreOf(root, tasks, rubric, needInference, cap) == 1.0
            <==> && (forall i :: 0 <= i < |tasks| ==> !WrongOn(tasks, needInference, cap, i))
                 && (exists i :: 0 <= i < |tasks| && tasks[i].target == Malicious
                                 && RightOn(tasks, needInference, cap, i))
                 && (exists i :: 0 <= i < |tasks| && tasks[i].target == Safe
                                 && RightOn(tasks, needInference, cap, i))
  {
    hide VerdictAt, ClampedMcc, Cell, Marks, RightOn, WrongOn;
    ScoreExactly(root, tasks, rubric, needInference, cap);
    assert GradedTasks(tasks, needInference, cap, |tasks|) == {};
    ClampedRange(root, Matrix(tasks, needInference, cap));
    CellsByTask(tasks, needInference, cap);
  }

  lemma CellsByTask<E, R>(tasks: seq<Task<E, R>>, needInference: bool, cap: real)
    ensures var c := Matrix(tasks, needInference, cap);
            && (c.fp == 0 && c.fn == 0 <==> forall i :: 0 <= i < |tasks| ==> !WrongOn(tasks, needInference, cap, i))
            && (c.tp == 0 && c.tn == 0 <==> forall i :: 0 <= i < |tasks| ==> !RightOn(tasks, needInference, cap, i))
            && (c.tp > 0 <==> exists i :: 0 <= i < |tasks| && tasks[i].target == Malicious
                                          && RightOn(tasks, needInference, cap, i))
            && (c.tn > 0 <==> exists i :: 0 <= i < |tasks| && tasks[i].target == Safe
                                          && RightOn(tasks, needInference, cap, i))
  {
    hide VerdictAt, RightOn, WrongOn, Lands;
    var n := |tasks|;
    forall i: nat | i < n
      ensures RightOn(tasks, needInference, cap, i)
              <==> i in Cell(tasks, needInference, cap, n, Malicious, true)
                   || i in Cell(tasks, needInference, cap, n, Safe, false)
      ensures WrongOn(tasks, needInference, cap, i)
              <==> i in Cell(tasks, needInference, cap, n, Malicious, false)
                   || i in Cell(tasks, needInference, cap, n, Safe, true)
    {
      RightCells(tasks, needInference, cap, i);
    }
    EmptyIff(Cell(tasks, needInference, cap, n, Malicious, true));
    EmptyIff(Cell(tasks, needInference, cap, n, Malicious, false));
    EmptyIff(Cell(tasks, needInference, cap, n, Safe, true));
    EmptyIff(Cell(tasks, needInference, cap, n, Safe, false));
    OfClass(tasks, needInference, cap);
  }

  lemma OfClass<E, R>(tasks: seq<Task<E, R>>, needInference: bool, cap: real)
    ensures forall i :: i in Cell(tasks, needInference, cap, |tasks|, Malicious, true) ==> tasks[i].target == Malicious
    ensures forall i :: i in Cell(tasks, needInference, cap, |tasks|, Safe, false) ==> tasks[i].target == Safe
  {
    hide VerdictAt;
  }

  /** An agent that is right on no task it gave a verdict on scores 0, whatever it reported. */
  lemma HopelessScoresNothing<E, R>(root: real -> real, tasks: seq<Task<E, R>>, rubric: Rubric<E, R>,
                                    needInference: bool, cap: real)
    requires IsRoot(root)
    requires forall i :: 0 <= i < |tasks| ==> !RightOn(tasks, needInference, cap, i)
    ensures AgentScoreOf(root, tasks, rubric, needInference, cap) == 0.0
  {
    hide RightOn, WrongOn, ClampedMcc, Cell, Marks, GradedTasks;
    ScoreExactly(root, tasks, rubric, needInference, cap);
    CellsByTask(tasks, needInference, cap);
    var c := Matrix(tasks, needInference, cap);
    assert c.tp * c.tn == 0 && c.fp * c.fn >= 0 by { NonNegativeProduct(c.fp, c.fn); }
    ClampedRange(root, c);
    NoMarks(tasks, rubric, needInference, cap, |tasks|);
  }

  lemma {:induction false} NoMarks<E, R>(tasks: seq<Task<E, R>>, rubric: Rubric<E, R>, needInference: bool,
                                         cap: real, n: nat)
    requires n <= |tasks|
    requires forall i :: 0 <= i < n ==> !RightOn(tasks, needInference, cap, i)
    ensures Marks(tasks, rubric, needInference, cap, n) == 0.0
  {
    hide VerdictAt, QualityOn;
    if n > 0 {
      NoMarks(tasks, rubric, needInference, cap, n - 1);
      assert !RightOn(tasks, needInference, cap, n - 1);
    }
  }

  // ----- one task answered differently

  lemma {:induction false} SameClock<E, R>(tasks: seq<Task<E, R>>, i: nat, t: Task<E, R>, cap: real, n: nat)
    requires i < |tasks| && n <= |tasks|
    requires t.target == tasks[i].target
    requires var used := UsedAfter(WorkOf(tasks), cap, i);
             RunReps(t.reps, used, cap).used == RunReps(tasks[i].reps, used, cap).used
    ensures UsedAfter(WorkOf(tasks[i := t]), cap, n) == UsedAfter(WorkOf(tasks), cap, n)
  {
    hide RunReps, UsedAfter, WorkOf;
    if n == 0 {
      UsedStart(tasks, cap);
      UsedStart(tasks[i := t], cap);
    } else {
      SameClock(tasks, i, t, cap, n - 1);
      UsedNext(tasks, cap, n - 1);
      UsedNext(tasks[i := t], cap, n - 1);
    }
  }

  /** Another answer to task `i` in the same time and with the same findings: other repetitions and calls. */
  ghost predicate AnswersAnew<E, R>(tasks: seq<Task<E, R>>, i: nat, reps: seq<Rep<Output<R>>>, calls: int,
                                    decision: Decision, needInference: bool, cap: real)
    requires i < |tasks|
  {
    var t, used := tasks[i].(reps := reps, calls := calls), UsedAfter(WorkOf(tasks), cap, i);
    var v := VerdictAt(tasks, needInference, cap, i);
    && RunReps(reps, used, cap).used == RunReps(tasks[i].reps, used, cap).used
    && v.Some? && VerdictOf(t, needInference, used, cap) == Some(v.value.(decision := decision))
  }

  lemma AnsweredAnew<E, R>(tasks: seq<Task<E, R>>, i: nat, reps: seq<Rep<Output<R>>>, calls: int,
                           decision: Decision, rubric: Rubric<E, R>, needInference: bool, cap: real)
    requires i < |tasks| && AnswersAnew(tasks, i, reps, calls, decision, needInference, cap)
    ensures var later := tasks[i := tasks[i].(reps := reps, calls := calls)];
            var v, v' := VerdictAt(tasks, needInference, cap, i), VerdictAt(later, needInference, cap, i);
            var j := Judge(tasks[i], v, rubric);
            && j.verdict.Some? && !tasks[i].target.Unrated?
            && Judge(later[i], v', rubric) == j.(verdict := Some(j.verdict.value.(decision := decision)))
  {
    hide UsedAfter, WorkOf, RunReps;
    SameClock(tasks, i, tasks[i].(reps := reps, calls := calls), cap, i);
  }

  lemma SameVerdict<E, R>(tasks: seq<Task<E, R>>, i: nat, reps: seq<Rep<Output<R>>>, calls: int,
                          decision: Decision, needInference: bool, cap: real, n: nat)
    requires i < |tasks| && n < |tasks| && n != i
    requires AnswersAnew(tasks, i, reps, calls, decision, needInference, cap)
    ensures VerdictAt(tasks[i := tasks[i].(reps := reps, calls := calls)], needInference, cap, n)
            == VerdictAt(tasks, needInference, cap, n)
  {
    hide VerdictOf, UsedAfter, WorkOf, RunReps;
    SameClock(tasks, i, tasks[i].(reps := reps, calls := calls), cap, n);
  }

  /** The judgements of the run in which task `i` is answered anew. */
  lemma {:induction false} JudgedAnew<E, R>(tasks: seq<Task<E, R>>, i: nat, reps: seq<Rep<Output<R>>>, calls: int,
                                            decision: Decision, rubric: Rubric<E, R>,
                                            needInference: bool, cap: real, n: nat)
    requires i < |tasks| && n <= |tasks|
    requires AnswersAnew(tasks, i, reps, calls, decision, needInference, cap)
    ensures var later := tasks[i := tasks[i].(reps := reps, calls := calls)];
            var k, js := |Judgements(tasks, rubric, needInference, cap, i)|,
                         Judgements(tasks, rubric, needInference, cap, n);
            && (n <= i ==> Judgements(later, rubric, needInference, cap, n) == js)
            && (i < n ==> k < |js| && js[k] == Judge(tasks[i], VerdictAt(tasks, needInference, cap, i), rubric)
                          && js[k].verdict.Some?
                          && Judgements(later, rubric, needInference, cap, n) == Revised(js, k, decision))
  {
    hide Judgements, Judge, VerdictAt, AnswersAnew;
    var later := tasks[i := tasks[i].(reps := reps, calls := calls)];
    if n == 0 {
      NoJudgements(tasks, rubric, needInference, cap);
      NoJudgements(later, rubric, needInference, cap);
    } else {
      JudgedAnew(tasks, i, reps, calls, decision, rubric, needInference, cap, n - 1);
      JudgementsNext(tasks, rubric, needInference, cap, n - 1);
      JudgementsNext(later, rubric, needInference, cap, n - 1);
      AnsweredAnew(tasks, i, reps, calls, decision, rubric, needInference, cap);
      if n - 1 != i {
        SameVerdict(tasks, i, reps, calls, decision, needInference, cap, n - 1);
      }
    }
  }

  lemma WrongIsWrong<E, R>(tasks: seq<Task<E, R>>, i: nat, rubric: Rubric<E, R>, needInference: bool, cap: real)
    requires i < |tasks| && WrongOn(tasks, needInference, cap, i)
    ensures var j := Judge(tasks[i], VerdictAt(tasks, needInference, cap, i), rubric);
            && j.verdict.Some? && j.malicious == (tasks[i].target == Malicious)
            && !Correct(j.malicious, j.verdict.value.decision)
  {
    hide QualityOn, VerdictOf, UsedAfter, WorkOf;
  }

  /** A task answered wrongly, answered right instead in the same time and with the same findings, never
      lowers the agent's score. */
  lemma FixedTaskNeverHurts<E, R>(root: real -> real, tasks: seq<Task<E, R>>, i: nat, reps: seq<Rep<Output<R>>>,
                                  calls: int, decision: Decision, rubric: Rubric<E, R>,
                                  needInference: bool, cap: real)
    requires IsRoot(root)
    requires i < |tasks| && WrongOn(tasks, needInference, cap, i)
    requires AnswersAnew(tasks, i, reps, calls, decision, needInference, cap)
    requires tasks[i].target == Malicious <==> decision != Allow
    ensures AgentScoreOf(root, tasks[i := tasks[i].(reps := reps, calls := calls)], rubric, needInference, cap)
            >= AgentScoreOf(root, tasks, rubric, needInference, cap)
  {
    hide ScoreOf, Judgements, Judge, VerdictAt, WrongOn, AnswersAnew;
    var k, js := |Judgements(tasks, rubric, needInference, cap, i)|,
                 Judgements(tasks, rubric, needInference, cap, |tasks|);
    JudgedAnew(tasks, i, reps, calls, decision, rubric, needInference, cap, |tasks|);
    WrongIsWrong(tasks, i, rubric, needInference, cap);
    FixingNeverHurts(root, js, k, decision);
  }

  // ----- means

  lemma {:induction false} SumMoves(xs: seq<real>, i: nat, y: real)
    requires i < |xs|
    ensures Sum(xs[i := y]) == Sum(xs) + y - xs[i]
  {
    var n := |xs| - 1;
    if i < n {
      SumMoves(xs[..n], i, y);
      assert xs[i := y][..n] == xs[..n][i := y];
    } else {
      assert xs[i := y][..n] == xs[..n];
    }
  }

  lemma {:induction false} SumConstant(xs: seq<real>, x: real)
    requires forall i :: 0 <= i < |xs| ==> xs[i] == x
    ensures Sum(xs) == |xs| as real * x
  {
    if xs != [] {
      SumConstant(xs[..|xs| - 1], x);
    }
  }

  /** The mean of equal numbers is that number, and one number replaced moves it by the difference over the
      length. */
  lemma MeanExactly(xs: seq<real>, i: nat, y: real)
    requires i < |xs|
    ensures Mean(xs[i := y]) == Mean(xs) + (y - xs[i]) / |xs| as real
    ensures (forall j :: 0 <= j < |xs| ==> xs[j] == y) ==> Mean(xs) == y
  {
    hide Sum;
    SumMoves(xs, i, y);
    SplitQuotient(Sum(xs), y - xs[i], |xs| as real);
    if forall j :: 0 <= j < |xs| ==> xs[j] == y {
      SumConstant(xs, y);
      assert |xs| as real * y / |xs| as real == y;
    }
  }

  lemma SplitQuotient(x: real, y: real, n: real)
    requires n > 0.0
    ensures (x + y) / n == x / n + y / n
  {
  }

  // ----- repositories

  /** A repository task scores the mean over the repetitions that completed before the cap, each forced into
      [0, 1], and nothing when none did. */
  lemma RepoScoreExactly(reps: seq<Rep<real>>, used: real, cap: real, k: nat, xs: seq<real>)
    requires StopsAt(reps, used, cap, k)
    requires |xs| == |Delivered(reps[..k])|
    requires forall i :: 0 <= i < |xs| ==>
               var x := Delivered(reps[..k])[i]; xs[i] == if x < 0.0 then 0.0 else if x > 1.0 then 1.0 else x
    ensures RepoScore(reps, used, cap) == if xs == [] then 0.0 else Mean(xs)
  {
    hide RunReps, StopsAt, Delivered, Mean;
    RepsExactly(reps, used, cap, k);
    var results := RunReps(reps, used, cap).results;
    assert Clipped(results) == xs;
  }

  /** The repositories total is the sum of the task scores, each under the clock the tasks before it leave. */
  lemma {:induction false} RepoTotalExactly(work: seq<seq<Rep<real>>>, cap: real, xs: seq<real>)
    requires |xs| <= |work|
    requires forall i :: 0 <= i < |xs| ==> xs[i] == RepoScore(work[i], RunReps(Flat(work, i), 0.0, cap).used, cap)
    ensures RepoTotal(work, cap, |xs|) == Sum(xs)
  {
    hide RepoScore, RunReps, Flat;
    if xs != [] {
      var n := |xs| - 1;
      assert forall i :: 0 <= i < n ==> xs[..n][i] == xs[i];
      RepoTotalExactly(work, cap, xs[..n]);
      OneClock(work, cap, n);
    }
  }
}
