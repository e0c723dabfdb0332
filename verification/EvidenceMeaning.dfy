/** What the scoring of a report comes to where nothing is planted, what the blend of the dimensions is in
    numbers, and which findings the flattened and the filtered lists hold. */
module EvidenceMeaning {
  import opened AgentScore
  import opened FindingScores
  import opened Matching
  import opened Options
  import opened SupplyChain

  // ----- a dimension in which nothing is planted

  /** Where nothing is planted every reported entry costs a fifth, a malformed one too: silence scores 1, and
      five entries or more score nothing. */
  lemma CleanExactly<E, R>(reported: seq<Entry<R>>, expected: seq<Entry<E>>, m: (E, R) -> bool)
    requires Findings(expected) == []
    ensures var score := DimScore(reported, expected, m);
            && score == (if |reported| >= 5 then 0.0 else 1.0 - 0.2 * |reported| as real)
            && (score == 1.0 <==> reported == [])
            && (score == 0.0 <==> |reported| >= 5)
  {
    hide Findings;
  }

  lemma CleanAppend<E, R>(reported: seq<Entry<R>>, entry: Entry<R>, expected: seq<Entry<E>>, m: (E, R) -> bool)
    requires Findings(expected) == []
    ensures var before, after := DimScore(reported, expected, m), DimScore(reported + [entry], expected, m);
            && after <= before
            && (|reported| < 5 ==> after == before - 0.2)
            && (|reported| >= 5 ==> after == before == 0.0)
  {
    hide Findings;
    CleanExactly(reported, expected, m);
    CleanExactly(reported + [entry], expected, m);
  }

  /** One more entry in a labelled dimension in which nothing is planted, well-formed or not: the repository's
      score never rises, and falls exactly while there are fewer than five, in whichever dimension it is and
      whatever the other two are. */
  lemma OneMoreFalseReport<E, R>(files: int, e: Evidence<E, R>, entry: Entry<R>, m: (E, R) -> bool, x: Label, y: Label)
    requires files > 0 && e.planted.Some? && Findings(e.planted.value) == []
    requires UnitLabel(x) && UnitLabel(y)
    ensures var l, l' := LabelOf(e, m), LabelOf(e.(reported := e.reported + [entry]), m);
            && Evaluation(files, l', x, y) <= Evaluation(files, l, x, y)
            && Evaluation(files, x, l', y) <= Evaluation(files, x, l, y)
            && Evaluation(files, x, y, l') <= Evaluation(files, x, y, l)
            && (Evaluation(files, l', x, y) < Evaluation(files, l, x, y) <==> |e.reported| < 5)
            && (Evaluation(files, x, l', y) < Evaluation(files, x, l, y) <==> |e.reported| < 5)
            && (Evaluation(files, x, y, l') < Evaluation(files, x, y, l) <==> |e.reported| < 5)
  {
    hide Evaluation, DimScore, Findings;
    var more := e.(reported := e.reported + [entry]);
    var l, l' := LabelOf(e, m), LabelOf(more, m);
    CleanAppend(e.reported, entry, e.planted.value, m);
    LabelInRange(e, m);
    LabelInRange(more, m);
    EvaluationOrder(files, l, x, y, l', x, y);
    EvaluationOrder(files, l', x, y, l, x, y);
    EvaluationOrder(files, x, l, y, x, l', y);
    EvaluationOrder(files, x, l', y, x, l, y);
    EvaluationOrder(files, x, y, l, x, y, l');
    EvaluationOrder(files, x, y, l', x, y, l);
  }

  // ----- the blend in numbers

  /** A repository of which nothing was analysed scores 0; otherwise the labelled dimensions weigh 0.5, 0.3 and
      0.2, and the score is their weighted mean. */
  lemma EvaluationExactly(files: int, v: Label, s: Label, k: Label)
    requires UnitLabel(v) && UnitLabel(s) && UnitLabel(k)
    ensures files <= 0 ==> Evaluation(files, v, s, k) == 0.0
    ensures files > 0 ==>
              var weight := (if v.Labelled? then 0.5 else 0.0) + (if s.Labelled? then 0.3 else 0.0)
                            + (if k.Labelled? then 0.2 else 0.0);
              var parts := (if v.Labelled? then 0.5 * v.score else 0.0) + (if s.Labelled? then 0.3 * s.score else 0.0)
                           + (if k.Labelled? then 0.2 * k.score else 0.0);
              Evaluation(files, v, s, k) == if weight == 0.0 then 0.0 else parts / weight
  {
    hide TotalWeight, WeightedSum, LabelledDims;
    if files > 0 {
      EvaluationRange(files, v, s, k);
      LabelledSums(v, s, k);
    }
  }

  // ----- the findings an agent is graded on

  /** Of the expected findings those of the context plane are wanted, and all of them where the detonation
      observed nothing, in the order in which they are expected. */
  lemma {:induction false} DeltaAppend<E>(expected: seq<Entry<E>>, entry: Entry<E>, observed: bool, context: E -> bool)
    ensures DeltaFindings<E>([], observed, context) == []
    ensures DeltaFindings(expected + [entry], observed, context)
            == DeltaFindings(expected, observed, context)
               + if entry.Finding? && (!observed || context(entry.value)) then [entry.value] else []
  {
    if expected == [] {
      assert [entry][1..] == [];
      assert [] + [entry] == [entry];
    } else {
      DeltaAppend(expected[1..], entry, observed, context);
      assert (expected + [entry])[1..] == expected[1..] + [entry];
    }
  }

  /** The findings of a task earn twice the greedy hits over the wanted and the reported ones together, and
      nothing where either list is empty. */
  lemma QualityOnExactly<E, R>(t: Task<E, R>, findings: seq<Entry<R>>, rubric: Rubric<E, R>)
    ensures var wanted, found := DeltaFindings(t.expected, t.observed, rubric.context), Findings(findings);
            QualityOn(t, findings, rubric)
            == if wanted == [] || found == [] then 0.0
               else Ratio(2 * |Greedy(wanted, found, rubric.matches)|, |wanted| + |found|)
  {
    hide DeltaFindings, Findings, Greedy, Ratio;
    var wanted, found := DeltaFindings(t.expected, t.observed, rubric.context), Findings(findings);
    if wanted != [] && found != [] {
      QualityIsF1(wanted, found, rubric.matches);
    }
  }

  // ----- the flattened supply-chain report

  lemma {:induction false} TypedExactly(kind: string, lower: string -> string, names: seq<Entry<string>>, i: nat)
    ensures |Typed(kind, lower, names)| == |Findings(names)|
    ensures i < |Findings(names)| ==> Typed(kind, lower, names)[i] == Finding(Supply(kind, lower(Findings(names)[i])))
  {
    if names != [] {
      var n := |names| - 1;
      TypedExactly(kind, lower, names[..n], i);
      assert names == names[..n] + [names[n]];
      FindingsAppend(names[..n], [names[n]]);
      assert Findings([names[n]]) == if names[n].Finding? then [names[n].value] else [] by {
        assert [names[n]][1..] == [];
      }
    }
  }

  /** The dependencies that carry a CVE. */
  function WithCve(deps: seq<Dependency>): seq<string> {
    if deps == [] then []
    else (if deps[0].cve then [deps[0].name] else []) + WithCve(deps[1..])
  }

  lemma {:induction false} WithCveAppend(deps: seq<Dependency>, more: seq<Dependency>)
    requires |more| <= 1
    ensures WithCve(deps + more) == WithCve(deps) + if more != [] && more[0].cve then [more[0].name] else []
  {
    if deps == [] {
      assert deps + more == more;
      if more != [] {
        assert more[1..] == [];
      }
    } else {
      WithCveAppend(deps[1..], more);
      assert (deps + more)[1..] == deps[1..] + more;
    }
  }

  lemma {:induction false} VulnerableExactly(lower: string -> string, deps: seq<Entry<Dependency>>, i: nat)
    ensures var names := WithCve(Findings(deps));
            && |Vulnerable(lower, deps)| == |names|
            && (i < |names| ==> Vulnerable(lower, deps)[i] == Finding(Supply("vulnerable_dependency", lower(names[i]))))
  {
    if deps != [] {
      var n := |deps| - 1;
      VulnerableExactly(lower, deps[..n], i);
      assert deps == deps[..n] + [deps[n]];
      FindingsAppend(deps[..n], [deps[n]]);
      assert Findings([deps[n]]) == if deps[n].Finding? then [deps[n].value] else [] by {
        assert [deps[n]][1..] == [];
      }
      WithCveAppend(Findings(deps[..n]), Findings([deps[n]]));
    }
  }

  /** The `i`-th entry of the flat list: the typosquats come first, then the dependency confusions, the install
      scripts and the dependencies with a CVE, each under its kind with its name in lower case, and an install
      script without a name. */
  lemma FlattenedExactly(lower: string -> string, r: Report, i: nat)
    ensures var a, b, c, d := Findings(r.typosquats), Findings(r.confusions), Findings(r.scripts),
                              WithCve(Findings(r.dependencies));
            var flat := Flattened(lower, Some(r));
            && |flat| == |a| + |b| + |c| + |d|
            && (i < |a| ==> flat[i] == Finding(Supply("typosquat", lower(a[i]))))
            && (i < |b| ==> flat[|a| + i] == Finding(Supply("dependency_confusion", lower(b[i]))))
            && (i < |c| ==> flat[|a| + |b| + i] == Finding(Supply("install_script", "")))
            && (i < |d| ==> flat[|a| + |b| + |c| + i] == Finding(Supply("vulnerable_dependency", lower(d[i]))))
    ensures Flattened(lower, None) == []
  {
    hide Typed, Vulnerable, Findings, WithCve;
    TypedExactly("typosquat", lower, r.typosquats, i);
    TypedExactly("dependency_confusion", lower, r.confusions, i);
    TypedExactly("install_script", (s: string) => "", r.scripts, i);
    VulnerableExactly(lower, r.dependencies, i);
  }
}
