/** F-beta over greedily matched findings: the repository dimensions and their blend, and the
    finding quality of the behavioural tracks. */
module FindingScores {
  import opened Matching
  import opened Options
  import opened SupplyChain

  function Clip01(x: real): real {
    if x <= 0.0 then 0.0 else if x >= 1.0 then 1.0 else x
  }

  /** `fbeta` with the square of beta as its weight. */
  function FBeta(precision: real, recall: real, weight: real): real {
    var denom := weight * precision + recall;
    if denom == 0.0 then 0.0 else (1.0 + weight) * precision * recall / denom
  }

  function Ratio(x: int, y: int): real
    requires y != 0
  {
    x as real / y as real
  }

  /** Over `hits` pairs among `nExp` and `nRep` findings, F-beta is (1 + w) hits / (w nExp + nRep). */
  lemma FBetaOfHits(hits: nat, nExp: nat, nRep: nat, weight: nat)
    requires nExp > 0 && nRep > 0 && weight > 0
    ensures FBeta(Ratio(hits, nRep), Ratio(hits, nExp), weight as real)
            == Ratio((1 + weight) * hits, weight * nExp + nRep)
  {
    hide FBeta, Ratio;
    if hits == 0 {
      FBetaOfNone(nExp, nRep, weight);
    } else {
      FBetaOfSome(hits, nExp, nRep, weight);
    }
  }

  lemma FBetaOfNone(nExp: nat, nRep: nat, weight: nat)
    requires nExp > 0 && nRep > 0 && weight > 0
    ensures FBeta(Ratio(0, nRep), Ratio(0, nExp), weight as real) == Ratio((1 + weight) * 0, weight * nExp + nRep)
  {
    assert Ratio(0, nRep) == 0.0 && Ratio(0, nExp) == 0.0;
    assert weight as real * 0.0 == 0.0;
  }

  lemma FBetaOfSome(hits: nat, nExp: nat, nRep: nat, weight: nat)
    requires hits > 0 && nExp > 0 && nRep > 0 && weight > 0
    ensures FBeta(Ratio(hits, nRep), Ratio(hits, nExp), weight as real)
            == Ratio((1 + weight) * hits, weight * nExp + nRep)
  {
    var h, e, r, w := hits as real, nExp as real, nRep as real, weight as real;
    var p, q := h / r, h / e;
    assert p * r == h && q * e == h;
    assert p > 0.0 && q > 0.0 && w * p > 0.0;
    FBetaArithmetic(p, q, r, e, h, w);
    CastSum(hits, nExp, nRep, weight);
  }

  lemma CastSum(hits: nat, nExp: nat, nRep: nat, weight: nat)
    ensures ((1 + weight) * hits) as real == (1.0 + weight as real) * hits as real
    ensures (weight * nExp + nRep) as real == weight as real * nExp as real + nRep as real
  {
  }

  lemma FBetaArithmetic(p: real, q: real, r: real, e: real, h: real, w: real)
    requires p > 0.0 && q > 0.0 && r > 0.0 && e > 0.0 && w > 0.0
    requires p * r == h && q * e == h
    requires w * p + q != 0.0
    ensures w * e + r > 0.0
    ensures (1.0 + w) * p * q / (w * p + q) == (1.0 + w) * h / (w * e + r)
  {
    // p q (w e + r) == h (w p + q)
    assert (p * q) * (w * e + r) == h * (w * p + q) by {
      assert (p * q) * (w * e + r) == w * p * (q * e) + q * (p * r);
      assert w * p * h + q * h == h * (w * p + q);
    }
    CrossEqual((1.0 + w) * p * q, w * p + q, (1.0 + w) * h, w * e + r, 1.0 + w, p * q, h);
  }

  lemma CrossEqual(x: real, d: real, y: real, f: real, k: real, pq: real, h: real)
    requires d != 0.0 && f > 0.0
    requires x == k * pq && y == k * h
    requires pq * f == h * d
    ensures x / d == y / f
  {
    assert x * f == y * d by {
      assert x * f == k * (pq * f);
      assert y * d == k * (h * d);
    }
    var a := x / d;
    assert a * d == x;
    assert a * d * f == y * d;
    assert (a * f) * d == y * d;
    CancelFactor(a * f, y, d);
    assert a * f / f == a;
  }

  lemma CancelFactor(x: real, y: real, d: real)
    requires d != 0.0 && x * d == y * d
    ensures x == y
  {
    assert (x - y) * d == 0.0;
  }

  /** Order of two fractions with positive denominators. */
  lemma RatioOrder(x: int, a: int, y: int, b: int)
    requires a > 0 && b > 0
    ensures Ratio(x, a) < Ratio(y, b) <==> x * b < y * a
    ensures Ratio(x, a) == Ratio(y, b) <==> x * b == y * a
  {
    var p, q, c, d := Ratio(x, a), Ratio(y, b), a as real, b as real;
    assert p * c == x as real && q * d == y as real;
    assert (x * b) as real == p * (c * d);
    assert (y * a) as real == q * (c * d);
    assert c * d > 0.0;
    assert (q - p) * (c * d) == q * (c * d) - p * (c * d);
    FactorSign(q - p, c * d);
  }

  lemma FactorSign(x: real, d: real)
    requires d > 0.0
    ensures x > 0.0 <==> x * d > 0.0
    ensures x == 0.0 <==> x * d == 0.0
  {
  }

  // ----- one repository dimension

  function CleanPrecision(n: nat): real {
    Clip01(1.0 - n as real / 5.0)
  }

  function Hits<E, R>(reported: seq<Entry<R>>, expected: seq<Entry<E>>, m: (E, R) -> bool): nat {
    |Greedy(Findings(expected), Findings(reported), m)|
  }

  /** `_dim_score`: clean precision where nothing is planted, F2 where something is. */
  function DimScore<E, R>(reported: seq<Entry<R>>, expected: seq<Entry<E>>, m: (E, R) -> bool): real {
    var nExp, nRep := |Findings(expected)|, |Findings(reported)|;
    if nExp == 0 then CleanPrecision(|reported|)
    else if nRep == 0 then 0.0
    else FBeta(Ratio(Hits(reported, expected, m), nRep), Ratio(Hits(reported, expected, m), nExp), 4.0)
  }

  method ScoreDimension<E, R>(reported: seq<Entry<R>>, expected: seq<Entry<E>>, m: (E, R) -> bool) returns (score: real)
    ensures score == DimScore(reported, expected, m)
  {
    var hits, nExp, nRep := MatchCounts(reported, expected, m);
    if nExp == 0 {
      return CleanPrecision(|reported|);
    }
    if nRep == 0 {
      return 0.0;
    }
    return FBeta(Ratio(hits, nRep), Ratio(hits, nExp), 4.0);
  }

  /** With something planted and something reported, the score is 5 hits / (4 planted + reported). */
  lemma DimScoreClosed<E, R>(reported: seq<Entry<R>>, expected: seq<Entry<E>>, m: (E, R) -> bool)
    requires |Findings(expected)| > 0
    ensures DimScore(reported, expected, m)
            == Ratio(5 * Hits(reported, expected, m), 4 * |Findings(expected)| + |Findings(reported)|)
  {
    HitsBounded(Findings(expected), Findings(reported), m);
    hide Greedy, Findings, FBeta;
    if |Findings(reported)| > 0 {
      FBetaOfHits(Hits(reported, expected, m), |Findings(expected)|, |Findings(reported)|, 4);
    }
  }

  lemma F2Range(h: nat, e: nat, r: nat)
    requires 0 < e && h <= e && h <= r
    ensures 0.0 <= Ratio(5 * h, 4 * e + r) <= 1.0
    ensures Ratio(5 * h, 4 * e + r) == 1.0 <==> h == e == r
    ensures Ratio(5 * h, 4 * e + r) == 0.0 <==> h == 0
  {
    RatioOrder(5 * h, 4 * e + r, 1, 1);
    RatioOrder(5 * h, 4 * e + r, 0, 1);
    assert Ratio(1, 1) == 1.0 && Ratio(0, 1) == 0.0;
  }

  /** The score lies in [0, 1]; with something planted it is 1 exactly when the two lists pair off
      completely, and 0 exactly when nothing is hit. */
  lemma DimScoreRange<E, R>(reported: seq<Entry<R>>, expected: seq<Entry<E>>, m: (E, R) -> bool)
    ensures 0.0 <= DimScore(reported, expected, m) <= 1.0
    ensures |Findings(expected)| > 0 ==>
              && (DimScore(reported, expected, m) == 1.0
                  <==> Hits(reported, expected, m) == |Findings(expected)| == |Findings(reported)|)
              && (DimScore(reported, expected, m) == 0.0 <==> Hits(reported, expected, m) == 0)
  {
    if |Findings(expected)| > 0 {
      HitsBounded(Findings(expected), Findings(reported), m);
      DimScoreClosed(reported, expected, m);
      F2Range(Hits(reported, expected, m), |Findings(expected)|, |Findings(reported)|);
    }
  }

  lemma F2Append(h: nat, e: nat, r: nat)
    requires 0 < e && h <= e && h <= r
    ensures Ratio(5 * (h + 1), 4 * e + (r + 1)) > Ratio(5 * h, 4 * e + r)
    ensures h > 0 ==> Ratio(5 * h, 4 * e + (r + 1)) < Ratio(5 * h, 4 * e + r)
    ensures h == 0 ==> Ratio(5 * h, 4 * e + (r + 1)) == Ratio(5 * h, 4 * e + r) == 0.0
  {
    var d := 4 * e + r;
    RatioOrder(5 * h, d, 5 * (h + 1), d + 1);
    RatioOrder(5 * h, d + 1, 5 * h, d);
    assert 5 * h * (d + 1) == 5 * h * d + 5 * h;
    assert 5 * (h + 1) * d == 5 * h * d + 5 * d;
  }

  /** Appending one dictionary-shaped report adds one finding and at most one hit. */
  lemma ReportingHits<E, R>(reported: seq<Entry<R>>, r: R, expected: seq<Entry<E>>, m: (E, R) -> bool)
    ensures |Findings(reported + [Finding(r)])| == |Findings(reported)| + 1
    ensures Hits(reported + [Finding(r)], expected, m)
            == Hits(reported, expected, m) + (if Wanted(Findings(expected), Findings(reported), r, m) then 1 else 0)
  {
    FindingsAppend(reported, [Finding(r)]);
    assert Findings([Finding(r)]) == [r];
    AppendedHits(Findings(expected), Findings(reported), r, m);
  }

  /** Appending one dictionary-shaped report where something is planted raises the score exactly
      when an expected finding without a match wants it, and otherwise lowers a positive score. */
  lemma ReportingMore<E, R>(reported: seq<Entry<R>>, r: R, expected: seq<Entry<E>>, m: (E, R) -> bool)
    requires |Findings(expected)| > 0
    ensures var before, after := DimScore(reported, expected, m), DimScore(reported + [Finding(r)], expected, m);
            var hits := Hits(reported, expected, m);
            && Hits(reported + [Finding(r)], expected, m)
               == hits + (if Wanted(Findings(expected), Findings(reported), r, m) then 1 else 0)
            && (Wanted(Findings(expected), Findings(reported), r, m) <==> after > before)
            && (!Wanted(Findings(expected), Findings(reported), r, m) && hits > 0 ==> after < before)
            && (!Wanted(Findings(expected), Findings(reported), r, m) && hits == 0 ==> after == before == 0.0)
  {
    hide Wanted, Greedy, Findings, DimScore, Ratio;
    var h, h', e, n := Hits(reported, expected, m), Hits(reported + [Finding(r)], expected, m),
                       |Findings(expected)|, |Findings(reported)|;
    ReportingHits(reported, r, expected, m);
    HitsBounded(Findings(expected), Findings(reported), m);
    DimScoreClosed(reported, expected, m);
    DimScoreClosed(reported + [Finding(r)], expected, m);
    F2Moves(h, h', e, n, DimScore(reported, expected, m), DimScore(reported + [Finding(r)], expected, m));
  }

  lemma F2Moves(h: nat, h': nat, e: nat, r: nat, before: real, after: real)
    requires 0 < e && h <= e && h <= r
    requires h' == h || h' == h + 1
    requires before == Ratio(5 * h, 4 * e + r) && after == Ratio(5 * h', 4 * e + (r + 1))
    ensures h' == h + 1 <==> after > before
    ensures h' == h && h > 0 ==> after < before
    ensures h' == h && h == 0 ==> after == before == 0.0
  {
    hide Ratio;
    F2Append(h, e, r);
  }

  // ----- the blend over labelled dimensions

  /** A labelled dimension: its weight and its score. */
  datatype Dim = Dim(weight: real, score: real)

  datatype Label = Unlabelled | Labelled(score: real)

  function DimOf(weight: real, l: Label): seq<Dim> {
    match l
    case Unlabelled => []
    case Labelled(score) => [Dim(weight, score)]
  }

  function LabelledDims(vulnerabilities: Label, supplyChain: Label, secrets: Label): seq<Dim> {
    DimOf(0.5, vulnerabilities) + DimOf(0.3, supplyChain) + DimOf(0.2, secrets)
  }

  ghost function TotalWeight(dims: seq<Dim>): real {
    if dims == [] then 0.0 else TotalWeight(dims[..|dims| - 1]) + dims[|dims| - 1].weight
  }

  ghost function WeightedSum(dims: seq<Dim>): real {
    if dims == [] then 0.0
    else WeightedSum(dims[..|dims| - 1]) + Weighed(dims[|dims| - 1])
  }

  function Weighed(d: Dim): real {
    d.weight * d.score
  }

  ghost predicate Between(lo: real, dims: seq<Dim>, hi: real) {
    forall d :: d in dims ==> d.weight > 0.0 && lo <= d.score <= hi
  }

  ghost predicate Within(lo: real, total: real, sum: real, hi: real) {
    lo * total <= sum <= hi * total
  }

  lemma OneMoreDim(lo: real, hi: real, total: real, sum: real, d: Dim)
    requires Within(lo, total, sum, hi)
    requires d.weight > 0.0 && lo <= d.score <= hi
    ensures Within(lo, total + d.weight, sum + Weighed(d), hi)
  {
    assert lo * d.weight <= d.weight * d.score <= hi * d.weight;
    assert lo * (total + d.weight) == lo * total + lo * d.weight;
    assert hi * (total + d.weight) == hi * total + hi * d.weight;
  }

  lemma {:induction false} WeightedSumBounds(lo: real, dims: seq<Dim>, hi: real)
    requires Between(lo, dims, hi)
    ensures Within(lo, TotalWeight(dims), WeightedSum(dims), hi)
    ensures dims != [] ==> TotalWeight(dims) > 0.0
    ensures TotalWeight(dims) >= 0.0
  {
    if dims == [] {
      assert Within(lo, 0.0, 0.0, hi);
    } else {
      hide Within, Weighed;
      var n := |dims| - 1;
      assert dims[n] in dims && forall d :: d in dims[..n] ==> d in dims;
      WeightedSumBounds(lo, dims[..n], hi);
      OneMoreDim(lo, hi, TotalWeight(dims[..n]), WeightedSum(dims[..n]), dims[n]);
    }
  }

  lemma MeanWithin(lo: real, total: real, sum: real, hi: real)
    requires total > 0.0 && Within(lo, total, sum, hi)
    ensures lo <= sum / total <= hi
  {
    var q := sum / total;
    assert q * total == sum;
    assert (q - lo) * total >= 0.0 by { assert (q - lo) * total == q * total - lo * total; }
    assert (hi - q) * total >= 0.0 by { assert (hi - q) * total == hi * total - q * total; }
    FactorSigns(q - lo, total);
    FactorSigns(hi - q, total);
  }

  lemma FactorSigns(x: real, d: real)
    requires d > 0.0 && x * d >= 0.0
    ensures x >= 0.0
  {
  }

  /** The weighted mean of the labelled scores. */
  ghost function BlendOf(dims: seq<Dim>): real {
    if TotalWeight(dims) == 0.0 then 0.0 else WeightedSum(dims) / TotalWeight(dims)
  }

  /** The two sums of `evaluate` and their quotient. */
  method Blend(dims: seq<Dim>) returns (benchmark: real)
    ensures benchmark == BlendOf(dims)
  {
    var total, sum := 0.0, 0.0;
    for i := 0 to |dims|
      invariant total == TotalWeight(dims[..i]) && sum == WeightedSum(dims[..i])
    {
      assert dims[..i + 1][..i] == dims[..i];
      total := total + dims[i].weight;
      sum := sum + Weighed(dims[i]);
    }
    assert dims[..|dims|] == dims;
    benchmark := if total != 0.0 then sum / total else 0.0;
  }

  /** The blend stays between the smallest and the largest labelled score. */
  lemma BlendBetween(lo: real, dims: seq<Dim>, hi: real)
    requires dims != [] && Between(lo, dims, hi)
    ensures lo <= BlendOf(dims) <= hi
  {
    hide TotalWeight, WeightedSum, Within;
    WeightedSumBounds(lo, dims, hi);
    MeanWithin(lo, TotalWeight(dims), WeightedSum(dims), hi);
  }

  // ----- the labelled branch of the repository evaluation

  /** One dimension of the evidence: what is planted, if the corpus labels it, and what is reported. */
  datatype Evidence<+E, +R> = Evidence(planted: Option<seq<Entry<E>>>, reported: seq<Entry<R>>)

  function LabelOf<E, R>(e: Evidence<E, R>, m: (E, R) -> bool): Label {
    if e.planted.None? then Unlabelled else Labelled(DimScore(e.reported, e.planted.value, m))
  }

  predicate UnitLabel(l: Label) {
    l.Labelled? ==> 0.0 <= l.score <= 1.0
  }

  lemma LabelInRange<E, R>(e: Evidence<E, R>, m: (E, R) -> bool)
    ensures UnitLabel(LabelOf(e, m))
  {
    if e.planted.Some? {
      DimScoreRange(e.reported, e.planted.value, m);
    }
  }

  /** The score of a repository of which `files` files were analysed. */
  ghost function Evaluation(files: int, vulnerabilities: Label, supplyChain: Label, secrets: Label): real {
    if files <= 0 then 0.0 else Clip01(BlendOf(LabelledDims(vulnerabilities, supplyChain, secrets)))
  }

  lemma OneDim(weight: real, l: Label)
    ensures DimOf(weight, l) == if l.Labelled? then [Dim(weight, l.score)] else []
  {
  }

  /** The supply-chain evidence, from the report of the agent. */
  function SupplyEvidence<S>(planted: Option<seq<Entry<S>>>, lower: string -> string, report: Option<Report>):
    Evidence<S, Supply>
  {
    Evidence(planted, Flattened(lower, report))
  }

  /** `evaluate` where some dimension is labelled: every labelled dimension is scored and blended. */
  method EvaluateLabelled<V, W, S, K, L>(files: int,
                                         vulnerabilities: Evidence<V, W>, isVulnerability: (V, W) -> bool,
                                         planted: Option<seq<Entry<S>>>, lower: string -> string,
                                         report: Option<Report>, isSupplyChain: (S, Supply) -> bool,
                                         secrets: Evidence<K, L>, isSecret: (K, L) -> bool)
    returns (score: real)
    requires vulnerabilities.planted.Some? || planted.Some? || secrets.planted.Some?
    ensures score == Evaluation(files, LabelOf(vulnerabilities, isVulnerability),
                                LabelOf(SupplyEvidence(planted, lower, report), isSupplyChain),
                                LabelOf(secrets, isSecret))
  {
    hide DimScore, BlendOf, Clip01, DimOf;
    if files <= 0 {
      return 0.0;
    }
    ghost var v, s, k := LabelOf(vulnerabilities, isVulnerability),
                         LabelOf(SupplyEvidence(planted, lower, report), isSupplyChain), LabelOf(secrets, isSecret);
    OneDim(0.5, v);
    OneDim(0.3, s);
    OneDim(0.2, k);
    var dims: seq<Dim> := [];
    if vulnerabilities.planted.Some? {
      var score := ScoreDimension(vulnerabilities.reported, vulnerabilities.planted.value, isVulnerability);
      dims := dims + [Dim(0.5, score)];
    }
    assert dims == DimOf(0.5, v);
    if planted.Some? {
      var flat := Flatten(lower, report);
      var score := ScoreDimension(flat, planted.value, isSupplyChain);
      dims := dims + [Dim(0.3, score)];
    }
    assert dims == DimOf(0.5, v) + DimOf(0.3, s);
    if secrets.planted.Some? {
      var score := ScoreDimension(secrets.reported, secrets.planted.value, isSecret);
      dims := dims + [Dim(0.2, score)];
    }
    assert dims == LabelledDims(v, s, k);
    var benchmark := Blend(dims);
    score := Clip01(benchmark);
  }

  function PartOf(weight: real, l: Label): real {
    if l.Labelled? then weight * l.score else 0.0
  }

  function WeightOf(weight: real, l: Label): real {
    if l.Labelled? then weight else 0.0
  }

  lemma LabelledSums(v: Label, s: Label, k: Label)
    ensures TotalWeight(LabelledDims(v, s, k)) == WeightOf(0.5, v) + WeightOf(0.3, s) + WeightOf(0.2, k)
    ensures WeightedSum(LabelledDims(v, s, k)) == PartOf(0.5, v) + PartOf(0.3, s) + PartOf(0.2, k)
  {
    var one, two, all := DimOf(0.5, v), DimOf(0.5, v) + DimOf(0.3, s), LabelledDims(v, s, k);
    SumsAppend([], 0.5, v);
    SumsAppend(one, 0.3, s);
    SumsAppend(two, 0.2, k);
    assert [] + one == one;
  }

  lemma SumsAppend(dims: seq<Dim>, weight: real, l: Label)
    ensures TotalWeight(dims + DimOf(weight, l)) == TotalWeight(dims) + WeightOf(weight, l)
    ensures WeightedSum(dims + DimOf(weight, l)) == WeightedSum(dims) + PartOf(weight, l)
  {
    if l.Labelled? {
      assert (dims + DimOf(weight, l))[..|dims|] == dims;
    } else {
      assert dims + DimOf(weight, l) == dims;
    }
  }

  /** The blend of labelled scores in [0, 1] lies in [0, 1], so the clip changes nothing; alone, a
      labelled dimension is the score. */
  lemma EvaluationRange(files: int, v: Label, s: Label, k: Label)
    requires UnitLabel(v) && UnitLabel(s) && UnitLabel(k)
    ensures 0.0 <= Evaluation(files, v, s, k) <= 1.0
    ensures files > 0 ==> Evaluation(files, v, s, k) == BlendOf(LabelledDims(v, s, k))
    ensures files > 0 && v.Labelled? && s.Unlabelled? && k.Unlabelled? ==> Evaluation(files, v, s, k) == v.score
  {
    var dims := LabelledDims(v, s, k);
    hide BlendOf, TotalWeight, WeightedSum;
    if dims == [] {
      NothingBlended();
    } else {
      BlendBetween(0.0, dims, 1.0);
      if v.Labelled? && s.Unlabelled? && k.Unlabelled? {
        BlendBetween(v.score, dims, v.score);
      }
    }
  }

  lemma NothingBlended()
    ensures BlendOf([]) == 0.0
  {
  }

  /** With the same dimensions labelled, two evaluations compare as the sums of their weighted scores. */
  lemma EvaluationOrder(files: int, v: Label, s: Label, k: Label, v': Label, s': Label, k': Label)
    requires files > 0 && (v.Labelled? || s.Labelled? || k.Labelled?)
    requires v.Labelled? == v'.Labelled? && s.Labelled? == s'.Labelled? && k.Labelled? == k'.Labelled?
    requires UnitLabel(v) && UnitLabel(s) && UnitLabel(k) && UnitLabel(v') && UnitLabel(s') && UnitLabel(k')
    ensures Evaluation(files, v, s, k) < Evaluation(files, v', s', k')
            <==> PartOf(0.5, v) + PartOf(0.3, s) + PartOf(0.2, k) < PartOf(0.5, v') + PartOf(0.3, s') + PartOf(0.2, k')
  {
    hide Evaluation, TotalWeight, WeightedSum, LabelledDims, PartOf;
    EvaluationRange(files, v, s, k);
    EvaluationRange(files, v', s', k');
    LabelledSums(v, s, k);
    LabelledSums(v', s', k');
    QuotientsCompare(WeightedSum(LabelledDims(v, s, k)), WeightedSum(LabelledDims(v', s', k')),
                     TotalWeight(LabelledDims(v, s, k)));
  }

  lemma QuotientsCompare(x: real, y: real, d: real)
    requires d > 0.0
    ensures x < y <==> x / d < y / d
  {
  }

  /** One more reported vulnerability, where some are planted: the repository's score rises exactly
      when a planted one without a match wants it, and never rises otherwise, whatever the other
      dimensions are. */
  lemma OneMoreVulnerability<V, W>(files: int, e: Evidence<V, W>, r: W, m: (V, W) -> bool, s: Label, k: Label)
    requires files > 0 && e.planted.Some? && |Findings(e.planted.value)| > 0
    requires UnitLabel(s) && UnitLabel(k)
    ensures var more := e.(reported := e.reported + [Finding(r)]);
            var before, after := Evaluation(files, LabelOf(e, m), s, k), Evaluation(files, LabelOf(more, m), s, k);
            var wanted := Wanted(Findings(e.planted.value), Findings(e.reported), r, m);
            && (wanted <==> after > before)
            && (!wanted ==> (after < before <==> Hits(e.reported, e.planted.value, m) > 0))
  {
    hide Wanted, Evaluation, DimScore, Hits, Findings;
    var more := e.(reported := e.reported + [Finding(r)]);
    ReportingMore(e.reported, r, e.planted.value, m);
    LabelInRange(e, m);
    LabelInRange(more, m);
    EvaluationOrder(files, LabelOf(e, m), s, k, LabelOf(more, m), s, k);
    EvaluationOrder(files, LabelOf(more, m), s, k, LabelOf(e, m), s, k);
  }

  /** One more reported dependency: without a CVE it changes nothing, and with one the score rises
      exactly when a planted finding without a match wants it. */
  lemma OneMoreVulnerableDependency<S>(files: int, planted: seq<Entry<S>>, lower: string -> string, r: Report,
                                       d: Dependency, m: (S, Supply) -> bool, v: Label, k: Label)
    requires files > 0 && |Findings(planted)| > 0
    requires UnitLabel(v) && UnitLabel(k)
    ensures var flat := Flattened(lower, Some(r));
            var e, e' := SupplyEvidence(Some(planted), lower, Some(r)),
                         SupplyEvidence(Some(planted), lower, Some(WithDependency(r, d)));
            var before, after := Evaluation(files, v, LabelOf(e, m), k), Evaluation(files, v, LabelOf(e', m), k);
            && (!d.cve ==> after == before)
            && (d.cve ==>
                  (after > before
                   <==> Wanted(Findings(planted), Findings(flat), Supply("vulnerable_dependency", lower(d.name)), m)))
  {
    hide Wanted, Evaluation, DimScore, Hits, Findings, Flattened;
    OneMoreDependency(lower, r, d);
    if d.cve {
      var flat := Flattened(lower, Some(r));
      var e, e' := SupplyEvidence(Some(planted), lower, Some(r)),
                   SupplyEvidence(Some(planted), lower, Some(WithDependency(r, d)));
      ReportingMore(flat, Supply("vulnerable_dependency", lower(d.name)), planted, m);
      LabelInRange(e, m);
      LabelInRange(e', m);
      EvaluationOrder(files, v, LabelOf(e, m), k, v, LabelOf(e', m), k);
    } else {
      assert Flattened(lower, Some(WithDependency(r, d))) == Flattened(lower, Some(r));
    }
  }

  // ----- the finding quality of the behavioural tracks

  /** Expected findings the detonation could not have shown by itself: the context plane, or all
      of them when nothing was observed. */
  function DeltaFindings<E>(expected: seq<Entry<E>>, observed: bool, context: E -> bool): seq<E> {
    if expected == [] then []
    else
      (if expected[0].Finding? && (context(expected[0].value) || !observed) then [expected[0].value] else [])
      + DeltaFindings(expected[1..], observed, context)
  }

  function Quality<E, R>(wanted: seq<E>, found: seq<R>, m: (E, R) -> bool): real {
    var hits := |Greedy(wanted, found, m)|;
    if wanted == [] || found == [] || hits == 0 then 0.0
    else Clip01(FBeta(Ratio(hits, |found|), Ratio(hits, |wanted|), 1.0))
  }

  /** `finding_quality`: the second run of the same greedy loop. */
  method FindingQuality<E, R>(expected: seq<Entry<E>>, reported: seq<Entry<R>>, observed: bool,
                              context: E -> bool, m: (E, R) -> bool)
    returns (quality: real)
    ensures quality == Quality(DeltaFindings(expected, observed, context), Findings(reported), m)
  {
    var wanted := DeltaFindings(expected, observed, context);
    if wanted == [] {
      return 0.0;
    }
    var found := Findings(reported);
    if found == [] {
      return 0.0;
    }
    var hits := GreedyHits(wanted, found, m);
    if hits == 0 {
      return 0.0;
    }
    return Clip01(FBeta(Ratio(hits, |found|), Ratio(hits, |wanted|), 1.0));
  }

  /** The quality is F1 = 2 hits / (wanted + found): in [0, 1], 1 exactly when the two lists pair
      off completely. */
  lemma QualityIsF1<E, R>(wanted: seq<E>, found: seq<R>, m: (E, R) -> bool)
    requires wanted != [] && found != []
    ensures Quality(wanted, found, m) == Ratio(2 * |Greedy(wanted, found, m)|, |wanted| + |found|)
    ensures 0.0 <= Quality(wanted, found, m) <= 1.0
    ensures Quality(wanted, found, m) == 1.0 <==> |Greedy(wanted, found, m)| == |wanted| == |found|
  {
    var h, e, r := |Greedy(wanted, found, m)|, |wanted|, |found|;
    HitsBounded(wanted, found, m);
    FBetaOfHits(h, e, r, 1);
    F1Range(h, e, r);
  }

  lemma F1Range(h: nat, e: nat, r: nat)
    requires 0 < e && 0 < r && h <= e && h <= r
    ensures 0.0 <= Ratio(2 * h, e + r) <= 1.0
    ensures Ratio(2 * h, e + r) == 1.0 <==> h == e == r
    ensures h == 0 ==> Ratio(2 * h, e + r) == 0.0
  {
    RatioOrder(2 * h, e + r, 1, 1);
    RatioOrder(2 * h, e + r, 0, 1);
    assert Ratio(1, 1) == 1.0 && Ratio(0, 1) == 0.0;
  }

  /** No pairing of the wanted with the found findings could have scored more than twice as much. */
  lemma QualityWithinTwice<E, R>(p: map<nat, nat>, wanted: seq<E>, found: seq<R>, m: (E, R) -> bool)
    requires wanted != [] && found != []
    requires IsMatching(p, wanted, found, m)
    ensures Ratio(2 * |p|, |wanted| + |found|) <= 2.0 * Quality(wanted, found, m)
  {
    HalfOfMaximum(p, wanted, found, m);
    QualityIsF1(wanted, found, m);
    var h, n := |Greedy(wanted, found, m)|, |wanted| + |found|;
    TwiceRatio(2 * |p|, 2 * h, n);
  }

  lemma TwiceRatio(x: nat, y: nat, n: nat)
    requires n > 0 && x <= 2 * y
    ensures Ratio(x, n) <= 2.0 * Ratio(y, n)
  {
    RatioOrder(2 * y, n, x, n);
    assert Ratio(2 * y, n) >= Ratio(x, n) by {
      assert x * n <= 2 * y * n;
    }
  }
}
