/**
 * `evaluate_rag_system`: runs every (query, reference) pair of
 * `zip(queries, references)` through the system under test, adds up the
 * BLEU and hallucination scores, and divides both totals by the number of
 * QUERIES. The query function, BLEU and the hallucination scorer are
 * parameters.
 */
module RagEvaluation {
  import opened Wrappers
  import opened Hallucination

  /** The dict `evaluate_rag_system` returns. */
  datatype Averages = Averages(averageBleuScore: real, averageHallucinationScore: real)

  /** `total_bleu_score` and `total_hallucination_score`. */
  datatype Totals = Totals(bleu: real, hallucination: real)

  /** Why the evaluation raises instead of returning; both are a ZeroDivisionError in Python. */
  datatype EvalError =
    | ScoringFailed(cause: ScoreError)  // the hallucination scorer raised for some pair
    | NoQueries                         // `num_samples` is 0

  /** The number of pairs `zip(queries, references)` yields. */
  function PairCount(queries: seq<string>, references: seq<string>): (n: nat)
    ensures n <= |queries| && n <= |references|
    ensures n == |queries| || n == |references|
  {
    if |queries| <= |references| then |queries| else |references|
  }

  /**
   * The totals after the first `n` pairs, or the error of the first pair
   * whose scoring raised; summing itself never fails.
   */
  function Accumulate(queryFunction: string -> string, bleu: (string, string) -> real,
                      hallucination: (string, string) -> Result<real, ScoreError>,
                      queries: seq<string>, references: seq<string>, n: nat): (r: Result<Totals, EvalError>)
    requires n <= |queries| && n <= |references|
    ensures r.Failure? ==> r.error.ScoringFailed?
  {
    if n == 0 then Success(Totals(0.0, 0.0))
    else
      match Accumulate(queryFunction, bleu, hallucination, queries, references, n - 1)
      case Failure(e) => Failure(e)
      case Success(t) =>
        var generated := queryFunction(queries[n - 1]);
        match hallucination(generated, references[n - 1])
        case Failure(e) => Failure(ScoringFailed(e))
        case Success(h) => Success(Totals(t.bleu + bleu(generated, references[n - 1]), t.hallucination + h))
  }

  /**
   * What `evaluate_rag_system` returns or raises: the division by
   * `num_samples` raises exactly when there are no queries.
   */
  function Evaluate(queryFunction: string -> string, bleu: (string, string) -> real,
                    hallucination: (string, string) -> Result<real, ScoreError>,
                    queries: seq<string>, references: seq<string>): (r: Result<Averages, EvalError>)
    ensures r == Failure(NoQueries) <==> |queries| == 0
  {
    match Accumulate(queryFunction, bleu, hallucination, queries, references, PairCount(queries, references))
    case Failure(e) => Failure(e)
    case Success(t) =>
      if |queries| == 0 then Failure(NoQueries)
      else Success(Averages(t.bleu / |queries| as real, t.hallucination / |queries| as real))
  }

  /** Once a pair's scoring has raised, the run stays failed with that error. */
  lemma {:induction false} FailurePersists(queryFunction: string -> string, bleu: (string, string) -> real,
                                           hallucination: (string, string) -> Result<real, ScoreError>,
                                           queries: seq<string>, references: seq<string>, i: nat, n: nat)
    requires i <= n <= |queries| && n <= |references|
    requires Accumulate(queryFunction, bleu, hallucination, queries, references, i).Failure?
    ensures Accumulate(queryFunction, bleu, hallucination, queries, references, n)
         == Accumulate(queryFunction, bleu, hallucination, queries, references, i)
    decreases n - i
  {
    if i < n {
      FailurePersists(queryFunction, bleu, hallucination, queries, references, i, n - 1);
    }
  }

  /** The averaging loop of `evaluate_rag_system`. */
  method EvaluateRagSystem(queryFunction: string -> string, bleu: (string, string) -> real,
                           hallucination: (string, string) -> Result<real, ScoreError>,
                           queries: seq<string>, references: seq<string>) returns (r: Result<Averages, EvalError>)
    ensures r == Evaluate(queryFunction, bleu, hallucination, queries, references)
  {
    var totalBleuScore := 0.0;
    var totalHallucinationScore := 0.0;
    var numSamples := |queries|;
    var pairs := PairCount(queries, references);
    for i := 0 to pairs
      invariant Accumulate(queryFunction, bleu, hallucination, queries, references, i)
             == Success(Totals(totalBleuScore, totalHallucinationScore))
    {
      var generatedAnswer := queryFunction(queries[i]);
      var bleuScoreValue := bleu(generatedAnswer, references[i]);
      var hallucinationScoreValue := hallucination(generatedAnswer, references[i]);
      if hallucinationScoreValue.Failure? {
        FailurePersists(queryFunction, bleu, hallucination, queries, references, i + 1, pairs);
        return Failure(ScoringFailed(hallucinationScoreValue.error));
      }
      totalBleuScore := totalBleuScore + bleuScoreValue;
      totalHallucinationScore := totalHallucinationScore + hallucinationScoreValue.value;
    }
    if numSamples == 0 {
      return Failure(NoQueries);
    }
    r := Success(Averages(totalBleuScore / numSamples as real, totalHallucinationScore / numSamples as real));
  }

  /** The scorer raises for none of the first `n` pairs. */
  ghost predicate ScoredUpTo(queryFunction: string -> string, hallucination: (string, string) -> Result<real, ScoreError>,
                             queries: seq<string>, references: seq<string>, n: nat)
    requires n <= |queries| && n <= |references|
  {
    forall i :: 0 <= i < n ==> hallucination(queryFunction(queries[i]), references[i]).Success?
  }

  lemma {:induction false} AccumulateSucceedsIff(queryFunction: string -> string, bleu: (string, string) -> real,
                                                 hallucination: (string, string) -> Result<real, ScoreError>,
                                                 queries: seq<string>, references: seq<string>, n: nat)
    requires n <= |queries| && n <= |references|
    ensures Accumulate(queryFunction, bleu, hallucination, queries, references, n).Success?
        <==> ScoredUpTo(queryFunction, hallucination, queries, references, n)
  {
    if n > 0 {
      AccumulateSucceedsIff(queryFunction, bleu, hallucination, queries, references, n - 1);
    }
  }

  /**
   * The evaluation returns averages exactly when there is at least one query
   * and the scorer raises for none of the zipped pairs.
   */
  lemma EvaluateSucceedsIff(queryFunction: string -> string, bleu: (string, string) -> real,
                            hallucination: (string, string) -> Result<real, ScoreError>,
                            queries: seq<string>, references: seq<string>)
    ensures Evaluate(queryFunction, bleu, hallucination, queries, references).Success?
        <==> |queries| > 0 && ScoredUpTo(queryFunction, hallucination, queries, references, PairCount(queries, references))
  {
    AccumulateSucceedsIff(queryFunction, bleu, hallucination, queries, references, PairCount(queries, references));
  }

  /** Pairs are scored in order: the error reported is that of the first pair whose scoring raised. */
  lemma FirstFailureReported(queryFunction: string -> string, bleu: (string, string) -> real,
                             hallucination: (string, string) -> Result<real, ScoreError>,
                             queries: seq<string>, references: seq<string>, i: nat)
    requires i < PairCount(queries, references)
    requires ScoredUpTo(queryFunction, hallucination, queries, references, i)
    requires hallucination(queryFunction(queries[i]), references[i]).Failure?
    ensures Evaluate(queryFunction, bleu, hallucination, queries, references)
         == Failure(ScoringFailed(hallucination(queryFunction(queries[i]), references[i]).error))
  {
    AccumulateSucceedsIff(queryFunction, bleu, hallucination, queries, references, i);
    FailurePersists(queryFunction, bleu, hallucination, queries, references, i + 1, PairCount(queries, references));
  }

  /** Every zipped pair's BLEU lies in [0, bleuMax] and its hallucination score succeeds within [0, hallucinationMax]. */
  ghost predicate ScoresWithin(queryFunction: string -> string, bleu: (string, string) -> real,
                               hallucination: (string, string) -> Result<real, ScoreError>,
                               queries: seq<string>, references: seq<string>, bleuMax: real, hallucinationMax: real)
  {
    forall i :: 0 <= i < |queries| && i < |references| ==>
      var generated := queryFunction(queries[i]);
      0.0 <= bleu(generated, references[i]) <= bleuMax
      && hallucination(generated, references[i]).Success?
      && 0.0 <= hallucination(generated, references[i]).value <= hallucinationMax
  }

  lemma {:induction false} AccumulateWithin(queryFunction: string -> string, bleu: (string, string) -> real,
                                            hallucination: (string, string) -> Result<real, ScoreError>,
                                            queries: seq<string>, references: seq<string>, n: nat,
                                            bleuMax: real, hallucinationMax: real)
    requires n <= |queries| && n <= |references|
    requires ScoresWithin(queryFunction, bleu, hallucination, queries, references, bleuMax, hallucinationMax)
    ensures var t := Accumulate(queryFunction, bleu, hallucination, queries, references, n);
      t.Success? && 0.0 <= t.value.bleu <= n as real * bleuMax
      && 0.0 <= t.value.hallucination <= n as real * hallucinationMax
  {
    if n > 0 {
      AccumulateWithin(queryFunction, bleu, hallucination, queries, references, n - 1, bleuMax, hallucinationMax);
      assert (n - 1) as real * bleuMax + bleuMax == n as real * bleuMax;
      assert (n - 1) as real * hallucinationMax + hallucinationMax == n as real * hallucinationMax;
    }
  }

  lemma AverageBound(total: real, pairs: real, samples: real, max: real)
    requires 0.0 <= pairs <= samples && samples > 0.0 && max >= 0.0
    requires 0.0 <= total <= pairs * max
    ensures 0.0 <= total / samples <= max
  {
    assert pairs * max <= samples * max;
  }

  /**
   * When every pair's scores lie in [0, max], so do both averages: the
   * divisor `len(queries)` is never smaller than the number of pairs.
   */
  lemma AveragesWithin(queryFunction: string -> string, bleu: (string, string) -> real,
                       hallucination: (string, string) -> Result<real, ScoreError>,
                       queries: seq<string>, references: seq<string>, bleuMax: real, hallucinationMax: real)
    requires |queries| > 0 && bleuMax >= 0.0 && hallucinationMax >= 0.0
    requires ScoresWithin(queryFunction, bleu, hallucination, queries, references, bleuMax, hallucinationMax)
    ensures var r := Evaluate(queryFunction, bleu, hallucination, queries, references);
      r.Success? && 0.0 <= r.value.averageBleuScore <= bleuMax
      && 0.0 <= r.value.averageHallucinationScore <= hallucinationMax
  {
    var m := PairCount(queries, references);
    AccumulateWithin(queryFunction, bleu, hallucination, queries, references, m, bleuMax, hallucinationMax);
    var t := Accumulate(queryFunction, bleu, hallucination, queries, references, m).value;
    AverageBound(t.bleu, m as real, |queries| as real, bleuMax);
    AverageBound(t.hallucination, m as real, |queries| as real, hallucinationMax);
  }

  /** Every zipped pair scores BLEU `b` and hallucination `c`. */
  ghost predicate ConstantScores(queryFunction: string -> string, bleu: (string, string) -> real,
                                 hallucination: (string, string) -> Result<real, ScoreError>,
                                 queries: seq<string>, references: seq<string>, b: real, c: real)
  {
    forall i :: 0 <= i < |queries| && i < |references| ==>
      bleu(queryFunction(queries[i]), references[i]) == b
      && hallucination(queryFunction(queries[i]), references[i]) == Success(c)
  }

  lemma {:induction false} AccumulateConstant(queryFunction: string -> string, bleu: (string, string) -> real,
                                              hallucination: (string, string) -> Result<real, ScoreError>,
                                              queries: seq<string>, references: seq<string>, n: nat, b: real, c: real)
    requires n <= |queries| && n <= |references|
    requires ConstantScores(queryFunction, bleu, hallucination, queries, references, b, c)
    ensures var t := Accumulate(queryFunction, bleu, hallucination, queries, references, n);
      t.Success? && t.value == Totals(n as real * b, n as real * c)
  {
    if n > 0 {
      AccumulateConstant(queryFunction, bleu, hallucination, queries, references, n - 1, b, c);
      var generated := queryFunction(queries[n - 1]);
      assert bleu(generated, references[n - 1]) == b && hallucination(generated, references[n - 1]) == Success(c);
      assert (n - 1) as real * b + b == n as real * b;
      assert (n - 1) as real * c + c == n as real * c;
    }
  }

  /**
   * The totals are divided by the number of queries, not by the number of
   * pairs: with constant per-pair scores, each average is that score scaled
   * by pairs / queries, so it is the score itself only when there are at
   * least as many references as queries.
   */
  lemma AveragesOfConstantScores(queryFunction: string -> string, bleu: (string, string) -> real,
                                 hallucination: (string, string) -> Result<real, ScoreError>,
                                 queries: seq<string>, references: seq<string>, b: real, c: real)
    requires |queries| > 0
    requires ConstantScores(queryFunction, bleu, hallucination, queries, references, b, c)
    ensures var r, m, n := Evaluate(queryFunction, bleu, hallucination, queries, references),
                           PairCount(queries, references) as real, |queries| as real;
      r.Success? && r.value == Averages(m * b / n, m * c / n)
    ensures |references| >= |queries| ==>
      Evaluate(queryFunction, bleu, hallucination, queries, references).value == Averages(b, c)
  {
    var m := PairCount(queries, references);
    AccumulateConstant(queryFunction, bleu, hallucination, queries, references, m, b, c);
    var n := |queries| as real;
    if |references| >= |queries| {
      assert m as real == n;
      assert n * b / n == b && n * c / n == c;
    }
  }

  /**
   * Two queries but one reference: only one pair is scored, yet the totals
   * are halved, so a pair scoring 100 BLEU and 1.0 hallucination reports
   * averages of 50 BLEU and 0.5 hallucination.
   */
  lemma FewerReferencesHalveAverages(queryFunction: string -> string, bleu: (string, string) -> real,
                                     hallucination: (string, string) -> Result<real, ScoreError>,
                                     q1: string, q2: string, ref: string)
    requires bleu(queryFunction(q1), ref) == 100.0 && hallucination(queryFunction(q1), ref) == Success(1.0)
    ensures var r := Evaluate(queryFunction, bleu, hallucination, [q1, q2], [ref]);
      r.Success? && r.value == Averages(50.0, 0.5)
  {
    AveragesOfConstantScores(queryFunction, bleu, hallucination, [q1, q2], [ref], 100.0, 1.0);
  }

  /** The hallucination scorer `evaluate_rag_system` calls, with its models as parameters. */
  function ModelScorer(extract: string -> seq<string>, nli: string -> NliResult): (string, string) -> Result<real, ScoreError> {
    (generated, reference) => CalculateHallucinationScore(extract, nli, generated, reference)
  }

  /**
   * With the real scorer, a calibrated NLI model and BLEU in [0, 100], the
   * evaluation of a non-empty query list returns an average BLEU in [0, 100]
   * and an average hallucination score in [0, 1], provided every generated
   * answer has at least one entity; otherwise it raises.
   */
  lemma ModelAveragesWithin(queryFunction: string -> string, bleu: (string, string) -> real,
                            extract: string -> seq<string>, nli: string -> NliResult,
                            queries: seq<string>, references: seq<string>)
    requires |queries| > 0
    requires forall p :: Calibrated(nli(p))
    requires forall g, r :: 0.0 <= bleu(g, r) <= 100.0
    ensures var result := Evaluate(queryFunction, bleu, ModelScorer(extract, nli), queries, references);
      result.Success? <==> forall i :: 0 <= i < PairCount(queries, references) ==> ToSet(extract(queryFunction(queries[i]))) != {}
    ensures var result := Evaluate(queryFunction, bleu, ModelScorer(extract, nli), queries, references);
      result.Success? ==> 0.0 <= result.value.averageBleuScore <= 100.0 && 0.0 <= result.value.averageHallucinationScore <= 1.0
  {
    var scorer := ModelScorer(extract, nli);
    EvaluateSucceedsIff(queryFunction, bleu, scorer, queries, references);
    if Evaluate(queryFunction, bleu, scorer, queries, references).Success? {
      forall i | 0 <= i < |queries| && i < |references|
        ensures var generated := queryFunction(queries[i]);
          0.0 <= bleu(generated, references[i]) <= 100.0
          && scorer(generated, references[i]).Success?
          && 0.0 <= scorer(generated, references[i]).value <= 1.0
      {
        var generated := queryFunction(queries[i]);
        ScoreInUnitInterval(extract, nli, generated, references[i]);
      }
      AveragesWithin(queryFunction, bleu, scorer, queries, references, 100.0, 1.0);
    }
  }
}
