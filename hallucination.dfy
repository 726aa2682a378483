/**
 * The hallucination score of `calculate_hallucination_score`: the share of
 * entities in the generated text that the reference does not mention,
 * blended with the NLI model's entailment confidence. Entity extraction and
 * NLI inference are external models and appear here as function parameters.
 */
module Hallucination {
  import opened Wrappers

  /** The first (best) element of the NLI pipeline's output: its `label` (here `predicted`) and its `score`. */
  datatype NliResult = NliResult(predicted: string, score: real)

  /**
   * Why the score cannot be computed: no entity was found in the generated
   * text, so the overlap ratio divides by zero (a ZeroDivisionError).
   */
  datatype ScoreError = NoGeneratedEntities

  const EntailmentLabel := "ENTAILMENT"

  /** Python's `set(entities)`. */
  function ToSet(entities: seq<string>): set<string> {
    set e | e in entities
  }

  lemma {:induction false} SubsetCardinality(a: set<string>, b: set<string>)
    requires a <= b
    ensures |a| <= |b|
    ensures |a| == |b| ==> a == b
  {
    if a != {} {
      var x :| x in a;
      SubsetCardinality(a - {x}, b - {x});
    } else if |b| == 0 {
      assert b == {};
    }
  }

  lemma RatioBounds(c: real, n: real)
    requires n > 0.0 && 0.0 <= c <= n
    ensures 0.0 <= c / n <= 1.0
    ensures c / n == 1.0 <==> c == n
    ensures c / n == 0.0 <==> c == 0.0
  {
  }

  lemma RatioMonotone(a: real, b: real, n: real)
    requires n > 0.0 && a <= b
    ensures a / n <= b / n
  {
  }

  /**
   * `1 - len(common) / len(set(gen))`: the share of distinct generated
   * entities that the reference does not contain. It lies in [0, 1], is 0
   * exactly when every generated entity is in the reference and 1 exactly
   * when none is.
   */
  function EntityDivergence(gen: seq<string>, ref: seq<string>): (d: real)
    requires |ToSet(gen)| > 0
    ensures 0.0 <= d <= 1.0
    ensures d == 0.0 <==> ToSet(gen) <= ToSet(ref)
    ensures d == 1.0 <==> ToSet(gen) !! ToSet(ref)
  {
    var g := ToSet(gen);
    var common := g * ToSet(ref);
    SubsetCardinality(common, g);
    assert g <= ToSet(ref) <==> common == g;
    assert g !! ToSet(ref) <==> common == {} by {
      if common != {} {
        var x :| x in common;
        assert x in g && x in ToSet(ref);
      }
      if !(g !! ToSet(ref)) {
        var x :| x in g && x in ToSet(ref);
        assert x in common;
      }
    }
    assert |common| == 0 <==> common == {};
    RatioBounds(|common| as real, |g| as real);
    1.0 - (|common| as real) / (|g| as real)
  }

  /**
   * Duplicates and order do not matter: two entity lists with the same
   * entities, for the generated and for the reference text alike, give the
   * same divergence.
   */
  lemma DivergenceIgnoresDuplicates(gen1: seq<string>, gen2: seq<string>, ref1: seq<string>, ref2: seq<string>)
    requires |ToSet(gen1)| > 0 && ToSet(gen1) == ToSet(gen2) && ToSet(ref1) == ToSet(ref2)
    ensures EntityDivergence(gen1, ref1) == EntityDivergence(gen2, ref2)
  {
  }

  /** Repeating an entity already in a list does not change that list's entity set. */
  lemma RepeatKeepsEntities(entities: seq<string>, i: nat)
    requires i < |entities|
    ensures ToSet(entities + [entities[i]]) == ToSet(entities)
  {
  }

  /** Adding entities to the reference never makes the divergence larger. */
  lemma DivergenceAntitoneInReference(gen: seq<string>, ref1: seq<string>, ref2: seq<string>)
    requires |ToSet(gen)| > 0 && ToSet(ref1) <= ToSet(ref2)
    ensures EntityDivergence(gen, ref2) <= EntityDivergence(gen, ref1)
  {
    var g := ToSet(gen);
    SubsetCardinality(g * ToSet(ref1), g * ToSet(ref2));
    var n := |g| as real;
    var c1, c2 := |g * ToSet(ref1)| as real, |g * ToSet(ref2)| as real;
    RatioMonotone(c1, c2, n);
  }

  /**
   * The NLI contribution: the confidence when the label is ENTAILMENT,
   * otherwise 0; so it lies in [0, 1] whenever the confidence does.
   */
  function EntailmentScore(nli: NliResult): (e: real)
    ensures e != 0.0 ==> nli.predicted == EntailmentLabel && e == nli.score
    ensures Calibrated(nli) ==> 0.0 <= e <= 1.0
  {
    if nli.predicted == EntailmentLabel then nli.score else 0.0
  }

  /**
   * `(entity_score + (1 - entailment_score)) / 2`: for inputs in [0, 1] it
   * lies in [0, 1], is 0 only for no divergence and full entailment, and 1
   * only for full divergence and no entailment.
   */
  function Combine(divergence: real, entailment: real): (r: real)
    ensures 0.0 <= divergence <= 1.0 && 0.0 <= entailment <= 1.0 ==>
      0.0 <= r <= 1.0
      && (r == 0.0 <==> divergence == 0.0 && entailment == 1.0)
      && (r == 1.0 <==> divergence == 1.0 && entailment == 0.0)
  {
    (divergence + (1.0 - entailment)) / 2.0
  }

  /**
   * The text given to the NLI pipeline: the reference text right after the
   * 9-character "premise: " tag, and the generated text at the end, after
   * the 13-character " hypothesis: " tag.
   */
  function NliPrompt(reference: string, generated: string): (p: string)
    ensures |p| == |reference| + |generated| + 22
    ensures p[9..9 + |reference|] == reference && p[|p| - |generated|..] == generated
  {
    "premise: " + reference + " hypothesis: " + generated
  }

  /** A confidence as the NLI model reports it: in [0, 1]. */
  predicate Calibrated(nli: NliResult) {
    0.0 <= nli.score <= 1.0
  }

  /**
   * `calculate_hallucination_score(generated_text, reference_text)`, with the
   * entity extractor and the NLI model as parameters. It fails exactly when
   * the extractor finds no entity in the generated text.
   */
  function CalculateHallucinationScore(extract: string -> seq<string>, nli: string -> NliResult,
                                       generatedText: string, referenceText: string): (r: Result<real, ScoreError>)
    ensures r.Failure? <==> ToSet(extract(generatedText)) == {}
  {
    var genEntities := extract(generatedText);
    var refEntities := extract(referenceText);
    if |ToSet(genEntities)| == 0 then Failure(NoGeneratedEntities)
    else
      var entityScore := EntityDivergence(genEntities, refEntities);
      var entailmentScore := EntailmentScore(nli(NliPrompt(referenceText, generatedText)));
      Success(Combine(entityScore, entailmentScore))
  }

  /** With a calibrated NLI confidence the score lies in [0, 1]. */
  lemma ScoreInUnitInterval(extract: string -> seq<string>, nli: string -> NliResult, generatedText: string, referenceText: string)
    requires Calibrated(nli(NliPrompt(referenceText, generatedText)))
    ensures var r := CalculateHallucinationScore(extract, nli, generatedText, referenceText);
      r.Success? ==> 0.0 <= r.value <= 1.0
  {
  }

  /**
   * The score is 0 exactly when every generated entity is in the reference
   * and the NLI model says ENTAILMENT with confidence 1.
   */
  lemma ScoreZeroIff(extract: string -> seq<string>, nli: string -> NliResult, generatedText: string, referenceText: string)
    requires Calibrated(nli(NliPrompt(referenceText, generatedText)))
    requires ToSet(extract(generatedText)) != {}
    ensures var r := CalculateHallucinationScore(extract, nli, generatedText, referenceText);
      var result := nli(NliPrompt(referenceText, generatedText));
      r.value == 0.0 <==>
        ToSet(extract(generatedText)) <= ToSet(extract(referenceText)) && result.predicted == EntailmentLabel && result.score == 1.0
  {
  }

  /**
   * The score is 1 exactly when no generated entity is in the reference and
   * the NLI model gives no entailment support (another label, or confidence 0).
   */
  lemma ScoreOneIff(extract: string -> seq<string>, nli: string -> NliResult, generatedText: string, referenceText: string)
    requires Calibrated(nli(NliPrompt(referenceText, generatedText)))
    requires ToSet(extract(generatedText)) != {}
    ensures var r := CalculateHallucinationScore(extract, nli, generatedText, referenceText);
      var result := nli(NliPrompt(referenceText, generatedText));
      r.value == 1.0 <==>
        ToSet(extract(generatedText)) !! ToSet(extract(referenceText)) && (result.predicted != EntailmentLabel || result.score == 0.0)
  {
  }
}
