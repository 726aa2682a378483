# Evaluation harness of Contract-Advisor-RAG, modelled in Dafny

This project models the evaluator of a retrieval-augmented question-answering
system for contracts (`src/evaluator.py`). It covers three parts:

- **Transcript parser** (`load_evaluation_data`). It splits the document text
  on newlines and strips each line. A two-state machine then turns lines
  starting with `Q` or `A` (and holding a `:`) into question/answer records.
- **Hallucination score** (`calculate_hallucination_score`). It computes the
  entity divergence `1 - |set(gen) ∩ set(ref)| / |set(gen)|` and the NLI
  entailment score, then blends them as `(divergence + (1 - entailment)) / 2`.
- **Aggregation** (`evaluate_rag_system`). It sums BLEU and hallucination
  scores over `zip(queries, references)` and divides both totals by
  `len(queries)`.

Files, one module each:

- `wrappers.dfy`: `Option` and `Result`.
- `text.dfy`: Python's `str.strip()`, `str.split('\n')` and
  `str.split(':', 1)[1]`, with whitespace as `str.isspace()` defines it.
- `transcript_parser.dfy`: the parser. `Run`/`Parse` are the specification
  functions. `LoadEvaluationData` is the loop, proved equal to `Parse`.
- `hallucination.dfy`: the score arithmetic over finite sets and `real`.
- `rag_evaluation.dfy`: the aggregation. `Accumulate`/`Evaluate` are the
  specification functions. `EvaluateRagSystem` is the loop, proved equal to
  `Evaluate`.

The two ZeroDivisionErrors the code can raise (src/evaluator.py:64 and
:93-94) are modelled as `Result` failures, not as preconditions. Behaviours
of the code worth noting:

- A `Q` line that arrives while a question is pending appends the pending
  record WITHOUT an `"answer"` key, so `QAPair.answer` is an `Option`. It
  does not discard the pending question.
- `if current_question:` is true for every pending dict, because the dict
  always holds a `"question"` key. So `"Q:"` starts a question with empty
  text, and `"Q:\nA:"` yields a pair whose question and answer are both
  empty.
- Any stripped line whose first character is `Q` and that contains a `:`
  is a question line, for example `"Question 3: ..."`. Likewise for `A`.
- When the extractor finds no entity in the generated text, the code raises
  ZeroDivisionError. It does not return a divergence of 0. The model returns
  `Failure(NoGeneratedEntities)`.
- The averages divide by the number of queries, not by the number of scored
  pairs. An empty query list raises ZeroDivisionError, which the model
  returns as `Failure(NoQueries)`. A scorer error anywhere aborts the whole
  run, and the model reports the first one in pair order.

## Model

| member | source | states |
|---|---|---|
| Text.Strip | src/evaluator.py:37 | `strip()` leaves no whitespace at either end and never lengthens the line |
| Text.StripKeepsMiddle | src/evaluator.py:37 | what `strip()` keeps is a contiguous slice of the line, with only whitespace before and after it |
| Text.StripSurrounded | src/evaluator.py:37 | `strip()` of whitespace + stripped text + whitespace is exactly that text; so it removes the surrounding whitespace and nothing else |
| Text.StripIdempotent | src/evaluator.py:37 | stripping twice is stripping once |
| Text.Split | src/evaluator.py:34 | `split('\n')` yields at least one piece, no piece contains a newline, and joining the pieces with newlines gives the text back |
| Text.SplitJoin | src/evaluator.py:34 | `split('\n')` undoes `'\n'.join` (the join that builds the document text) when no piece holds a newline |
| Text.SplitAtSeparator | src/evaluator.py:34 | the text before the first newline is the first line, and the rest is split on its own |
| Text.AfterFirst | src/evaluator.py:41 | `split(':', 1)[1]` is strictly shorter than the line; `AfterFirstSplits` and `AfterFirstOf` pin down which suffix it is |
| Text.AfterFirstSplits | src/evaluator.py:41 | `split(':', 1)[1]` is the suffix after a `:` that has no `:` before it |
| Text.AfterFirstOf | src/evaluator.py:41 | for `p + ':' + q` with no `:` in `p`, the content is exactly `q`, so later `:` characters stay in the content |
| TranscriptParser.Content | src/evaluator.py:41-43 | the content of a marked line is stripped and shorter than the line (it never includes the marker or the first `:`) |
| TranscriptParser.Classify | src/evaluator.py:37-43 | the content of a question or answer line is stripped and shorter than the raw line; `ClassifyMeaning` gives both directions of when a line is a question or answer line |
| TranscriptParser.ClassifyMeaning | src/evaluator.py:37-43 | a line is a question line iff its stripped form starts with `Q` and contains `:`, an answer line iff it starts with `A` and contains `:`; the content is stripped |
| TranscriptParser.LineContent | src/evaluator.py:41-43 | a marked line's content is the stripped text after its first `:` only |
| TranscriptParser.Step | src/evaluator.py:38-45 | one line never removes or rewrites a pair already emitted and appends at most one pair; `QuestionLineRule`, `AnswerLineRule` and `OtherLineIgnored` give each case |
| TranscriptParser.LoadEvaluationData | src/evaluator.py:31-46 | the parsing loop returns exactly the pairs of the state machine `Parse` over the lines of the text |
| TranscriptParser.QuestionLineRule | src/evaluator.py:38-41 | a question line makes its content the pending question; a question already pending is appended first, with no answer |
| TranscriptParser.AnswerLineRule | src/evaluator.py:42-45 | an answer line with a question pending appends the answered pair at once and clears the pending question; with none pending it changes nothing |
| TranscriptParser.OtherLineIgnored | src/evaluator.py:36-45 | a line that is neither a question nor an answer line, inserted anywhere, changes neither the output nor the pending state |
| TranscriptParser.RunExtendsPairs | src/evaluator.py:36-45 | the pairs after any prefix of the lines are a prefix of the final pairs, so output order follows line order |
| TranscriptParser.PairsAtMostQuestionLines | src/evaluator.py:38-45 | emitted pairs plus the pending question never outnumber the question lines |
| TranscriptParser.ParseStripped | src/evaluator.py:37-43 | every question and answer produced has no surrounding whitespace |
| TranscriptParser.ParseEmptyInput | src/evaluator.py:33-46 | empty input yields no pairs |
| TranscriptParser.ParseLoneQuestion | src/evaluator.py:35-46 | any input made of one question line (of any form the parser accepts, e.g. `"Question 1: x"` or with surrounding whitespace) yields no pairs: a question pending at the end is dropped |
| TranscriptParser.ParseWhatExample | src/evaluator.py:35-46 | `"Q: What?"` yields no pairs |
| TranscriptParser.ParseSinglePair | src/evaluator.py:36-46 | a question line, an answer line and a final newline yield exactly the one answered pair |
| TranscriptParser.ParseQuestionWhilePending | src/evaluator.py:38-45 | two question lines and then an answer line yield the first question without an answer, then the second question with the answer |
| TranscriptParser.ClassifyBareMarker | src/evaluator.py:38-43 | `"Q:"` and `"A:"` are question and answer lines with empty content |
| TranscriptParser.ParseEmptyFields | src/evaluator.py:38-45 | `"Q:\nA:\n"` yields one pair with an empty question and an empty answer |
| Hallucination.EntityDivergence | src/evaluator.py:63-64 | with a non-empty generated entity set, divergence is in [0, 1]; it is 0 iff every generated entity is in the reference and 1 iff none is |
| Hallucination.DivergenceIgnoresDuplicates | src/evaluator.py:63-64 | entity lists with the same entities, for the generated and the reference text independently, give the same divergence: duplicates and order in either list do not matter |
| Hallucination.RepeatKeepsEntities | src/evaluator.py:63 | repeating an entity already in a list leaves `set(...)` of that list unchanged |
| Hallucination.DivergenceAntitoneInReference | src/evaluator.py:63-64 | more reference entities never increase the divergence |
| Hallucination.EntailmentScore | src/evaluator.py:68 | the entailment score is nonzero only for the ENTAILMENT label, where it is the confidence, and lies in [0, 1] for a confidence in [0, 1] |
| Hallucination.NliPrompt | src/evaluator.py:67 | the NLI input holds the reference text right after `"premise: "` and ends with the generated text after `" hypothesis: "`, 22 characters of tags in all |
| Hallucination.Combine | src/evaluator.py:71 | for divergence and entailment in [0, 1], the blend lies in [0, 1], is 0 iff divergence is 0 and entailment 1, and is 1 iff divergence is 1 and entailment 0 |
| Hallucination.CalculateHallucinationScore | src/evaluator.py:57-72 | the score fails (ZeroDivisionError) exactly when no entity is extracted from the generated text |
| Hallucination.ScoreInUnitInterval | src/evaluator.py:63-71 | with an NLI confidence in [0, 1], the combined score is in [0, 1] |
| Hallucination.ScoreZeroIff | src/evaluator.py:63-71 | the score is 0 iff all generated entities are in the reference and the label is ENTAILMENT with confidence 1 |
| Hallucination.ScoreOneIff | src/evaluator.py:63-71 | the score is 1 iff no generated entity is in the reference and there is no entailment support (another label, or confidence 0) |
| RagEvaluation.PairCount | src/evaluator.py:85 | `zip` yields `min(len(queries), len(references))` pairs |
| RagEvaluation.Accumulate | src/evaluator.py:85-91 | the totals over the first `n` pairs, or the first scorer error; a failure is always a scorer error. `AccumulateSucceedsIff` and `FirstFailureReported` give when and which |
| RagEvaluation.Evaluate | src/evaluator.py:83-99 | the run raises the `num_samples` ZeroDivisionError exactly when there are no queries; `EvaluateSucceedsIff`, `AveragesWithin` and `AveragesOfConstantScores` give the rest |
| RagEvaluation.EvaluateRagSystem | src/evaluator.py:80-99 | the accumulation loop returns exactly `Evaluate`: the totals over the zipped pairs divided by `len(queries)`, or the first error |
| RagEvaluation.AccumulateSucceedsIff | src/evaluator.py:85-91 | accumulating the first `n` pairs succeeds iff the scorer raises for none of them |
| RagEvaluation.EvaluateSucceedsIff | src/evaluator.py:83-94 | averages are returned iff there is at least one query and no zipped pair's scoring raises |
| RagEvaluation.FirstFailureReported | src/evaluator.py:85-91 | pairs are scored in order: the reported error is the first failing pair's |
| RagEvaluation.AveragesWithin | src/evaluator.py:83-94 | if every pair's BLEU is in [0, bmax] and hallucination in [0, hmax], so are the averages |
| RagEvaluation.AveragesOfConstantScores | src/evaluator.py:83-94 | with constant per-pair scores `b` and `c`, the averages are `b * pairs / queries` and `c * pairs / queries`; they equal `b` and `c` when there are at least as many references as queries |
| RagEvaluation.FewerReferencesHalveAverages | src/evaluator.py:83-94 | two queries and one reference scoring 100 BLEU and 1.0 hallucination report averages of 50 and 0.5 |
| RagEvaluation.ModelAveragesWithin | src/evaluator.py:85-94 | with the real scorer, a calibrated NLI model and BLEU in [0, 100], the run succeeds iff every generated answer has an entity, and then average BLEU is in [0, 100] and average hallucination in [0, 1] |

## Left out

- Module setup (src/evaluator.py:9-23): the spaCy model download, the loading of spaCy, and the construction of the NLI pipeline. These are foreign libraries, a subprocess and global state.
- `read_docx` (src/evaluator.py:26-28): .docx file reading is I/O. The parser takes the already-read text.
- `bleu` (src/evaluator.py:49-50) wraps sacrebleu, which is not part of this model. It is a function parameter. Its [0, 100] range is assumed where a lemma needs it.
- `extract_entities` (src/evaluator.py:53-55) is spaCy NER. It is a function parameter returning a list of entity strings.
- NLI inference (src/evaluator.py:67) is model inference. It is a function parameter from the prompt text to the first result's label and score. The prompt text itself is modelled (`NliPrompt`).
- `calculate_additional_metrics` (src/evaluator.py:75-77) has no behaviour.
- src/generator.py, src/query.py and src/retriever.py are not part of this model. They hold embedding, vector-store indexing, similarity search and file listing.
- Floating point: scores are `real`, so rounding in the divisions and sums is not modelled.
- The query function is pure in the model. Side effects of calling the system under test are not modelled.
- Hallucination.ScoreInUnitInterval, ScoreZeroIff, ScoreOneIff and RagEvaluation.ModelAveragesWithin assume NLI confidences in [0, 1]. This is what the softmax of the NLI model gives; the code itself never checks it.
- TranscriptParser.ParseSinglePair is stated for any question and answer line, given their classification.
- Failures of the query function, BLEU, entity extraction and NLI inference (src/evaluator.py:86-88, :59-60, :67) are not modelled: they are total functions here. So RagEvaluation.AccumulateSucceedsIff, EvaluateSucceedsIff and ModelAveragesWithin give success conditions that assume those calls return.
- Concurrency, timeouts, cancellation, per-record error reports and configuration options do not exist in the code and are not modelled.
