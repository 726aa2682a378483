/**
 * The transcript parser of the evaluator (`load_evaluation_data`): it splits
 * the already-read document text on newlines, strips each line, and runs a
 * two-state machine that holds either no question or one pending question.
 */
module TranscriptParser {
  import opened Wrappers
  import opened Text

  /**
   * One element of `qa_pairs`: a dict with a "question" key and, when an
   * answer line completed it, an "answer" key.
   */
  datatype QAPair = QAPair(question: string, answer: Option<string>)

  /** What a stripped line means to the parser, before the state is consulted. */
  datatype LineKind = QuestionLine(content: string) | AnswerLine(content: string) | OtherLine

  /** `line.startswith(marker) and ':' in line`. */
  predicate HasMarker(line: string, marker: char) {
    |line| > 0 && line[0] == marker && ':' in line
  }

  /** The text after the first ':' of a marked line, stripped: shorter than the line, with no whitespace at its ends. */
  function Content(line: string): (c: string)
    requires ':' in line
    ensures IsStripped(c) && |c| < |line|
  {
    Strip(AfterFirst(line, ':'))
  }

  /**
   * A stripped line starting with 'Q' and holding a ':' is a question line,
   * one starting with 'A' and holding a ':' an answer line; everything else
   * (blank lines, lines without ':', other first characters) is neither.
   */
  function Classify(raw: string): (k: LineKind)
    ensures !k.OtherLine? ==> IsStripped(k.content) && |k.content| < |raw|
  {
    var line := Strip(raw);
    if HasMarker(line, 'Q') then QuestionLine(Content(line))
    else if HasMarker(line, 'A') then AnswerLine(Content(line))
    else OtherLine
  }

  /**
   * A line is a question line exactly when its stripped form starts with 'Q'
   * and holds a ':', an answer line exactly when it starts with 'A' and holds
   * a ':'; the content of either is stripped.
   */
  lemma ClassifyMeaning(raw: string)
    ensures Classify(raw).QuestionLine? <==> HasMarker(Strip(raw), 'Q')
    ensures Classify(raw).AnswerLine? <==> HasMarker(Strip(raw), 'A')
    ensures StrippedKind(Classify(raw))
  {
  }

  /** `current_question` (None or the pending dict's question) and `qa_pairs`. */
  datatype ParserState = ParserState(pending: Option<string>, pairs: seq<QAPair>)

  /**
   * One iteration of the parsing loop, on a line already classified: the
   * pairs so far are kept as they are and at most one pair is appended.
   */
  function Step(st: ParserState, k: LineKind): (r: ParserState)
    ensures st.pairs <= r.pairs && |r.pairs| <= |st.pairs| + 1
  {
    match k
    case QuestionLine(q) =>
      var pairs := if st.pending.Some? then st.pairs + [QAPair(st.pending.value, None)] else st.pairs;
      ParserState(Some(q), pairs)
    case AnswerLine(a) =>
      if st.pending.Some? then ParserState(None, st.pairs + [QAPair(st.pending.value, Some(a))]) else st
    case OtherLine => st
  }

  /** The state after the loop has consumed `kinds`, starting with nothing pending. */
  function Run(kinds: seq<LineKind>): ParserState {
    if kinds == [] then ParserState(None, [])
    else Step(Run(kinds[..|kinds| - 1]), kinds[|kinds| - 1])
  }

  /** Each line, classified by `classify` (the parser uses `Classify`), in order. */
  function Kinds(lines: seq<string>, classify: string -> LineKind): (r: seq<LineKind>)
    ensures |r| == |lines|
  {
    if lines == [] then [] else Kinds(lines[..|lines| - 1], classify) + [classify(lines[|lines| - 1])]
  }

  /** The pairs `load_evaluation_data` returns for the document text `data`. */
  function Parse(data: string): seq<QAPair> {
    Run(Kinds(Split(data, '\n'), Classify)).pairs
  }

  /** The parsing loop of `load_evaluation_data`, after the document has been read. */
  method LoadEvaluationData(data: string) returns (qaPairs: seq<QAPair>)
    ensures qaPairs == Parse(data)
  {
    qaPairs := [];
    var lines := Split(data, '\n');
    var currentQuestion: Option<string> := None;
    for i := 0 to |lines|
      invariant ParserState(currentQuestion, qaPairs) == Run(Kinds(lines[..i], Classify))
    {
      RunPrefixStep(lines, i);
      var line := Strip(lines[i]);
      if HasMarker(line, 'Q') {
        if currentQuestion.Some? {
          qaPairs := qaPairs + [QAPair(currentQuestion.value, None)];
        }
        currentQuestion := Some(Content(line));
      } else if HasMarker(line, 'A') && currentQuestion.Some? {
        qaPairs := qaPairs + [QAPair(currentQuestion.value, Some(Content(line)))];
        currentQuestion := None;
      }
    }
    assert lines[..|lines|] == lines;
  }

  /** Consuming one more line is one more `Step` on that line's kind. */
  lemma RunPrefixStep(lines: seq<string>, i: nat)
    requires i < |lines|
    ensures Run(Kinds(lines[..i + 1], Classify)) == Step(Run(Kinds(lines[..i], Classify)), Classify(lines[i]))
  {
    assert lines[..i + 1] == lines[..i] + [lines[i]];
    KindsSnoc(lines[..i], lines[i], Classify);
    RunSnoc(Kinds(lines[..i], Classify), Classify(lines[i]));
  }

  lemma RunSnoc(kinds: seq<LineKind>, k: LineKind)
    ensures Run(kinds + [k]) == Step(Run(kinds), k)
  {
    assert (kinds + [k])[..|kinds|] == kinds;
  }

  /**
   * A question or answer line's content is the text after the FIRST ':'
   * only, stripped; any later ':' stays in the content.
   */
  lemma LineContent(raw: string, marker: char, p: string, q: string)
    requires marker == 'Q' || marker == 'A'
    requires Strip(raw) == [marker] + p + [':'] + q && ':' !in p
    ensures Classify(raw) == (if marker == 'Q' then QuestionLine(Strip(q)) else AnswerLine(Strip(q)))
  {
    var line := Strip(raw);
    var head := [marker] + p;
    assert line == head + [':'] + q;
    assert line[|head|] == ':';
    assert ':' !in head by {
      assert head == [marker] + p;
    }
    AfterFirstOf(head, ':', q);
    assert Content(line) == Strip(q);
    assert HasMarker(line, marker) && line[0] == marker;
  }

  /**
   * A question line always starts a new pending question; if one was already
   * pending, it is appended first, with no answer.
   */
  lemma QuestionLineRule(kinds: seq<LineKind>, q: string)
    ensures var before := Run(kinds);
      Run(kinds + [QuestionLine(q)]) == ParserState(Some(q),
        if before.pending.Some? then before.pairs + [QAPair(before.pending.value, None)] else before.pairs)
  {
    RunSnoc(kinds, QuestionLine(q));
  }

  /**
   * An answer line completes the pending question and emits the pair at once,
   * leaving nothing pending; with no question pending it is ignored.
   */
  lemma AnswerLineRule(kinds: seq<LineKind>, a: string)
    ensures var before := Run(kinds);
      Run(kinds + [AnswerLine(a)]) ==
        if before.pending.Some? then ParserState(None, before.pairs + [QAPair(before.pending.value, Some(a))])
        else before
  {
    RunSnoc(kinds, AnswerLine(a));
  }

  /** A line that is neither a question nor an answer line changes nothing, wherever it stands. */
  lemma {:induction false} OtherLineIgnored(a: seq<LineKind>, b: seq<LineKind>)
    ensures Run(a + [OtherLine] + b) == Run(a + b)
    decreases |b|
  {
    if b == [] {
      assert a + [OtherLine] + b == a + [OtherLine];
      assert a + b == a;
      RunSnoc(a, OtherLine);
    } else {
      var b', last := b[..|b| - 1], b[|b| - 1];
      OtherLineIgnored(a, b');
      assert a + [OtherLine] + b == (a + [OtherLine] + b') + [last];
      assert a + b == (a + b') + [last];
      RunSnoc(a + [OtherLine] + b', last);
      RunSnoc(a + b', last);
    }
  }

  /** Output order follows line order: the pairs after a prefix of the lines are a prefix of the final pairs. */
  lemma {:induction false} RunExtendsPairs(kinds: seq<LineKind>, i: nat)
    requires i <= |kinds|
    ensures Run(kinds[..i]).pairs <= Run(kinds).pairs
    decreases |kinds| - i
  {
    if i < |kinds| {
      RunExtendsPairs(kinds, i + 1);
      assert kinds[..i + 1] == kinds[..i] + [kinds[i]];
      RunSnoc(kinds[..i], kinds[i]);
    } else {
      assert kinds[..i] == kinds;
    }
  }

  /** The number of question lines among `kinds`. */
  function QuestionLines(kinds: seq<LineKind>): nat {
    if kinds == [] then 0
    else QuestionLines(kinds[..|kinds| - 1]) + (if kinds[|kinds| - 1].QuestionLine? then 1 else 0)
  }

  /**
   * Every emitted pair, and the pending question, comes from its own question
   * line, so there are never more pairs than question lines.
   */
  lemma {:induction false} PairsAtMostQuestionLines(kinds: seq<LineKind>)
    ensures |Run(kinds).pairs| + (if Run(kinds).pending.Some? then 1 else 0) <= QuestionLines(kinds)
  {
    if kinds != [] {
      PairsAtMostQuestionLines(kinds[..|kinds| - 1]);
    }
  }

  /** A well-formed field: stripped of surrounding whitespace. */
  predicate StrippedPair(p: QAPair) {
    IsStripped(p.question) && (p.answer.Some? ==> IsStripped(p.answer.value))
  }

  predicate StrippedKind(k: LineKind) {
    !k.OtherLine? ==> IsStripped(k.content)
  }

  lemma {:induction false} RunStripped(kinds: seq<LineKind>)
    requires forall k :: 0 <= k < |kinds| ==> StrippedKind(kinds[k])
    ensures forall k :: 0 <= k < |Run(kinds).pairs| ==> StrippedPair(Run(kinds).pairs[k])
    ensures Run(kinds).pending.Some? ==> IsStripped(Run(kinds).pending.value)
  {
    if kinds != [] {
      RunStripped(kinds[..|kinds| - 1]);
    }
  }

  lemma {:induction false} KindsStripped(lines: seq<string>, classify: string -> LineKind)
    requires forall line :: StrippedKind(classify(line))
    ensures forall k :: 0 <= k < |Kinds(lines, classify)| ==> StrippedKind(Kinds(lines, classify)[k])
  {
    if lines != [] {
      KindsStripped(lines[..|lines| - 1], classify);
      assert StrippedKind(classify(lines[|lines| - 1]));
    }
  }

  /** Every question and answer the parser produces is stripped of surrounding whitespace. */
  lemma ParseStripped(data: string)
    ensures forall k :: 0 <= k < |Parse(data)| ==> StrippedPair(Parse(data)[k])
  {
    forall line ensures StrippedKind(Classify(line)) {
      ClassifyMeaning(line);
    }
    KindsStripped(Split(data, '\n'), Classify);
    RunStripped(Kinds(Split(data, '\n'), Classify));
  }

  /** Empty input yields no pairs. */
  lemma ParseEmptyInput()
    ensures Parse("") == []
  {
    assert Split("", '\n') == [[]];
    KindsOfOne([], Classify);
    ClassifyBlank();
    RunSnoc([], OtherLine);
    assert [] + [OtherLine] == [OtherLine];
    ParseVia("", [[]], [OtherLine]);
  }

  /** A line that is already stripped, made of a marker, a ':' and some text. */
  lemma ClassifyMarkedLine(marker: char, q: string)
    requires marker == 'Q' || marker == 'A'
    requires IsStripped([marker, ':'] + q)
    ensures Classify([marker, ':'] + q) == if marker == 'Q' then QuestionLine(Strip(q)) else AnswerLine(Strip(q))
  {
    var line := [marker, ':'] + q;
    StripSurrounded([], line, []);
    assert [] + line + [] == line;
    assert line == [marker] + [] + [':'] + q;
    LineContent(line, marker, [], q);
  }

  lemma NoNewline(marker: char, q: string)
    requires marker != '\n' && '\n' !in q
    ensures '\n' !in [marker, ':'] + q
  {
    var line := [marker, ':'] + q;
    forall k | 0 <= k < |line| ensures line[k] != '\n' {
      if k >= 2 { assert line[k] == q[k - 2]; }
    }
  }

  /** A question that is still pending at the end of the input is never emitted. */
  lemma ParseLoneQuestion(line: string)
    requires '\n' !in line && Classify(line).QuestionLine?
    ensures Parse(line) == []
  {
    SplitNoSeparator(line, '\n');
    KindsOfOne(line, Classify);
    RunSnoc([], Classify(line));
  }

  /** The literal instance: `"Q: What?"` alone yields no pairs. */
  lemma ParseWhatExample()
    ensures Parse("Q: What?") == []
  {
    assert "Q: What?" == ['Q', ':'] + " What?";
    NoNewline('Q', " What?");
    ClassifyMarkedLine('Q', " What?");
    ParseLoneQuestion("Q: What?");
  }

  lemma KindsSnoc(lines: seq<string>, line: string, classify: string -> LineKind)
    ensures Kinds(lines + [line], classify) == Kinds(lines, classify) + [classify(line)]
  {
    assert (lines + [line])[..|lines|] == lines;
  }

  lemma KindsOfOne(l1: string, classify: string -> LineKind)
    ensures Kinds([l1], classify) == [classify(l1)]
  {
    KindsSnoc([], l1, classify);
    assert [] + [l1] == [l1];
  }

  lemma KindsOfTwo(l1: string, l2: string, classify: string -> LineKind)
    ensures Kinds([l1, l2], classify) == [classify(l1), classify(l2)]
  {
    KindsOfOne(l1, classify);
    KindsSnoc([l1], l2, classify);
    assert [l1] + [l2] == [l1, l2];
  }

  lemma KindsOfThree(l1: string, l2: string, l3: string, classify: string -> LineKind)
    ensures Kinds([l1, l2, l3], classify) == [classify(l1), classify(l2), classify(l3)]
  {
    KindsOfTwo(l1, l2, classify);
    KindsSnoc([l1, l2], l3, classify);
    assert [l1, l2] + [l3] == [l1, l2, l3];
  }

  lemma ClassifyBlank()
    ensures Classify([]) == OtherLine
  {
    assert LStrip([]) == [];
  }

  lemma ParseVia(data: string, lines: seq<string>, kinds: seq<LineKind>)
    requires Split(data, '\n') == lines && Kinds(lines, Classify) == kinds
    ensures Parse(data) == Run(kinds).pairs
  {
  }

  lemma SplitTwoLines(qline: string, aline: string)
    requires '\n' !in qline && '\n' !in aline
    ensures Split(qline + "\n" + aline + "\n", '\n') == [qline, aline, []]
  {
    assert qline + "\n" + aline + "\n" == qline + ['\n'] + (aline + ['\n'] + []);
    SplitAtSeparator(qline, '\n', aline + ['\n'] + []);
    SplitAtSeparator(aline, '\n', []);
  }

  lemma RunAnsweredPair(q: string, a: string)
    ensures Run([QuestionLine(q), AnswerLine(a), OtherLine]).pairs == [QAPair(q, Some(a))]
  {
    var k1, k2, k3 := QuestionLine(q), AnswerLine(a), OtherLine;
    RunSnoc([], k1);
    assert [] + [k1] == [k1];
    RunSnoc([k1], k2);
    assert [k1] + [k2] == [k1, k2];
    RunSnoc([k1, k2], k3);
    assert [k1, k2] + [k3] == [k1, k2, k3];
  }

  /** A question line followed by an answer line (and a final newline) yields exactly that pair. */
  lemma ParseSinglePair(qline: string, aline: string, q: string, a: string)
    requires '\n' !in qline && Classify(qline) == QuestionLine(q)
    requires '\n' !in aline && Classify(aline) == AnswerLine(a)
    ensures Parse(qline + "\n" + aline + "\n") == [QAPair(q, Some(a))]
  {
    SplitTwoLines(qline, aline);
    ClassifyBlank();
    KindsOfThree(qline, aline, [], Classify);
    RunAnsweredPair(q, a);
    ParseVia(qline + "\n" + aline + "\n", [qline, aline, []], [QuestionLine(q), AnswerLine(a), OtherLine]);
  }

  lemma SplitThreeLines(l1: string, l2: string, l3: string)
    requires '\n' !in l1 && '\n' !in l2 && '\n' !in l3
    ensures Split(l1 + "\n" + l2 + "\n" + l3, '\n') == [l1, l2, l3]
  {
    assert l1 + "\n" + l2 + "\n" + l3 == l1 + ['\n'] + (l2 + ['\n'] + l3);
    SplitAtSeparator(l1, '\n', l2 + ['\n'] + l3);
    SplitAtSeparator(l2, '\n', l3);
    SplitNoSeparator(l3, '\n');
  }

  lemma RunQuestionWhilePending(q1: string, q2: string, a: string)
    ensures Run([QuestionLine(q1), QuestionLine(q2), AnswerLine(a)]).pairs == [QAPair(q1, None), QAPair(q2, Some(a))]
  {
    var k1, k2, k3 := QuestionLine(q1), QuestionLine(q2), AnswerLine(a);
    RunSnoc([], k1);
    assert [] + [k1] == [k1];
    RunSnoc([k1], k2);
    assert [k1] + [k2] == [k1, k2];
    RunSnoc([k1, k2], k3);
    assert [k1, k2] + [k3] == [k1, k2, k3];
  }

  /**
   * A second question line before any answer line: the first question is
   * emitted without an answer, and the second one is answered.
   */
  lemma ParseQuestionWhilePending(q1line: string, q2line: string, aline: string, q1: string, q2: string, a: string)
    requires '\n' !in q1line && Classify(q1line) == QuestionLine(q1)
    requires '\n' !in q2line && Classify(q2line) == QuestionLine(q2)
    requires '\n' !in aline && Classify(aline) == AnswerLine(a)
    ensures Parse(q1line + "\n" + q2line + "\n" + aline) == [QAPair(q1, None), QAPair(q2, Some(a))]
  {
    SplitThreeLines(q1line, q2line, aline);
    KindsOfThree(q1line, q2line, aline, Classify);
    RunQuestionWhilePending(q1, q2, a);
    ParseVia(q1line + "\n" + q2line + "\n" + aline, [q1line, q2line, aline], [QuestionLine(q1), QuestionLine(q2), AnswerLine(a)]);
  }

  /** A marker and a ':' with nothing after them still make a question (or answer) line, with empty content. */
  lemma ClassifyBareMarker(marker: char)
    requires marker == 'Q' || marker == 'A'
    ensures Classify([marker, ':']) == if marker == 'Q' then QuestionLine([]) else AnswerLine([])
  {
    ClassifyMarkedLine(marker, []);
    assert [marker, ':'] + [] == [marker, ':'];
    assert LStrip([]) == [];
  }

  /** The literal instance: `"Q:\nA:\n"` yields one pair whose question and answer are both empty. */
  lemma ParseEmptyFields()
    ensures Parse("Q:\nA:\n") == [QAPair("", Some(""))]
  {
    ClassifyBareMarker('Q');
    ClassifyBareMarker('A');
    assert "Q:\nA:\n" == ['Q', ':'] + "\n" + ['A', ':'] + "\n";
    ParseSinglePair(['Q', ':'], ['A', ':'], [], []);
  }
}
