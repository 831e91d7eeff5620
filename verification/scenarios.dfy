/** Replies that pin down the quirks of the reply parser and of grade_score: what
    the line pattern accepts, repeated and wrapped-around criterion numbers,
    the effect of `strip()`, and a full worked example. */
module Scenarios {
  import opened Results
  import opened PyText
  import opened Rubric
  import opened ResponseParser
  import opened Grading
  import opened SeqFacts
  import Prompt

  // ---------------------------------------------------------------------------
  // Single lines
  // ---------------------------------------------------------------------------

  lemma ApplicableLine()
    ensures MatchScoreLine("1: 1") == Some(ScoreToken(1, 1))
  {
    MatchScoreLineComplete("1", " ", '1', "");
    assert "1" + [':'] + " " + ['1'] + "" == "1: 1";
  }

  lemma NotApplicableLine()
    ensures MatchScoreLine("2: 0") == Some(ScoreToken(2, 0))
  {
    MatchScoreLineComplete("2", " ", '0', "");
    assert "2" + [':'] + " " + ['0'] + "" == "2: 0";
  }

  /** Only one verdict digit is read: `"1: 10"` is criterion 1 with verdict 1. */
  lemma TrailingTextIgnored()
    ensures MatchScoreLine("1: 10") == Some(ScoreToken(1, 1))
  {
    MatchScoreLineComplete("1", " ", '1', "0");
    assert "1" + [':'] + " " + ['1'] + "0" == "1: 10";
  }

  /** Any digit is a verdict, and any whitespace may follow the colon. */
  lemma AnyDigitVerdict()
    ensures MatchScoreLine("3:\t7") == Some(ScoreToken(3, 7))
  {
    assert "3" + [':'] + "\t" + ['7'] + "" == "3:\t7";
    assert DigitsValue("3") == 3 && DigitValue('7') == 7;
    MatchScoreLineComplete("3", "\t", '7', "");
  }

  /** `int()` accepts leading zeros in the criterion number. */
  lemma LeadingZerosAccepted()
    ensures MatchScoreLine("02:1") == Some(ScoreToken(2, 1))
  {
    MatchScoreLineComplete("02", "", '1', "");
    assert "02" + [':'] + "" + ['1'] + "" == "02:1";
    assert "02"[..1] == "0";
  }

  /** The `Total:` line the format example asks for is not read at all. */
  lemma TotalLineSkipped()
    ensures MatchScoreLine("Total: 110") == None
  {
  }

  /** A space before the colon breaks the pattern. */
  lemma SpaceBeforeColonSkipped()
    ensures MatchScoreLine("1 : 1") == None
  {
    LeadingDigitsOf("1", " : 1");
    assert "1 : 1" == "1" + " : 1";
  }

  /** A colon followed by no digit breaks the pattern. */
  lemma MissingVerdictSkipped()
    ensures MatchScoreLine("3: x") == None
  {
    LeadingDigitsOf("3", ": x");
    assert "3: x" == "3" + ": x";
    LeadingSpacesOf(" ", "x");
    assert "3: x"[2..] == " " + "x";
  }

  /** A line the pattern accepts begins with a digit. */
  lemma MatchedLineStartsWithDigit(line: string)
    requires MatchScoreLine(line).Some?
    ensures |line| > 0 && IsDigit(line[0])
  {
    var n := LeadingDigits(line);
    assert line[..n][0] == line[0];
  }

  // ---------------------------------------------------------------------------
  // Whole replies
  // ---------------------------------------------------------------------------

  /** A criterion answered twice is counted twice. */
  lemma {:induction false} RepeatedLineCountsTwice(criteria: seq<Criterion>, line: string)
    requires |criteria| > 0 && MatchScoreLine(line) == Some(ScoreToken(1, 1))
    ensures var d := Detail(criteria[0].name, criteria[0].points, Applicable);
            ParseLines(criteria, [line, line]) == Ok(Evaluation(BaseScore + 2 * criteria[0].points, [d, d]))
  {
    var d := Detail(criteria[0].name, criteria[0].points, Applicable);
    ParseLinesEmpty(criteria);
    ParseLinesSnoc(criteria, [], line);
    assert [] + [line] == [line];
    ScoreLineSteps(criteria, Evaluation(BaseScore, []), line);
    ParseLinesSnoc(criteria, [line], line);
    assert [line] + [line] == [line, line];
    ScoreLineSteps(criteria, Evaluation(BaseScore + criteria[0].points, [d]), line);
    assert [d] + [d] == [d, d];
  }

  /** Criterion number 0 is not rejected: it selects the last criterion. */
  lemma {:induction false} NumberZeroSelectsLast(criteria: seq<Criterion>, line: string)
    requires |criteria| > 0 && MatchScoreLine(line) == Some(ScoreToken(0, 1))
    ensures var last := criteria[|criteria| - 1];
            ParseLines(criteria, [line])
            == Ok(Evaluation(BaseScore + last.points, [Detail(last.name, last.points, Applicable)]))
  {
    ParseLinesEmpty(criteria);
    ParseLinesSnoc(criteria, [], line);
    assert [] + [line] == [line];
    ScoreLineSteps(criteria, Evaluation(BaseScore, []), line);
  }

  /** A verdict digit other than 1 counts as "not applicable". */
  lemma OtherVerdictNotApplicable(criteria: seq<Criterion>, line: string, verdict: nat)
    requires |criteria| > 0 && MatchScoreLine(line) == Some(ScoreToken(1, verdict)) && verdict != 1
    ensures ParseLines(criteria, [line])
         == Ok(Evaluation(BaseScore, [Detail(criteria[0].name, 0, NotApplicable)]))
  {
    ParseLinesEmpty(criteria);
    ParseLinesSnoc(criteria, [], line);
    assert [] + [line] == [line];
    ScoreLineSteps(criteria, Evaluation(BaseScore, []), line);
  }

  /** With an empty rubric every score line fails, whatever its number. */
  lemma EmptyRubricRejectsScoreLines(line: string)
    requires MatchScoreLine(line).Some?
    ensures ParseLines([], [line]) == Err(ParseError(LookupErrorMessage(MatchScoreLine(line).value.number)))
  {
    ParseLinesEmpty([]);
    ParseLinesSnoc([], [], line);
    assert [] + [line] == [line];
    ScoreLineSteps([], Evaluation(BaseScore, []), line);
  }

  /** The first number whose index `number - 1` exceeds `sys.maxsize` fails
      with the machine-word message, not with "list index out of range". */
  lemma HugeNumberCannotFit(c: Criterion)
    ensures ParseLines([c], [ReplyLine(0x8000_0000_0000_0001, true)]) == Err(ParseError(NotIndexSizedMessage))
  {
    var line := ReplyLine(0x8000_0000_0000_0001, true);
    ReplyLineToken(0x8000_0000_0000_0001, true);
    OneLineReply([c], line);
  }

  /** The largest index that fits a machine word is merely out of range. */
  lemma LargestIndexOutOfRange(c: Criterion)
    ensures ParseLines([c], [ReplyLine(0x8000_0000_0000_0000, true)]) == Err(ParseError(OutOfRangeMessage))
  {
    var line := ReplyLine(0x8000_0000_0000_0000, true);
    ReplyLineToken(0x8000_0000_0000_0000, true);
    OneLineReply([c], line);
  }

  /** A reply of one line is scored by one step from the start. */
  lemma OneLineReply(criteria: seq<Criterion>, line: string)
    ensures ParseLines(criteria, [line]) == ScoreLine(criteria, Evaluation(BaseScore, []), line)
  {
    ParseLinesEmpty(criteria);
    ParseLinesSnoc(criteria, [], line);
    assert [] + [line] == [line];
  }

  /** `strip()` acts on the whole reply, so only the first line loses its
      indentation: an indented second line is skipped, however valid it
      would be without the indentation. */
  lemma OnlyFirstLineStripped(criteria: seq<Criterion>, indent: string, first: string, second: string)
    requires |criteria| > 0 && MatchScoreLine(first) == Some(ScoreToken(1, 1))
    requires AllSpace(indent) && '\n' !in first && '\n' !in second
    requires |second| > 0 && IsSpace(second[0]) && !IsSpace(second[|second| - 1])
    ensures ParseResponse(criteria, indent + first + "\n" + second)
         == Ok(Evaluation(BaseScore + criteria[0].points, [Detail(criteria[0].name, criteria[0].points, Applicable)]))
  {
    MatchedLineStartsWithDigit(first);
    IndentedReplyLines(indent, first, second);
    IndentedLineSkipped(second);
    SkippedSecondLine(criteria, first, second);
  }

  /** The lines of an indented two-line reply after `strip().split("\n")`. */
  lemma IndentedReplyLines(indent: string, first: string, second: string)
    requires AllSpace(indent) && '\n' !in first && '\n' !in second
    requires |first| > 0 && !IsSpace(first[0])
    requires |second| > 0 && !IsSpace(second[|second| - 1])
    ensures SplitLines(Strip(indent + first + "\n" + second)) == [first, second]
  {
    var mid := first + "\n" + second;
    assert mid[0] == first[0] && mid[|mid| - 1] == second[|second| - 1];
    StripSurrounded(indent, mid, "");
    Regroup(indent, first, "\n", second);
    SplitLinesCons(first, second);
    SplitLinesSingle(second);
  }

  /** A line that starts with whitespace is never a score line. */
  lemma IndentedLineSkipped(line: string)
    requires |line| > 0 && IsSpace(line[0])
    ensures MatchScoreLine(line) == None
  {
    assert LeadingDigits(line) == 0;
  }

  lemma {:induction false} SkippedSecondLine(criteria: seq<Criterion>, first: string, second: string)
    requires |criteria| > 0 && MatchScoreLine(first) == Some(ScoreToken(1, 1)) && MatchScoreLine(second) == None
    ensures ParseLines(criteria, [first, second])
         == Ok(Evaluation(BaseScore + criteria[0].points, [Detail(criteria[0].name, criteria[0].points, Applicable)]))
  {
    var d := Detail(criteria[0].name, criteria[0].points, Applicable);
    ParseLinesEmpty(criteria);
    ParseLinesSnoc(criteria, [], first);
    assert [] + [first] == [first];
    ScoreLineSteps(criteria, Evaluation(BaseScore, []), first);
    ParseLinesSnoc(criteria, [first], second);
    assert [first] + [second] == [first, second];
    ScoreLineSteps(criteria, Evaluation(BaseScore + criteria[0].points, [d]), second);
  }

  lemma {:induction false} WorkedExampleText()
    ensures SplitLines(Strip("1: 1\n2: 0\nTotal: 110")) == ["1: 1", "2: 0", "Total: 110"]
  {
    var lines := ["1: 1", "2: 0", "Total: 110"];
    assert JoinLines(lines) == "1: 1\n2: 0\nTotal: 110";
    StripSplitJoin(lines);
  }

  /** The worked example: a bonus of 10 that applies and a penalty of 5 that
      does not; the `Total:` line is ignored; 110 earns an "A". */
  lemma WorkedExample()
    ensures var criteria := [Criterion("Intro clear", 10), Criterion("Typos", -5)];
            && ParseResponse(criteria, "1: 1\n2: 0\nTotal: 110")
               == Ok(Evaluation(110, [Detail("Intro clear", 10, Applicable), Detail("Typos", 0, NotApplicable)]))
            && GradeScore(110, None) == "A"
  {
    var criteria := [Criterion("Intro clear", 10), Criterion("Typos", -5)];
    WorkedExampleText();
    ApplicableLine();
    NotApplicableLine();
    TotalLineSkipped();
    WorkedExampleLines(criteria, "1: 1", "2: 0", "Total: 110");
  }

  lemma {:induction false} WorkedExampleLines(criteria: seq<Criterion>, a: string, b: string, c: string)
    requires |criteria| == 2
    requires MatchScoreLine(a) == Some(ScoreToken(1, 1))
    requires MatchScoreLine(b) == Some(ScoreToken(2, 0))
    requires MatchScoreLine(c) == None
    ensures ParseLines(criteria, [a, b, c])
         == Ok(Evaluation(BaseScore + criteria[0].points,
                          [Detail(criteria[0].name, criteria[0].points, Applicable),
                           Detail(criteria[1].name, 0, NotApplicable)]))
  {
    var d0 := Detail(criteria[0].name, criteria[0].points, Applicable);
    var d1 := Detail(criteria[1].name, 0, NotApplicable);
    ParseLinesEmpty(criteria);
    ParseLinesSnoc(criteria, [], a);
    assert [] + [a] == [a];
    ScoreLineSteps(criteria, Evaluation(BaseScore, []), a);
    ParseLinesSnoc(criteria, [a], b);
    assert [a] + [b] == [a, b];
    ScoreLineSteps(criteria, Evaluation(BaseScore + criteria[0].points, [d0]), b);
    assert [d0] + [d1] == [d0, d1];
    ParseLinesSnoc(criteria, [a, b], c);
    assert [a, b] + [c] == [a, b, c];
    ScoreLineSteps(criteria, Evaluation(BaseScore + criteria[0].points, [d0, d1]), c);
  }

  // ---------------------------------------------------------------------------
  // Prompt lines
  // ---------------------------------------------------------------------------

  /** A criterion worth 0 points is listed with the bonus label. */
  lemma ZeroPointsListedAsBonus()
    ensures Prompt.CriterionLine(2, Criterion("図表", 0)) == "2. 図表 (加点: 0点)"
  {
  }

  /** A negative criterion is listed with the penalty label and its magnitude. */
  lemma NegativePointsListedAsPenalty()
    ensures Prompt.CriterionLine(1, Criterion("誤字", -5)) == "1. 誤字 (減点: 5点)"
  {
  }
}
