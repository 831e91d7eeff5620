/** Reading the model's reply: every line that starts with `<digits>:<spaces><digit>`
    names a criterion by its 1-based number and gives a verdict digit; verdict `1`
    applies the criterion's points to a score that starts at 100. */
module ResponseParser {
  import opened Results
  import opened PyText
  import opened Rubric
  import opened SeqFacts

  /** What `^(\d+):\s*(\d)` captures at the start of a line: `int()` of the
      leading digits and `int()` of the single verdict digit. */
  datatype ScoreToken = ScoreToken(number: nat, verdict: nat)

  /** One entry of the detail list. */
  datatype Detail = Detail(criterion: string, points: int, result: string)

  datatype Evaluation = Evaluation(totalScore: int, details: seq<Detail>)

  /** The `ValueError` raised when the reply cannot be scored. */
  datatype ParseError = ParseError(message: string)

  const BaseScore: int := 100
  const Applicable: string := "該当"
  const NotApplicable: string := "非該当"

  /** The only failure inside the loop is the `IndexError` of the criteria
      lookup, re-raised as a `ValueError` whose message is this prefix followed
      by the `IndexError`'s own text. */
  const ErrorPrefix: string := "GPTの応答を解析中にエラーが発生しました: "

  /** The index fits a machine word but lies outside the list. */
  const OutOfRangeMessage: string := ErrorPrefix + "list index out of range"

  /** The index does not fit a machine word at all. */
  const NotIndexSizedMessage: string := ErrorPrefix + "cannot fit 'int' into an index-sized integer"

  /** `sys.maxsize` on 64-bit CPython: the largest index a list lookup accepts
      before it even compares the index with the list's length. */
  const MaxIndex: int := 0x7FFF_FFFF_FFFF_FFFF

  /** The message for a failed lookup of criterion `number`: the index
      `number - 1` is first converted to a machine word, and only an index
      that fits is then found to be out of range. */
  function LookupErrorMessage(number: nat): string {
    if number - 1 > MaxIndex then NotIndexSizedMessage else OutOfRangeMessage
  }

  /** The two messages a failed reply can carry. */
  predicate IsLookupError(e: ParseError) {
    e.message == OutOfRangeMessage || e.message == NotIndexSizedMessage
  }

  // ---------------------------------------------------------------------------
  // The line pattern
  // ---------------------------------------------------------------------------

  /** `re.match(r'^(\d+):\s*(\d)', line)`: greedy digits, a colon, greedy
      whitespace, one digit; whatever follows that digit is ignored. */
  function MatchScoreLine(line: string): (r: Option<ScoreToken>)
    ensures r.Some? ==> r.value.verdict < 10
    ensures r.Some? ==> |line| >= 3 && IsDigit(line[0]) && ':' in line
    ensures |line| == 0 || !IsDigit(line[0]) ==> r.None?
  {
    var n := LeadingDigits(line);
    if n == 0 || n == |line| || line[n] != ':' then None
    else
      var after := line[n + 1..];
      var w := LeadingSpaces(after);
      if w == |after| || !IsDigit(after[w]) then None
      else Some(ScoreToken(DigitsValue(line[..n]), DigitValue(after[w])))
  }

  /** A line the pattern accepts is digits, a colon, whitespace, a digit and
      arbitrary trailing text, and the token is read from those parts. */
  lemma {:induction false} MatchScoreLineSound(line: string) returns (digits: string, spaces: string, verdict: char, rest: string)
    requires MatchScoreLine(line).Some?
    ensures line == digits + [':'] + spaces + [verdict] + rest
    ensures |digits| > 0 && AllDigits(digits) && AllSpace(spaces) && IsDigit(verdict)
    ensures MatchScoreLine(line) == Some(ScoreToken(DigitsValue(digits), DigitValue(verdict)))
  {
    var n := LeadingDigits(line);
    var after := line[n + 1..];
    var w := LeadingSpaces(after);
    digits := line[..n];
    spaces := after[..w];
    verdict := after[w];
    rest := after[w + 1..];
    Cut(line, n);
    Cut(after, w);
    Regroup5(digits, [':'], spaces, [verdict], rest);
  }

  /** Conversely every line of that shape is accepted, whatever text follows the
      verdict digit: `"1: 10"` reads as criterion 1 with verdict 1. */
  lemma {:induction false} MatchScoreLineComplete(digits: string, spaces: string, verdict: char, rest: string)
    requires |digits| > 0 && AllDigits(digits) && AllSpace(spaces) && IsDigit(verdict)
    ensures MatchScoreLine(digits + [':'] + spaces + [verdict] + rest)
         == Some(ScoreToken(DigitsValue(digits), DigitValue(verdict)))
  {
    var line := digits + [':'] + spaces + [verdict] + rest;
    var tail := [':'] + spaces + [verdict] + rest;
    ShapeParts(digits, spaces, verdict, rest);
    LeadingDigitsOf(digits, tail);
    assert line[|digits|] == ':';
    var after := line[|digits| + 1..];
    assert !IsSpace(verdict);
    LeadingSpacesOf(spaces, [verdict] + rest);
    assert after[|spaces|] == verdict;
    assert line[..|digits|] == digits;
  }

  /** Where the parts of a score line sit inside it. */
  lemma ShapeParts(digits: string, spaces: string, verdict: char, rest: string)
    ensures var line := digits + [':'] + spaces + [verdict] + rest;
      && line == digits + ([':'] + spaces + [verdict] + rest)
      && line[|digits| + 1..] == spaces + ([verdict] + rest)
  {
  }

  // ---------------------------------------------------------------------------
  // The scoring loop
  // ---------------------------------------------------------------------------

  /** The sum of the points recorded in a detail list. */
  function PointsSum(details: seq<Detail>): int {
    if |details| == 0 then 0 else PointsSum(details[..|details| - 1]) + details[|details| - 1].points
  }

  /** The detail recorded for token `t` once it selected criterion `i`. */
  function LineDetail(criteria: seq<Criterion>, t: ScoreToken, i: nat): Detail
    requires i < |criteria|
  {
    if t.verdict == 1 then Detail(criteria[i].name, criteria[i].points, Applicable)
    else Detail(criteria[i].name, 0, NotApplicable)
  }

  /** One pass of the loop body: a line that does not match changes nothing;
      a matching line looks its criterion up (raising on a bad number), adds the
      points on verdict 1 and appends one detail. The running total always
      exceeds the sum of the recorded points by the same amount. */
  function ScoreLine(criteria: seq<Criterion>, acc: Evaluation, line: string): (r: Result<Evaluation, ParseError>)
    ensures r.Err? ==> MatchScoreLine(line).Some?
                       && r.error == ParseError(LookupErrorMessage(MatchScoreLine(line).value.number))
    ensures r.Ok? ==> r.value.totalScore - PointsSum(r.value.details) == acc.totalScore - PointsSum(acc.details)
    ensures r.Ok? ==> r.value == acc
                      || (|r.value.details| == |acc.details| + 1 && r.value.details[..|acc.details|] == acc.details)
  {
    match MatchScoreLine(line)
    case None => Ok(acc)
    case Some(t) =>
      match Resolve(criteria, t.number)
      case None => Err(ParseError(LookupErrorMessage(t.number)))
      case Some(i) =>
        var d := LineDetail(criteria, t, i);
        var details := acc.details + [d];
        assert details[..|details| - 1] == acc.details;
        Ok(Evaluation(acc.totalScore + d.points, details))
  }

  /** The loop of `parse_gpt_response` over `lines` in order, starting from
      100 and no details; the first failing line ends it with the error. The
      total is always 100 plus the points recorded in the details. */
  function ParseLines(criteria: seq<Criterion>, lines: seq<string>): (r: Result<Evaluation, ParseError>)
    ensures r.Err? ==> IsLookupError(r.error)
    ensures r.Ok? ==> r.value.totalScore == BaseScore + PointsSum(r.value.details)
  {
    if |lines| == 0 then Ok(Evaluation(BaseScore, []))
    else
      var prefix := ParseLines(criteria, lines[..|lines| - 1]);
      if prefix.Err? then prefix else ScoreLine(criteria, prefix.value, lines[|lines| - 1])
  }

  /** `parse_gpt_response`: the reply is stripped and split on newlines first,
      so only the first line loses its leading whitespace. */
  function ParseResponse(criteria: seq<Criterion>, response: string): (r: Result<Evaluation, ParseError>)
    ensures r.Err? <==> SomeLineFails(criteria, SplitLines(Strip(response)))
    ensures r.Err? ==> IsLookupError(r.error)
    ensures r.Ok? ==> r.value.totalScore == BaseScore + Gain(criteria, SplitLines(Strip(response)))
    ensures Strip(response) == "" ==> r == Ok(Evaluation(BaseScore, []))
  {
    LinesOutcome(criteria, SplitLines(Strip(response)));
    EmptyReply(criteria);
    ParseLines(criteria, SplitLines(Strip(response)))
  }

  /** Whether a list of lines scores, and its total, line by line. */
  lemma LinesOutcome(criteria: seq<Criterion>, lines: seq<string>)
    ensures ParseLines(criteria, lines).Err? <==> SomeLineFails(criteria, lines)
    ensures ParseLines(criteria, lines).Ok? ==> ParseLines(criteria, lines).value.totalScore == BaseScore + Gain(criteria, lines)
  {
    FailsByLines(criteria, lines);
    TotalByLines(criteria, lines);
  }

  /** An empty reply is one empty line: it scores 100 with no details. */
  lemma EmptyReply(criteria: seq<Criterion>)
    ensures ParseLines(criteria, SplitLines("")) == Ok(Evaluation(BaseScore, []))
  {
    SplitLinesSingle("");
    ParseLinesEmpty(criteria);
    ParseLinesSnoc(criteria, [], "");
    assert [] + [""] == [""];
  }

  /** The same loop written imperatively, with the running total and the detail
      list as mutable state and an early exit on a bad criterion number. */
  method ParseGptResponse(response: string, criteria: seq<Criterion>) returns (r: Result<Evaluation, ParseError>)
    ensures r == ParseResponse(criteria, response)
  {
    var lines := SplitLines(Strip(response));
    var total := BaseScore;
    var details: seq<Detail> := [];
    var i := 0;
    PrefixEmpty(lines);
    ParseLinesEmpty(criteria);
    while i < |lines|
      invariant 0 <= i <= |lines|
      invariant ParseLines(criteria, lines[..i]) == Ok(Evaluation(total, details))
    {
      ParseLinesPrefixStep(criteria, lines, i);
      var step := ScoreOneLine(criteria, total, details, lines[i]);
      if step.Err? {
        ErrorPersists(criteria, lines, i + 1);
        return step;
      }
      total, details := step.value.totalScore, step.value.details;
      i := i + 1;
    }
    PrefixAll(lines);
    r := Ok(Evaluation(total, details));
  }

  /** The loop body for one line, on the running total and detail list: skip a
      line that does not match, raise on a bad criterion number, otherwise add
      the points on verdict 1 and append the detail. */
  method ScoreOneLine(criteria: seq<Criterion>, total: int, details: seq<Detail>, line: string)
    returns (r: Result<Evaluation, ParseError>)
    ensures r == ScoreLine(criteria, Evaluation(total, details), line)
  {
    ScoreLineSteps(criteria, Evaluation(total, details), line);
    var m := MatchScoreLine(line);
    if m.None? {
      return Ok(Evaluation(total, details));
    }
    var index := Resolve(criteria, m.value.number);
    if index.None? {
      return Err(ParseError(LookupErrorMessage(m.value.number)));
    }
    var c := criteria[index.value];
    var newTotal := total;
    if m.value.verdict == 1 {
      newTotal := total + c.points;
    }
    var detail := Detail(c.name, if m.value.verdict == 1 then c.points else 0,
                         if m.value.verdict == 1 then Applicable else NotApplicable);
    r := Ok(Evaluation(newTotal, details + [detail]));
  }

  // ---------------------------------------------------------------------------
  // Unfolding the loop one line at a time
  // ---------------------------------------------------------------------------

  lemma ParseLinesEmpty(criteria: seq<Criterion>)
    ensures ParseLines(criteria, []) == Ok(Evaluation(BaseScore, []))
  {
  }

  /** Scoring one more line continues from the lines before it. */
  lemma ParseLinesSnoc(criteria: seq<Criterion>, lines: seq<string>, line: string)
    ensures var p := ParseLines(criteria, lines);
            ParseLines(criteria, lines + [line]) == if p.Err? then p else ScoreLine(criteria, p.value, line)
  {
    assert (lines + [line])[..|lines|] == lines;
  }

  /** Scoring the prefix one line longer continues from the shorter prefix. */
  lemma ParseLinesPrefixStep(criteria: seq<Criterion>, lines: seq<string>, i: nat)
    requires i < |lines|
    ensures var p := ParseLines(criteria, lines[..i]);
            ParseLines(criteria, lines[..i + 1]) == if p.Err? then p else ScoreLine(criteria, p.value, lines[i])
  {
    PrefixStep(lines, i);
    ParseLinesSnoc(criteria, lines[..i], lines[i]);
  }

  /** The three outcomes of one loop step. */
  lemma ScoreLineSteps(criteria: seq<Criterion>, acc: Evaluation, line: string)
    ensures MatchScoreLine(line).None? ==> ScoreLine(criteria, acc, line) == Ok(acc)
    ensures MatchScoreLine(line).Some? && Resolve(criteria, MatchScoreLine(line).value.number).None? ==>
              ScoreLine(criteria, acc, line) == Err(ParseError(LookupErrorMessage(MatchScoreLine(line).value.number)))
    ensures MatchScoreLine(line).Some? && Resolve(criteria, MatchScoreLine(line).value.number).Some? ==>
              var t := MatchScoreLine(line).value;
              var i := Resolve(criteria, t.number).value;
              ScoreLine(criteria, acc, line)
              == Ok(Evaluation(acc.totalScore + LineDetail(criteria, t, i).points,
                               acc.details + [LineDetail(criteria, t, i)]))
  {
  }

  /** Once a prefix of the reply fails, the whole reply fails with the same
      error: the exception leaves the loop, so later lines are never read. */
  lemma {:induction false} ErrorPersists(criteria: seq<Criterion>, lines: seq<string>, j: nat)
    requires j <= |lines|
    requires ParseLines(criteria, lines[..j]).Err?
    ensures ParseLines(criteria, lines) == ParseLines(criteria, lines[..j])
    decreases |lines| - j
  {
    if j == |lines| {
      assert lines[..j] == lines;
    } else {
      var shorter := lines[..|lines| - 1];
      assert shorter[..j] == lines[..j];
      ErrorPersists(criteria, shorter, j);
      SplitLast(lines);
      ParseLinesSnoc(criteria, shorter, lines[|lines| - 1]);
    }
  }

  /** A failing reply carries the error of its first failing line. */
  lemma FirstFailureWins(criteria: seq<Criterion>, lines: seq<string>, k: nat)
    requires k < |lines| && LineFails(criteria, lines[k])
    requires forall j :: 0 <= j < k ==> !LineFails(criteria, lines[j])
    ensures ParseLines(criteria, lines) == Err(ParseError(LookupErrorMessage(MatchScoreLine(lines[k]).value.number)))
  {
    var before := lines[..k];
    forall j | 0 <= j < |before|
      ensures !LineFails(criteria, before[j])
    {
      assert before[j] == lines[j];
    }
    FailsByLines(criteria, before);
    ParseLinesPrefixStep(criteria, lines, k);
    ScoreLineSteps(criteria, ParseLines(criteria, before).value, lines[k]);
    ErrorPersists(criteria, lines, k + 1);
  }

  // ---------------------------------------------------------------------------
  // The score, the error and the details, line by line
  // ---------------------------------------------------------------------------

  /** A matching line whose number selects no criterion: the line that raises. */
  predicate LineFails(criteria: seq<Criterion>, line: string) {
    MatchScoreLine(line).Some? && Resolve(criteria, MatchScoreLine(line).value.number).None?
  }

  /** Some line of the reply raises. */
  predicate SomeLineFails(criteria: seq<Criterion>, lines: seq<string>) {
    exists k :: 0 <= k < |lines| && LineFails(criteria, lines[k])
  }

  /** What one line adds to the score: the selected criterion's points when the
      line matches with verdict 1, nothing otherwise. */
  function LineGain(criteria: seq<Criterion>, line: string): int {
    match MatchScoreLine(line)
    case None => 0
    case Some(t) =>
      match Resolve(criteria, t.number)
      case None => 0
      case Some(i) => if t.verdict == 1 then criteria[i].points else 0
  }

  /** The points of all lines, summed in line order. */
  function Gain(criteria: seq<Criterion>, lines: seq<string>): int {
    if |lines| == 0 then 0 else Gain(criteria, lines[..|lines| - 1]) + LineGain(criteria, lines[|lines| - 1])
  }

  /** The reply fails exactly when some matching line names a missing criterion:
      a number above the rubric's length, or any number when the rubric is empty. */
  lemma {:induction false} FailsByLines(criteria: seq<Criterion>, lines: seq<string>)
    ensures ParseLines(criteria, lines).Err? <==> SomeLineFails(criteria, lines)
  {
    if |lines| > 0 {
      FailsByLines(criteria, lines[..|lines| - 1]);
      SplitLast(lines);
      FailsStep(criteria, lines[..|lines| - 1], lines[|lines| - 1]);
    }
  }

  /** One more line fails the reply exactly when the reply so far failed or
      the new line fails. */
  lemma FailsStep(criteria: seq<Criterion>, prefix: seq<string>, last: string)
    requires ParseLines(criteria, prefix).Err? <==> SomeLineFails(criteria, prefix)
    ensures ParseLines(criteria, prefix + [last]).Err? <==> SomeLineFails(criteria, prefix + [last])
  {
    ParseLinesSnoc(criteria, prefix, last);
    SomeLineFailsSnoc(criteria, prefix, last);
    var p := ParseLines(criteria, prefix);
    if p.Ok? {
      ScoreLineSteps(criteria, p.value, last);
    }
  }

  lemma SomeLineFailsSnoc(criteria: seq<Criterion>, prefix: seq<string>, last: string)
    ensures SomeLineFails(criteria, prefix + [last]) <==> SomeLineFails(criteria, prefix) || LineFails(criteria, last)
  {
    var lines := prefix + [last];
    if SomeLineFails(criteria, prefix) {
      var k :| 0 <= k < |prefix| && LineFails(criteria, prefix[k]);
      assert lines[k] == prefix[k];
    } else if LineFails(criteria, last) {
      assert lines[|prefix|] == last;
    } else {
      forall k | 0 <= k < |lines|
        ensures !LineFails(criteria, lines[k])
      {
        if k < |prefix| {
          assert lines[k] == prefix[k];
        }
      }
    }
  }

  /** A reply that scores totals 100 plus the points of every matching line whose
      verdict is 1; a repeated number counts again. */
  lemma {:induction false} TotalByLines(criteria: seq<Criterion>, lines: seq<string>)
    ensures ParseLines(criteria, lines).Ok? ==>
              ParseLines(criteria, lines).value.totalScore == BaseScore + Gain(criteria, lines)
  {
    if |lines| > 0 {
      var prefix := lines[..|lines| - 1];
      var last := lines[|lines| - 1];
      SplitLast(lines);
      TotalByLines(criteria, prefix);
      ParseLinesSnoc(criteria, prefix, last);
      var p := ParseLines(criteria, prefix);
      if p.Ok? {
        ScoreLineSteps(criteria, p.value, last);
      }
    }
  }

  function LineTokens(line: string): seq<ScoreToken> {
    match MatchScoreLine(line)
    case Some(t) => [t]
    case None => []
  }

  /** The tokens of the matching lines, in line order. */
  function Tokens(lines: seq<string>): seq<ScoreToken> {
    if |lines| == 0 then [] else Tokens(lines[..|lines| - 1]) + LineTokens(lines[|lines| - 1])
  }

  /** `d` is the detail recorded for token `t`: the selected criterion's name,
      its points and "該当" for verdict 1, otherwise 0 points and "非該当". */
  predicate DetailFor(criteria: seq<Criterion>, t: ScoreToken, d: Detail) {
    && Resolve(criteria, t.number).Some?
    && var c := criteria[Resolve(criteria, t.number).value];
    && d.criterion == c.name
    && (t.verdict == 1 ==> d.points == c.points && d.result == Applicable)
    && (t.verdict != 1 ==> d.points == 0 && d.result == NotApplicable)
  }

  /** The details are one per matching line, in line order (not rubric order):
      entry `k` belongs to the `k`-th matching line, and a repeated number gives
      a second entry. */
  lemma {:induction false} DetailsFollowLines(criteria: seq<Criterion>, lines: seq<string>)
    requires ParseLines(criteria, lines).Ok?
    ensures var details := ParseLines(criteria, lines).value.details;
            && |details| == |Tokens(lines)|
            && forall k :: 0 <= k < |details| ==> DetailFor(criteria, Tokens(lines)[k], details[k])
  {
    if |lines| > 0 {
      var prefix := lines[..|lines| - 1];
      var last := lines[|lines| - 1];
      SplitLast(lines);
      ParseLinesSnoc(criteria, prefix, last);
      var p := ParseLines(criteria, prefix);
      DetailsFollowLines(criteria, prefix);
      ScoreLineSteps(criteria, p.value, last);
      var details := ParseLines(criteria, lines).value.details;
      var ts := Tokens(lines);
      assert ts == Tokens(prefix) + LineTokens(last);
      forall k | 0 <= k < |details|
        ensures DetailFor(criteria, ts[k], details[k])
      {
        if k < |p.value.details| {
          assert details[k] == p.value.details[k];
          assert ts[k] == Tokens(prefix)[k];
        } else {
          assert ts[k] == LineTokens(last)[0];
        }
      }
    }
  }

  // ---------------------------------------------------------------------------
  // Line order does not change the score
  // ---------------------------------------------------------------------------

  lemma {:induction false} GainAppend(criteria: seq<Criterion>, a: seq<string>, b: seq<string>)
    ensures Gain(criteria, a + b) == Gain(criteria, a) + Gain(criteria, b)
    decreases |b|
  {
    if |b| == 0 {
      assert a + b == a;
    } else {
      assert (a + b)[..|a + b| - 1] == a + b[..|b| - 1];
      GainAppend(criteria, a, b[..|b| - 1]);
    }
  }

  /** The points do not depend on the order of the reply lines. */
  lemma {:induction false} GainReorder(criteria: seq<Criterion>, a: seq<string>, b: seq<string>)
    requires multiset(a) == multiset(b)
    ensures Gain(criteria, a) == Gain(criteria, b)
    decreases |a|
  {
    if |a| == 0 {
      assert |b| == |multiset(b)|;
    } else {
      var p := RemoveMatch(a, b);
      var u, x, v := b[..p], b[p], b[p + 1..];
      GainReorder(criteria, a[..|a| - 1], u + v);
      GainAround(criteria, u, x, v);
    }
  }

  /** The points of one line spliced between two runs of lines. */
  lemma GainAround(criteria: seq<Criterion>, u: seq<string>, x: string, v: seq<string>)
    ensures Gain(criteria, u + [x] + v) == Gain(criteria, u) + LineGain(criteria, x) + Gain(criteria, v)
    ensures Gain(criteria, u + v) == Gain(criteria, u) + Gain(criteria, v)
  {
    GainAppend(criteria, u, v);
    GainAppend(criteria, u + [x], v);
    GainAppend(criteria, u, [x]);
    assert [x][..0] == [];
  }

  lemma FailingLineReorder(criteria: seq<Criterion>, a: seq<string>, b: seq<string>)
    requires multiset(a) == multiset(b)
    ensures SomeLineFails(criteria, a) ==> SomeLineFails(criteria, b)
  {
    if SomeLineFails(criteria, a) {
      var k :| 0 <= k < |a| && LineFails(criteria, a[k]);
      assert a[k] in multiset(b);
      var j :| 0 <= j < |b| && b[j] == a[k];
    }
  }

  /** The detail one line records: one entry for a matching line that selects
      a criterion, none otherwise. */
  function LineDetails(criteria: seq<Criterion>, line: string): seq<Detail> {
    match MatchScoreLine(line)
    case None => []
    case Some(t) =>
      match Resolve(criteria, t.number)
      case None => []
      case Some(i) => [LineDetail(criteria, t, i)]
  }

  /** The details of all lines, concatenated in line order. */
  function AllDetails(criteria: seq<Criterion>, lines: seq<string>): seq<Detail> {
    if |lines| == 0 then [] else AllDetails(criteria, lines[..|lines| - 1]) + LineDetails(criteria, lines[|lines| - 1])
  }

  /** A reply that scores records exactly the details of its lines, in order. */
  lemma {:induction false} DetailsByLines(criteria: seq<Criterion>, lines: seq<string>)
    ensures ParseLines(criteria, lines).Ok? ==> ParseLines(criteria, lines).value.details == AllDetails(criteria, lines)
  {
    if |lines| > 0 {
      var prefix := lines[..|lines| - 1];
      var last := lines[|lines| - 1];
      SplitLast(lines);
      DetailsByLines(criteria, prefix);
      ParseLinesSnoc(criteria, prefix, last);
      var p := ParseLines(criteria, prefix);
      if p.Ok? {
        ScoreLineSteps(criteria, p.value, last);
      }
    }
  }

  lemma {:induction false} DetailsAppend(criteria: seq<Criterion>, a: seq<string>, b: seq<string>)
    ensures AllDetails(criteria, a + b) == AllDetails(criteria, a) + AllDetails(criteria, b)
    decreases |b|
  {
    if |b| == 0 {
      assert a + b == a;
    } else {
      var b' := b[..|b| - 1];
      var last := b[|b| - 1];
      assert (a + b)[..|a + b| - 1] == a + b';
      assert (a + b)[|a + b| - 1] == last;
      DetailsAppend(criteria, a, b');
      assert AllDetails(criteria, a + b) == AllDetails(criteria, a + b') + LineDetails(criteria, last);
      assert AllDetails(criteria, b) == AllDetails(criteria, b') + LineDetails(criteria, last);
    }
  }

  /** Reordering the lines permutes the recorded details. */
  lemma {:induction false} DetailsReorder(criteria: seq<Criterion>, a: seq<string>, b: seq<string>)
    requires multiset(a) == multiset(b)
    ensures multiset(AllDetails(criteria, a)) == multiset(AllDetails(criteria, b))
    decreases |a|
  {
    if |a| == 0 {
      assert |b| == |multiset(b)|;
    } else {
      var p := RemoveMatch(a, b);
      var u, x, v := b[..p], b[p], b[p + 1..];
      DetailsReorder(criteria, a[..|a| - 1], u + v);
      DetailsAround(criteria, u, x, v);
    }
  }

  /** The details of one line spliced between two runs of lines. */
  lemma DetailsAround(criteria: seq<Criterion>, u: seq<string>, x: string, v: seq<string>)
    ensures AllDetails(criteria, u + [x] + v)
         == AllDetails(criteria, u) + LineDetails(criteria, x) + AllDetails(criteria, v)
    ensures AllDetails(criteria, u + v) == AllDetails(criteria, u) + AllDetails(criteria, v)
  {
    DetailsAppend(criteria, u, v);
    DetailsAppend(criteria, u + [x], v);
    DetailsAppend(criteria, u, [x]);
    assert [x][..0] == [];
  }

  /** Reordering the reply lines changes neither whether scoring succeeds nor
      the total, and the details are the same entries in another order. */
  lemma ReorderedReply(criteria: seq<Criterion>, a: seq<string>, b: seq<string>)
    requires multiset(a) == multiset(b)
    ensures ParseLines(criteria, a).Ok? <==> ParseLines(criteria, b).Ok?
    ensures ParseLines(criteria, a).Ok? ==>
              ParseLines(criteria, a).value.totalScore == ParseLines(criteria, b).value.totalScore
    ensures ParseLines(criteria, a).Ok? ==>
              multiset(ParseLines(criteria, a).value.details) == multiset(ParseLines(criteria, b).value.details)
  {
    DetailsByLines(criteria, a);
    DetailsByLines(criteria, b);
    DetailsReorder(criteria, a, b);
    FailsByLines(criteria, a);
    FailsByLines(criteria, b);
    FailingLineReorder(criteria, a, b);
    FailingLineReorder(criteria, b, a);
    TotalByLines(criteria, a);
    TotalByLines(criteria, b);
    GainReorder(criteria, a, b);
  }

  // ---------------------------------------------------------------------------
  // A reply that follows the requested format
  // ---------------------------------------------------------------------------

  /** The points of the criteria a verdict list judges applicable. */
  function ApplicablePoints(criteria: seq<Criterion>, verdicts: seq<bool>): int
    requires |verdicts| <= |criteria|
  {
    if |verdicts| == 0 then 0
    else
      ApplicablePoints(criteria, verdicts[..|verdicts| - 1])
      + (if verdicts[|verdicts| - 1] then criteria[|verdicts| - 1].points else 0)
  }

  /** One detail per criterion, in rubric order. */
  function RubricOrderDetails(criteria: seq<Criterion>, verdicts: seq<bool>): seq<Detail>
    requires |verdicts| <= |criteria|
  {
    seq(|verdicts|, k requires 0 <= k < |verdicts| =>
          if verdicts[k] then Detail(criteria[k].name, criteria[k].points, Applicable)
          else Detail(criteria[k].name, 0, NotApplicable))
  }

  /** A reply whose `k`-th line reads as criterion `k + 1` with verdict 1 or 0
      scores 100 plus the points of the criteria judged applicable, with one
      detail per criterion in rubric order. */
  lemma {:induction false} InRubricOrder(criteria: seq<Criterion>, lines: seq<string>, verdicts: seq<bool>)
    requires |lines| == |verdicts| <= |criteria|
    requires forall k :: 0 <= k < |lines| ==>
               MatchScoreLine(lines[k]) == Some(ScoreToken(k + 1, if verdicts[k] then 1 else 0))
    ensures ParseLines(criteria, lines)
         == Ok(Evaluation(BaseScore + ApplicablePoints(criteria, verdicts), RubricOrderDetails(criteria, verdicts)))
  {
    InRubricOrderSteps(criteria, lines, verdicts);
    RubricOrderClosedForm(criteria, verdicts);
  }

  /** The result of scoring verdicts for criteria 1, 2, … one at a time, as the
      loop would. */
  function RubricOrderResult(criteria: seq<Criterion>, verdicts: seq<bool>): Evaluation
    requires |verdicts| <= |criteria|
  {
    if |verdicts| == 0 then Evaluation(BaseScore, [])
    else
      var n := |verdicts|;
      var prev := RubricOrderResult(criteria, verdicts[..n - 1]);
      var d := LineDetail(criteria, ScoreToken(n, if verdicts[n - 1] then 1 else 0), n - 1);
      Evaluation(prev.totalScore + d.points, prev.details + [d])
  }

  lemma {:induction false} InRubricOrderSteps(criteria: seq<Criterion>, lines: seq<string>, verdicts: seq<bool>)
    requires |lines| == |verdicts| <= |criteria|
    requires forall k :: 0 <= k < |lines| ==>
               MatchScoreLine(lines[k]) == Some(ScoreToken(k + 1, if verdicts[k] then 1 else 0))
    ensures ParseLines(criteria, lines) == Ok(RubricOrderResult(criteria, verdicts))
  {
    var n := |lines|;
    if n > 0 {
      InRubricOrderPrefix(lines, verdicts, n - 1);
      InRubricOrderSteps(criteria, lines[..n - 1], verdicts[..n - 1]);
      InRubricOrderLast(criteria, lines, verdicts);
    }
  }

  /** Every prefix of a reply in rubric order is in rubric order. */
  lemma InRubricOrderPrefix(lines: seq<string>, verdicts: seq<bool>, m: nat)
    requires m <= |lines| == |verdicts|
    requires forall k :: 0 <= k < |lines| ==>
               MatchScoreLine(lines[k]) == Some(ScoreToken(k + 1, if verdicts[k] then 1 else 0))
    ensures forall k :: 0 <= k < m ==>
              MatchScoreLine(lines[..m][k]) == Some(ScoreToken(k + 1, if verdicts[..m][k] then 1 else 0))
  {
    forall k | 0 <= k < m
      ensures MatchScoreLine(lines[..m][k]) == Some(ScoreToken(k + 1, if verdicts[..m][k] then 1 else 0))
    {
      PrefixIndex(lines, m, k);
      PrefixIndex(verdicts, m, k);
    }
  }

  /** The last line of a reply in rubric order adds its criterion's detail and points. */
  lemma {:induction false} InRubricOrderLast(criteria: seq<Criterion>, lines: seq<string>, verdicts: seq<bool>)
    requires 0 < |lines| == |verdicts| <= |criteria|
    requires ParseLines(criteria, lines[..|lines| - 1]) == Ok(RubricOrderResult(criteria, verdicts[..|lines| - 1]))
    requires MatchScoreLine(lines[|lines| - 1]) == Some(ScoreToken(|lines|, if verdicts[|lines| - 1] then 1 else 0))
    ensures ParseLines(criteria, lines) == Ok(RubricOrderResult(criteria, verdicts))
  {
    var n := |lines|;
    var prefix, shorter := lines[..n - 1], verdicts[..n - 1];
    InRubricOrderStep(criteria, prefix, lines[n - 1], shorter, verdicts[n - 1]);
    SplitLast(lines);
    SplitLast(verdicts);
  }

  /** One more line in rubric order adds its criterion's detail and points. */
  lemma {:induction false} InRubricOrderStep(criteria: seq<Criterion>, prefix: seq<string>, line: string,
                                             shorter: seq<bool>, applies: bool)
    requires |prefix| == |shorter| < |criteria|
    requires ParseLines(criteria, prefix) == Ok(RubricOrderResult(criteria, shorter))
    requires MatchScoreLine(line) == Some(ScoreToken(|prefix| + 1, if applies then 1 else 0))
    ensures ParseLines(criteria, prefix + [line]) == Ok(RubricOrderResult(criteria, shorter + [applies]))
  {
    var n := |prefix| + 1;
    SnocParts(shorter, applies);
    assert Resolve(criteria, n) == Some(n - 1);
    ParseLinesSnoc(criteria, prefix, line);
    ScoreLineSteps(criteria, RubricOrderResult(criteria, shorter), line);
  }

  /** Scoring verdicts one at a time totals 100 plus the applicable points and
      records one detail per criterion, in rubric order. */
  lemma {:induction false} RubricOrderClosedForm(criteria: seq<Criterion>, verdicts: seq<bool>)
    requires |verdicts| <= |criteria|
    ensures RubricOrderResult(criteria, verdicts)
         == Evaluation(BaseScore + ApplicablePoints(criteria, verdicts), RubricOrderDetails(criteria, verdicts))
  {
    var n := |verdicts|;
    if n == 0 {
      assert RubricOrderDetails(criteria, verdicts) == [];
    } else {
      RubricOrderClosedForm(criteria, verdicts[..n - 1]);
      RubricOrderSnoc(criteria, verdicts[..n - 1], verdicts[n - 1]);
      SplitLast(verdicts);
    }
  }

  /** One more verdict adds its criterion's detail and, if it applies, its points. */
  lemma {:induction false} RubricOrderSnoc(criteria: seq<Criterion>, shorter: seq<bool>, applies: bool)
    requires |shorter| < |criteria|
    ensures var d := LineDetail(criteria, ScoreToken(|shorter| + 1, if applies then 1 else 0), |shorter|);
            && ApplicablePoints(criteria, shorter + [applies]) == ApplicablePoints(criteria, shorter) + d.points
            && RubricOrderDetails(criteria, shorter + [applies]) == RubricOrderDetails(criteria, shorter) + [d]
  {
    SnocParts(shorter, applies);
    RubricOrderDetailsStep(criteria, shorter + [applies]);
  }

  lemma RubricOrderDetailsStep(criteria: seq<Criterion>, verdicts: seq<bool>)
    requires 0 < |verdicts| <= |criteria|
    ensures var n := |verdicts|;
            RubricOrderDetails(criteria, verdicts)
            == RubricOrderDetails(criteria, verdicts[..n - 1])
               + [LineDetail(criteria, ScoreToken(n, if verdicts[n - 1] then 1 else 0), n - 1)]
  {
  }

  /** The reply line the format example asks for: `"<number>: <0 or 1>"`. */
  function ReplyLine(number: nat, applies: bool): string {
    NatToString(number) + ": " + (if applies then "1" else "0")
  }

  /** A line written as the format example asks is read back as written. */
  lemma ReplyLineToken(number: nat, applies: bool)
    ensures MatchScoreLine(ReplyLine(number, applies)) == Some(ScoreToken(number, if applies then 1 else 0))
  {
    var digit := if applies then '1' else '0';
    assert ReplyLine(number, applies) == NatToString(number) + [':'] + " " + [digit] + "";
    assert AllSpace(" ");
    MatchScoreLineComplete(NatToString(number), " ", digit, "");
    NatToStringRoundTrip(number);
  }

  /** The answer lines of a reply: every criterion, in rubric order, one line each. */
  function AnswerLines(verdicts: seq<bool>): seq<string> {
    seq(|verdicts|, k requires 0 <= k < |verdicts| => ReplyLine(k + 1, verdicts[k]))
  }

  /** What a reply may write after `"Total: "`: any text on one line that does
      not end in whitespace, such as `110`, `-5` or `105点`. */
  predicate ClaimedTotal(claimed: string) {
    && |claimed| > 0 && !IsSpace(claimed[|claimed| - 1])
    && forall i :: 0 <= i < |claimed| ==> claimed[i] != '\n'
  }

  /** The closing line of the format example, `"Total: <claimed>"`. */
  function TotalLine(claimed: string): string {
    "Total: " + claimed
  }

  /** The reply in the requested format: the answer lines, then the claimed total. */
  function FormattedReply(verdicts: seq<bool>, claimed: string): seq<string> {
    AnswerLines(verdicts) + [TotalLine(claimed)]
  }

  /** A complete reply in the requested format, joined with newlines, scores 100
      plus exactly the points of the criteria it judges applicable, whatever
      their signs, with one detail per criterion in rubric order; the total the
      reply claims, whatever it says, plays no part. */
  lemma {:induction false} WellFormedResponse(criteria: seq<Criterion>, verdicts: seq<bool>, claimed: string)
    requires |verdicts| == |criteria| && ClaimedTotal(claimed)
    ensures ParseResponse(criteria, JoinLines(FormattedReply(verdicts, claimed)))
         == Ok(Evaluation(BaseScore + ApplicablePoints(criteria, verdicts), RubricOrderDetails(criteria, verdicts)))
  {
    FormattedReplyLines(verdicts, claimed);
    AnswersInRubricOrder(criteria, verdicts);
    TotalLineShape(claimed);
    SkippedLast(criteria, AnswerLines(verdicts), TotalLine(claimed));
  }

  lemma {:induction false} AnswersInRubricOrder(criteria: seq<Criterion>, verdicts: seq<bool>)
    requires |verdicts| <= |criteria|
    ensures ParseLines(criteria, AnswerLines(verdicts))
         == Ok(Evaluation(BaseScore + ApplicablePoints(criteria, verdicts), RubricOrderDetails(criteria, verdicts)))
  {
    var answers := AnswerLines(verdicts);
    forall k | 0 <= k < |answers|
      ensures MatchScoreLine(answers[k]) == Some(ScoreToken(k + 1, if verdicts[k] then 1 else 0))
    {
      ReplyLineToken(k + 1, verdicts[k]);
    }
    InRubricOrder(criteria, answers, verdicts);
  }

  /** A last line the pattern does not accept leaves the result as it was. */
  lemma SkippedLast(criteria: seq<Criterion>, lines: seq<string>, line: string)
    requires MatchScoreLine(line).None?
    ensures ParseLines(criteria, lines + [line]) == ParseLines(criteria, lines)
  {
    ParseLinesSnoc(criteria, lines, line);
  }

  /** Stripping and splitting a joined formatted reply gives back its lines:
      the reply starts with a digit or `T` and ends with the claimed total's
      last character, which is not whitespace, so the strip removes nothing. */
  lemma {:induction false} FormattedReplyLines(verdicts: seq<bool>, claimed: string)
    requires ClaimedTotal(claimed)
    ensures SplitLines(Strip(JoinLines(FormattedReply(verdicts, claimed)))) == FormattedReply(verdicts, claimed)
  {
    var lines := FormattedReply(verdicts, claimed);
    var answers := AnswerLines(verdicts);
    forall k | 0 <= k < |lines|
      ensures '\n' !in lines[k] && |lines[k]| > 0
      ensures !IsSpace(lines[k][0]) && !IsSpace(lines[k][|lines[k]| - 1])
    {
      if k < |answers| {
        assert lines[k] == answers[k];
        ReplyLineShape(k + 1, verdicts[k]);
      } else {
        TotalLineShape(claimed);
      }
    }
    StripSplitJoin(lines);
  }

  lemma TotalLineShape(claimed: string)
    requires ClaimedTotal(claimed)
    ensures '\n' !in TotalLine(claimed)
    ensures TotalLine(claimed)[0] == 'T'
    ensures !IsSpace(TotalLine(claimed)[|TotalLine(claimed)| - 1])
  {
    assert TotalLine(claimed)[|TotalLine(claimed)| - 1] == claimed[|claimed| - 1];
  }

  lemma ReplyLineShape(number: nat, applies: bool)
    ensures '\n' !in ReplyLine(number, applies)
    ensures |ReplyLine(number, applies)| > 0
    ensures IsDigit(ReplyLine(number, applies)[0])
    ensures IsDigit(ReplyLine(number, applies)[|ReplyLine(number, applies)| - 1])
  {
    var s := NatToString(number);
    assert forall i :: 0 <= i < |s| ==> s[i] != '\n';
  }
}
