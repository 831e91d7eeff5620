/** Building the evaluation prompt: the task context, the report text, fixed
    instructions, one numbered line per criterion and a fixed format example. */
module Prompt {
  import opened Results
  import opened PyText
  import opened Rubric
  import opened SeqFacts

  const ContextHeader: string := "以下はレポートの課題やテーマに関する説明です:\n\n"
  const TextHeader: string := "以下はPDFから抽出されたレポートの内容です:\n\n"
  const SectionEnd: string := "\n\n"
  const Instructions: string :=
    "以下の評価基準に基づき、このレポートを評価してください。\n"
    + "各項目について、該当する場合は「1」、該当しない場合は「0」を返してください。\n"
    + "減点項目は該当する場合に指定された点数を減点し、加点項目は該当する場合に指定された点数を加点してください。\n\n"
  const FormatExample: string :=
    "\n出力フォーマット例:\n"
    + "1: 1\n2: 0\n3: 1\n...\nTotal: X\n"
    + "各項目の結果とTotal（最終スコア）を明示してください。\n"

  const Penalty: string := "減点"
  const Bonus: string := "加点"
  const PointsSuffix: string := "点)"

  /** The label of a criterion: a penalty exactly when its points are negative,
      so a criterion worth 0 points is labelled a bonus. */
  function Direction(points: int): string {
    if points < 0 then Penalty else Bonus
  }

  /** Python's `abs(points)`. */
  function Magnitude(points: int): nat {
    if points < 0 then -points else points
  }

  /** `f"{i}. {name} ({direction}: {abs(points)}点)"`, without its newline. */
  function CriterionLine(number: nat, c: Criterion): (line: string)
    ensures |line| > 0 && IsDigit(line[0])
    ensures '\n' in line <==> '\n' in c.name
  {
    var d := NatToString(number);
    var m := NatToString(Magnitude(c.points));
    assert forall i :: 0 <= i < |d| ==> d[i] != '\n';
    assert forall i :: 0 <= i < |m| ==> m[i] != '\n';
    d + ". " + c.name + " (" + Direction(c.points) + ": " + m + PointsSuffix
  }

  /** The criterion lines in list order, numbered from 1 as
      `enumerate(criteria, 1)` numbers them. */
  function CriterionLines(criteria: seq<Criterion>): seq<string> {
    seq(|criteria|, k requires 0 <= k < |criteria| => CriterionLine(k + 1, criteria[k]))
  }

  /** The criteria block: each criterion line followed by a newline. */
  function CriteriaBlock(criteria: seq<Criterion>): string {
    Terminated(CriterionLines(criteria))
  }

  /** Where the report text starts in the prompt. */
  function TextStart(reportContext: string): nat {
    |ContextHeader| + |reportContext| + |SectionEnd| + |TextHeader|
  }

  /** The part of the prompt before the report text: the context under its
      header, then the header of the report text. */
  function Preamble(reportContext: string): (p: string)
    ensures |p| == TextStart(reportContext)
    ensures p[..|ContextHeader|] == ContextHeader
    ensures p[|ContextHeader|..|ContextHeader| + |reportContext|] == reportContext
    ensures p[|ContextHeader| + |reportContext|..|p| - |TextHeader|] == SectionEnd
    ensures p[|p| - |TextHeader|..] == TextHeader
  {
    PieceLayout(ContextHeader, reportContext, SectionEnd, TextHeader);
    ContextHeader + reportContext + SectionEnd + TextHeader
  }

  /** The part of the prompt after the report text: the fixed instructions,
      then the criteria block, then the format example. */
  function Closing(criteria: seq<Criterion>): (p: string)
    ensures |p| >= |SectionEnd| + |Instructions|
    ensures p[..|SectionEnd| + |Instructions|] == SectionEnd + Instructions
    ensures p[|SectionEnd| + |Instructions|..] == CriteriaBlock(criteria) + FormatExample
  {
    PieceLayout(SectionEnd, Instructions, CriteriaBlock(criteria), FormatExample);
    SectionEnd + Instructions + CriteriaBlock(criteria) + FormatExample
  }

  /** `generate_evaluation_prompt`: the report text appears verbatim between
      the preamble (which carries the context verbatim) and the closing
      (which carries the criteria block and the format example). Nothing in
      the inputs is escaped. */
  function GenerateEvaluationPrompt(text: string, criteria: seq<Criterion>, reportContext: string): (prompt: string)
    ensures |prompt| == TextStart(reportContext) + |text| + |Closing(criteria)|
    ensures prompt[..TextStart(reportContext)] == Preamble(reportContext)
    ensures prompt[TextStart(reportContext)..TextStart(reportContext) + |text|] == text
    ensures prompt[TextStart(reportContext) + |text|..] == Closing(criteria)
  {
    ThreeLayout(Preamble(reportContext), text, Closing(criteria));
    Preamble(reportContext) + text + Closing(criteria)
  }

  lemma ThreeLayout(a: string, b: string, c: string)
    ensures var p := a + b + c;
      && p[..|a|] == a
      && p[|a|..|a| + |b|] == b
      && p[|a| + |b|..] == c
  {
  }

  lemma PieceLayout(a: string, b: string, c: string, d: string)
    ensures var p := a + b + c + d;
      && p[..|a|] == a
      && p[|a|..|a| + |b|] == b
      && p[..|a| + |b|] == a + b
      && p[|a| + |b|..] == c + d
      && p[|a| + |b|..|p| - |d|] == c
      && p[|p| - |d|..] == d
  {
  }

  // ---------------------------------------------------------------------------
  // Reading a criterion line back
  // ---------------------------------------------------------------------------

  /** The six characters between the name and the magnitude: `" (減点: "` or `" (加点: "`. */
  function Tag(direction: string): string {
    " (" + direction + ": "
  }

  /** Removes the closing `点)`. */
  function StripPointsSuffix(line: string): Option<string> {
    if |line| >= |PointsSuffix| && line[|line| - |PointsSuffix|..] == PointsSuffix
    then Some(line[..|line| - |PointsSuffix|])
    else None
  }

  /** Splits off the trailing run of digits: the magnitude of the points. */
  function SplitMagnitude(body: string): Option<(string, nat)> {
    var m := TrailingDigits(body);
    if m == 0 then None
    else Some((body[..|body| - m], DigitsValue(body[|body| - m..])))
  }

  /** Splits off the tag; the flag says whether it was the penalty label. */
  function SplitTag(head: string): Option<(string, bool)> {
    if |head| < 6 then None
    else
      var tag := head[|head| - 6..];
      if tag == Tag(Penalty) then Some((head[..|head| - 6], true))
      else if tag == Tag(Bonus) then Some((head[..|head| - 6], false))
      else None
  }

  /** Splits the leading number and the `". "` after it from the name. */
  function SplitNumber(lead: string): Option<(nat, string)> {
    var n := LeadingDigits(lead);
    if n == 0 || |lead| < n + 2 || lead[n..n + 2] != ". " then None
    else Some((DigitsValue(lead[..n]), lead[n + 2..]))
  }

  /** Reads a criterion line back into its number and criterion, working from
      the right so that the name may hold any text. */
  function DecodeCriterionLine(line: string): Option<(nat, Criterion)> {
    match StripPointsSuffix(line)
    case None => None
    case Some(body) =>
      match SplitMagnitude(body)
      case None => None
      case Some((head, magnitude)) =>
        match SplitTag(head)
        case None => None
        case Some((lead, penalty)) =>
          match SplitNumber(lead)
          case None => None
          case Some((number, name)) =>
            Some((number, Criterion(name, if penalty then -(magnitude as int) else magnitude)))
  }

  /** Reads only the label of a criterion line: `Some(true)` for the penalty
      label, `Some(false)` for the bonus label. */
  function DecodeLabel(line: string): Option<bool> {
    match StripPointsSuffix(line)
    case None => None
    case Some(body) =>
      match SplitMagnitude(body)
      case None => None
      case Some((head, _)) =>
        match SplitTag(head)
        case None => None
        case Some((_, penalty)) => Some(penalty)
  }

  lemma StripPointsSuffixOf(body: string)
    ensures StripPointsSuffix(body + PointsSuffix) == Some(body)
  {
    var line := body + PointsSuffix;
    assert line[..|line| - |PointsSuffix|] == body;
    assert line[|line| - |PointsSuffix|..] == PointsSuffix;
  }

  lemma {:induction false} SplitMagnitudeOf(head: string, magnitude: string)
    requires |head| > 0 && !IsDigit(head[|head| - 1])
    requires |magnitude| > 0 && AllDigits(magnitude)
    ensures SplitMagnitude(head + magnitude) == Some((head, DigitsValue(magnitude)))
  {
    var body := head + magnitude;
    TrailingDigitsOf(head, magnitude);
    assert body[|head|..] == magnitude;
    assert body[..|head|] == head;
  }

  lemma SplitTagOf(lead: string, direction: string)
    requires direction == Penalty || direction == Bonus
    ensures SplitTag(lead + Tag(direction)) == Some((lead, direction == Penalty))
  {
    var head := lead + Tag(direction);
    assert head[|head| - 6..] == Tag(direction);
    assert head[..|head| - 6] == lead;
    assert Tag(Penalty) != Tag(Bonus) by {
      assert Tag(Penalty)[2] != Tag(Bonus)[2];
    }
  }

  lemma {:induction false} SplitNumberOf(digits: string, name: string)
    requires |digits| > 0 && AllDigits(digits)
    ensures SplitNumber(digits + ". " + name) == Some((DigitsValue(digits), name))
  {
    var lead := digits + ". " + name;
    assert lead == digits + (". " + name);
    LeadingDigitsOf(digits, ". " + name);
    ConcatParts(digits, ". ", name);
    SplitNumberAt(lead, |digits|);
  }

  lemma SplitNumberAt(lead: string, n: nat)
    requires 0 < n && n + 2 <= |lead| && LeadingDigits(lead) == n && lead[n..n + 2] == ". "
    ensures SplitNumber(lead) == Some((DigitsValue(lead[..n]), lead[n + 2..]))
  {
  }

  /** Decoding a line assembled from a run of number digits, a name, a label
      and a run of magnitude digits recovers exactly those parts. */
  lemma {:induction false} DecodeAssembled(digits: string, name: string, direction: string, magnitude: string)
    requires |digits| > 0 && AllDigits(digits)
    requires |magnitude| > 0 && AllDigits(magnitude)
    requires direction == Penalty || direction == Bonus
    ensures var value := DigitsValue(magnitude);
            DecodeCriterionLine(digits + ". " + name + " (" + direction + ": " + magnitude + PointsSuffix)
            == Some((DigitsValue(digits), Criterion(name, if direction == Penalty then -(value as int) else value)))
  {
    var lead := digits + ". " + name;
    var head := lead + Tag(direction);
    AssembledLine(digits, name, direction, magnitude);
    StripPointsSuffixOf(head + magnitude);
    SplitMagnitudeOf(head, magnitude);
    SplitTagOf(lead, direction);
    SplitNumberOf(digits, name);
    DecodeStages((head + magnitude) + PointsSuffix, head + magnitude, head, DigitsValue(magnitude),
                 lead, direction == Penalty, DigitsValue(digits), name);
  }

  lemma AssembledLine(digits: string, name: string, direction: string, magnitude: string)
    ensures digits + ". " + name + " (" + direction + ": " + magnitude + PointsSuffix
         == ((digits + ". " + name) + Tag(direction) + magnitude) + PointsSuffix
  {
  }

  /** The decoder is the composition of its four stages. */
  lemma DecodeStages(line: string, body: string, head: string, magnitude: nat,
                     lead: string, penalty: bool, number: nat, name: string)
    requires StripPointsSuffix(line) == Some(body)
    requires SplitMagnitude(body) == Some((head, magnitude))
    requires SplitTag(head) == Some((lead, penalty))
    requires SplitNumber(lead) == Some((number, name))
    ensures DecodeCriterionLine(line)
         == Some((number, Criterion(name, if penalty then -(magnitude as int) else magnitude)))
  {
  }

  /** A criterion line reads back as the number and criterion it was built
      from: the label and the non-negative magnitude together restore the
      signed points, and the numbering is not confused by the name. */
  lemma {:induction false} CriterionLineRoundTrip(number: nat, c: Criterion)
    ensures DecodeCriterionLine(CriterionLine(number, c)) == Some((number, c))
  {
    NatToStringRoundTrip(Magnitude(c.points));
    NatToStringRoundTrip(number);
    DecodeAssembled(NatToString(number), c.name, Direction(c.points), NatToString(Magnitude(c.points)));
  }

  /** The label written into a criterion line is the penalty label exactly
      when the points are negative; a criterion worth zero points is listed
      with the bonus label. */
  lemma {:induction false} CriterionLineLabel(number: nat, c: Criterion)
    ensures DecodeLabel(CriterionLine(number, c)) == Some(c.points < 0)
  {
    NatToStringRoundTrip(Magnitude(c.points));
    NatToStringRoundTrip(number);
    var digits, magnitude := NatToString(number), NatToString(Magnitude(c.points));
    var lead := digits + ". " + c.name;
    var head := lead + Tag(Direction(c.points));
    AssembledLine(digits, c.name, Direction(c.points), magnitude);
    StripPointsSuffixOf(head + magnitude);
    SplitMagnitudeOf(head, magnitude);
    SplitTagOf(lead, Direction(c.points));
    assert Direction(c.points) == Penalty <==> c.points < 0;
  }

  /** Reading the prompt's criteria block line by line gives back every
      criterion with its 1-based number, in list order, and nothing else but
      the empty piece after the final newline. */
  lemma PromptListsCriteria(criteria: seq<Criterion>)
    requires forall k :: 0 <= k < |criteria| ==> '\n' !in criteria[k].name
    ensures var lines := SplitLines(CriteriaBlock(criteria));
            && |lines| == |criteria| + 1
            && lines[|criteria|] == ""
            && forall k :: 0 <= k < |criteria| ==> DecodeCriterionLine(lines[k]) == Some((k + 1, criteria[k]))
  {
    BlockSplitsIntoLines(criteria);
    RenderedLinesDecode(criteria);
    var rendered := CriterionLines(criteria);
    var lines := SplitLines(CriteriaBlock(criteria));
    forall k | 0 <= k < |criteria|
      ensures DecodeCriterionLine(lines[k]) == Some((k + 1, criteria[k]))
    {
      assert lines[k] == rendered[k];
    }
  }

  /** The criteria block splits into exactly the rendered criterion lines. */
  lemma BlockSplitsIntoLines(criteria: seq<Criterion>)
    requires forall k :: 0 <= k < |criteria| ==> '\n' !in criteria[k].name
    ensures SplitLines(CriteriaBlock(criteria)) == CriterionLines(criteria) + [""]
  {
    var rendered := CriterionLines(criteria);
    forall k | 0 <= k < |rendered| ensures '\n' !in rendered[k] {
    }
    SplitTerminated(rendered);
  }

  /** Each rendered criterion line decodes to its number and criterion. */
  lemma RenderedLinesDecode(criteria: seq<Criterion>)
    ensures forall k :: 0 <= k < |criteria| ==>
              DecodeCriterionLine(CriterionLines(criteria)[k]) == Some((k + 1, criteria[k]))
  {
    forall k | 0 <= k < |criteria|
      ensures DecodeCriterionLine(CriterionLines(criteria)[k]) == Some((k + 1, criteria[k]))
    {
      DecodeRenderedLine(criteria, k);
    }
  }

  lemma {:induction false} DecodeRenderedLine(criteria: seq<Criterion>, k: nat)
    requires k < |criteria|
    ensures DecodeCriterionLine(CriterionLines(criteria)[k]) == Some((k + 1, criteria[k]))
  {
    CriterionLineRoundTrip(k + 1, criteria[k]);
  }
}
