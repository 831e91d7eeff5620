# Report evaluation: prompt, reply scoring and letter grades

This project is a Dafny model of the scoring core of a report-grading tool. The tool works in three steps:

1. It builds a prompt for a language model. The prompt holds the report's theme, the text extracted from the report's PDF, and a numbered rubric. Each rubric entry is a criterion with a name and signed points: negative points are a penalty ("減点") and positive points a bonus ("加点").
2. It reads the model's reply line by line. It starts from 100 points and adds the points of every criterion the reply marks applicable.
3. It turns the total into a letter grade from a threshold table.

All three steps live in `app/evaluation.py`: `generate_evaluation_prompt`, `parse_gpt_response` and `grade_score`. The model is pure functions over immutable data. Python strings are `seq<char>`. Python integers are unbounded `int`. The exception the parser raises is an `Err` value of a `Result`.

Modules:

- `Results`: the `Option` and `Result` types.
- `SeqFacts`: generic sequence facts that the proofs reuse.
- `PyText`: the Python string operations the core relies on, on the characters they use:
  - `str.isspace` and ASCII digits;
  - `str.strip()` and `str.split("\n")`;
  - decimal rendering of a `nat` (f-string `{n}`) and reading it back (`int()`).
- `Rubric`: a criterion and Python's list indexing `criteria[n - 1]`. Index `-1` wraps to the last entry, and an index out of range raises.
- `ResponseParser`: `parse_gpt_response`. It covers:
  - the line pattern `^(\d+):\s*(\d)`;
  - the per-line scoring step;
  - the loop over the stripped, split reply;
  - the properties of the whole reply.
- `Prompt`: `generate_evaluation_prompt`. It also has a reader for rubric lines. The reader is not part of the source. It exists so that the rendered rubric can be shown to determine each criterion's number, name and signed points.
- `Grading`: `grade_score` with its default table `A 90, B 75, C 60, D 40`, and "F" below every bound.
- `Scenarios`: concrete replies that pin down the parser's quirks, and one worked example.

The model keeps these behaviours of the code:

- Details are recorded in the order of the reply's lines, not in rubric order.
- A criterion answered twice is counted twice.
- Any verdict digit is accepted. Only `1` means applicable; `0`, `7` and every other digit mean not applicable.
- Criterion number `0` is not rejected. It selects the last criterion, because `criteria[-1]` is Python's last element.
- The `Total:` line that the prompt asks for is never read. The total is always recomputed.
- An empty threshold dict is kept, not replaced by the default table, so every score grades "F" against it.

## Model

| member | source | states |
|---|---|---|
| `ResponseParser.MatchScoreLine` | app/evaluation.py:110-112 | An accepted line has at least three characters, starts with a digit and contains a colon, and its verdict is a single digit. A line that is empty or does not start with a digit is never accepted. |
| `ResponseParser.MatchScoreLineSound` | app/evaluation.py:110-114 | A line the pattern accepts is a non-empty run of digits, then `:`, then whitespace, then one digit, then anything. The token is read from exactly those parts: the number from the digit run, leading zeros allowed, and the verdict from the single digit. |
| `ResponseParser.MatchScoreLineComplete` | app/evaluation.py:110-114 | Every line of that shape is accepted, whatever text follows the verdict digit. With the sound lemma, this characterises the pattern exactly. |
| `Rubric.Resolve` | app/evaluation.py:113-115 | The lookup `criteria[number - 1]` succeeds exactly when `1 <= number <= len(criteria)`, or when `number == 0` and the rubric is non-empty. A number in range selects entry `number - 1`. Number 0 selects the last entry. |
| `ResponseParser.ScoreLine` | app/evaluation.py:112-130 | One line of the reply does one of three things. It may leave the running result unchanged. It may append exactly one detail and keep the earlier details as they were. Or it fails, only on a matching line, with the lookup's message for that line's number: "cannot fit 'int' into an index-sized integer" when `number - 1` exceeds `sys.maxsize` (2^63 - 1), and "list index out of range" otherwise, each after the `ValueError` prefix. A line keeps "total minus the points recorded in the details" unchanged. |
| `ResponseParser.ParseLines` | app/evaluation.py:106-130 | A failure carries one of the two lookup messages. A success has total equal to 100 plus the sum of the points recorded in the details. |
| `ResponseParser.ParseResponse` | app/evaluation.py:104-130 | Scoring the stripped, split reply fails if and only if some line matches with a number that selects no criterion, and then only with one of the two lookup messages. A success totals 100 plus the per-line gains of all lines. An empty or all-whitespace reply scores 100 with no details. |
| `ResponseParser.ParseGptResponse` | app/evaluation.py:104-130 | The loop over the stripped, split reply, with its early exit on the first failing line, computes exactly the line-by-line result of the whole reply. |
| `ResponseParser.ErrorPersists` | app/evaluation.py:111-130 | Once a prefix of the reply fails, the whole reply has exactly that prefix's result, error message included. Later lines are never read. |
| `ResponseParser.FirstFailureWins` | app/evaluation.py:111-130 | When line `k` is the first line whose number selects no criterion, the reply fails with the lookup message for line `k`'s number. |
| `ResponseParser.FailsByLines` | app/evaluation.py:111-115 | Scoring fails if and only if some line matches the pattern with a number that selects no criterion. |
| `ResponseParser.TotalByLines` | app/evaluation.py:106-119 | A successful total is 100 plus, summed over every matching line, that line's criterion's points when its verdict is 1. Repeated lines count again. |
| `ResponseParser.DetailsFollowLines` | app/evaluation.py:111-126 | There is one detail per matching line, in line order. Detail `k` names the criterion selected by the `k`-th matching line. It holds that criterion's points and "該当" for verdict 1, or 0 points and "非該当" otherwise. |
| `ResponseParser.GainAppend` | app/evaluation.py:111-119 | The points gained from two blocks of lines are the sum of the points each block gains. |
| `ResponseParser.GainReorder` | app/evaluation.py:111-119 | Any permutation of the reply lines gains the same points. |
| `ResponseParser.DetailsByLines` | app/evaluation.py:111-126 | A successful reply records exactly the per-line details of its lines, concatenated in line order. |
| `ResponseParser.DetailsReorder` | app/evaluation.py:111-126 | Any permutation of the reply lines gives the same multiset of per-line details. |
| `ResponseParser.ReorderedReply` | app/evaluation.py:111-126 | A permutation of the reply lines succeeds exactly when the original does, with the same total and the same details as a multiset. Only the order of the details changes. |
| `ResponseParser.InRubricOrder` | app/evaluation.py:111-126 | Lines that answer criteria 1, 2, … in order with verdicts 1 or 0 score 100 plus the points of the applicable criteria. The details are then one per criterion, in rubric order. |
| `ResponseParser.WellFormedResponse` | app/evaluation.py:88-126 | A complete reply in the format the prompt requests scores 100 plus the points of exactly the criteria it marks applicable, whatever their signs. Such a reply is the lines `1: 1`, `2: 0`, … joined by newlines, then a `Total:` line. That line may claim any text on one line that does not end in whitespace, such as `110`, `-5` or `105点`. Its details follow rubric order, and the claimed total plays no part. |
| `ResponseParser.FormattedReplyLines` | app/evaluation.py:111 | `strip()` followed by `split("\n")` gives back exactly the lines of a reply in the requested format, `Total:` line included. |
| `PyText.LeadingDigits` | app/evaluation.py:110 | The greedy `\d+` prefix: everything before the returned position is a digit, and the next character, if any, is not. |
| `PyText.LeadingSpaces` | app/evaluation.py:110 | The greedy `\s*` prefix: everything before the returned position is whitespace, and the next character, if any, is not. |
| `PyText.Strip` | app/evaluation.py:111 | `strip()` gives the slice of the input that starts after the leading whitespace. Everything before and after that slice is whitespace, and the slice neither begins nor ends with whitespace. |
| `PyText.StripLeading` | app/evaluation.py:111 | The result is a suffix of the input. What was removed is all whitespace, and the result does not begin with whitespace. |
| `PyText.StripTrailing` | app/evaluation.py:111 | The result is a prefix of the input. What was removed is all whitespace, and the result does not end with whitespace. |
| `PyText.StripSurrounded` | app/evaluation.py:111 | `strip()` of whitespace, then a text that neither begins nor ends with whitespace, then whitespace, is exactly that text. |
| `PyText.SplitLines` | app/evaluation.py:111 | `split("\n")` gives at least one piece. No piece contains a newline, and joining the pieces with newlines rebuilds the input. |
| `PyText.SplitJoinRoundTrip` | app/evaluation.py:111 | Splitting newline-free pieces joined with newlines gives back the pieces. |
| `PyText.StripSplitJoin` | app/evaluation.py:111 | Joining non-empty, newline-free lines, stripping and splitting gives back the lines, when the first and last lines have no outer whitespace. |
| `PyText.NatToStringRoundTrip` | app/evaluation.py:85 | Reading back the decimal rendering of a natural number gives the number. |
| `Prompt.GenerateEvaluationPrompt` | app/evaluation.py:77-90 | The prompt is the preamble, then the report text verbatim, then the closing, each at its stated position and nothing else. |
| `Prompt.Preamble` | app/evaluation.py:77-78 | The preamble opens with the theme header and holds the report theme verbatim right after it. Then come the blank-line separator `\n\n` and the report-text header. |
| `Prompt.Closing` | app/evaluation.py:79-89 | The closing is the fixed instructions, then the rubric block, then the fixed format example and request. |
| `Prompt.CriterionLineRoundTrip` | app/evaluation.py:84-85 | A rubric line is read back to its number, name and signed points. The penalty or bonus label with the absolute value restores the sign. |
| `Prompt.CriterionLineLabel` | app/evaluation.py:84-85 | The label read back from a rubric line is the penalty label "減点" exactly when the criterion's points are negative. A criterion worth 0 points is labelled "加点". |
| `Prompt.CriterionLine` | app/evaluation.py:84-85 | A rubric line starts with a digit of its number, and holds a newline exactly when the criterion's name holds one. |
| `Prompt.PromptListsCriteria` | app/evaluation.py:83-85 | When no name contains a newline, the rubric block splits into one line per criterion plus a final empty line. Line `k` reads back as number `k + 1` with criterion `k`, so the numbering starts at 1. |
| `Grading.FirstReached` | app/evaluation.py:146-148 | The entry chosen is the first whose bound the score reaches. Every earlier bound is above the score. |
| `Grading.GradeScore` | app/evaluation.py:143-149 | With no table given, the default is used; a given table, even an empty one, is used as is. The grade is the label of the first entry whose inclusive bound is reached, or "F" when none is. |
| `Grading.FirstReachedMonotone` | app/evaluation.py:146-148 | A higher score never lands on a later entry of the same table. |
| `Grading.DefaultGradeBands` | app/evaluation.py:143-149 | Under the default table the grade is A from 90, B from 75, C from 60, D from 40, and F below 40. |
| `Grading.DefaultGradeBoundaries` | app/evaluation.py:143-149 | The default bounds are inclusive: 90, 89, 75, 74, 60, 59, 40 and 39 grade A, B, B, C, C, D, D and F. |
| `Grading.DefaultGradeMonotone` | app/evaluation.py:143-149 | With the default table, a higher score never gets a worse grade. |
| `Grading.EmptyTableFails` | app/evaluation.py:143-149 | An explicitly empty table is not replaced by the default, so every score grades "F". |
| `Grading.ShadowedEntry` | app/evaluation.py:146-148 | An entry whose bound is at least an earlier entry's bound is never chosen. |
| `Scenarios.TrailingTextIgnored` | app/evaluation.py:110-114 | `1: 10` reads as criterion 1 with verdict 1, because only one verdict digit is read. |
| `Scenarios.AnyDigitVerdict` | app/evaluation.py:110-114 | `3:<tab>7` is accepted as criterion 3 with verdict 7. |
| `Scenarios.LeadingZerosAccepted` | app/evaluation.py:110-113 | `02:1` reads as criterion 2 with verdict 1. |
| `Scenarios.TotalLineSkipped` | app/evaluation.py:110-112 | The `Total: 110` line does not match and is ignored. |
| `Scenarios.SpaceBeforeColonSkipped` | app/evaluation.py:110-112 | `1 : 1` does not match, so it is skipped rather than scored. |
| `Scenarios.MissingVerdictSkipped` | app/evaluation.py:110-112 | `3: x` does not match, so it is skipped rather than scored. |
| `Scenarios.RepeatedLineCountsTwice` | app/evaluation.py:111-126 | The same applicable line given twice adds the points twice and records two identical details. |
| `Scenarios.NumberZeroSelectsLast` | app/evaluation.py:113-126 | Criterion number 0 with verdict 1 scores the last criterion's points and names it. |
| `Scenarios.OtherVerdictNotApplicable` | app/evaluation.py:114-126 | A verdict other than 1 adds nothing and records 0 points, "非該当". |
| `Scenarios.EmptyRubricRejectsScoreLines` | app/evaluation.py:113-115 | With an empty rubric, any matching line fails with the lookup message for its number. |
| `Scenarios.HugeNumberCannotFit` | app/evaluation.py:113-130 | Against a one-criterion rubric, the line for number 2^63 + 1 fails with "cannot fit 'int' into an index-sized integer", because its index 2^63 exceeds `sys.maxsize`. |
| `Scenarios.LargestIndexOutOfRange` | app/evaluation.py:113-130 | Against a one-criterion rubric, the line for number 2^63 fails with "list index out of range", because its index 2^63 - 1 is exactly `sys.maxsize`. |
| `Scenarios.ZeroPointsListedAsBonus` | app/evaluation.py:84-85 | A criterion worth 0 points is listed as `2. 図表 (加点: 0点)`. |
| `Scenarios.NegativePointsListedAsPenalty` | app/evaluation.py:84-85 | A criterion worth -5 points is listed as `1. 誤字 (減点: 5点)`. |
| `Scenarios.OnlyFirstLineStripped` | app/evaluation.py:111-112 | `strip()` acts on the whole reply. The indented first line is still read, but an indented second line is skipped. |
| `Scenarios.WorkedExample` | app/evaluation.py:106-149 | With criteria (`Intro clear`, +10) and (`Typos`, -5), the reply `1: 1`, `2: 0`, `Total: 110` scores 110 with details (10, "該当") and (0, "非該当"), and 110 grades "A". |

## Left out

- `evaluate_with_langchain` is left out. It calls a remote language model over the network, which is outside any pure model. The model takes the reply text as a parameter instead.
- `load_evaluation_criteria` is left out because it is file and YAML I/O. A rubric is a sequence of `Criterion(name, points)` values instead.
- `main.py`, `pdf_processing.py` and `config.py` are not part of this model. `main.py` is a batch runner: it lists the `.pdf` files of a folder and scores each one, in sequence or on a five-worker thread pool. It turns a per-file exception into a `{filename, error}` record and writes the results to CSV. `pdf_processing.py` extracts the PDF text, and `config.py` holds the settings.
- `PyText.IsDigit` accepts ASCII digits only. Python's `\d` and `int()` also accept other Unicode decimal digits, such as full-width `１`, which the model does not cover.
- `PyText.DigitsValue` has no length limit. CPython refuses to convert more than 4300 digits with `int()`; a reply line that long is not modelled.
- `ResponseParser.ParseLines` models only the `IndexError` the lookup can raise. Criteria are typed records here, so the `KeyError` or `TypeError` a malformed dict could raise in Python cannot arise.
- `ResponseParser.LookupErrorMessage` assumes a 64-bit CPython, where `sys.maxsize` is 2^63 - 1. On a 32-bit build the bound is 2^31 - 1, which the model does not cover.
- `Rubric.Resolve` places no bound on the rubric's length. CPython cannot build a list longer than `sys.maxsize`, so an index too large for a machine word never selects a criterion there; the model's messages agree with that for every rubric that can exist.
- `Grading.GradeScore` takes the threshold table as a sequence of pairs in insertion order. A Python dict cannot hold a label twice but a sequence can; the model allows that wider input, and the first entry still wins.
- `Prompt.GenerateEvaluationPrompt` assumes criterion points are integers. The source would also format float points, which this model does not cover.
