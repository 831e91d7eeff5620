/** The letter grade for a total score: the first entry of an ordered
    threshold table whose bound the score reaches, or "F" when none is
    reached. */
module Grading {
  import opened Results

  /** A threshold table: grade labels with their inclusive lower bounds, in the
      order the table was written (a Python dict keeps insertion order). */
  type Thresholds = seq<(string, int)>

  /** The table used when the caller passes none. */
  const DefaultThresholds: Thresholds := [("A", 90), ("B", 75), ("C", 60), ("D", 40)]

  /** The grade for a score that reaches no bound. */
  const FailingGrade: string := "F"

  /** The position of the first entry whose bound the score reaches, or the
      table's length when it reaches none. */
  function FirstReached(score: int, table: Thresholds): (i: nat)
    ensures i <= |table|
    ensures forall j :: 0 <= j < i ==> score < table[j].1
    ensures i < |table| ==> table[i].1 <= score
    decreases |table|
  {
    if |table| == 0 then 0
    else if score >= table[0].1 then 0
    else 1 + FirstReached(score, table[1..])
  }

  /** `grade_score`: `None` selects the default table; an explicitly empty
      table is not replaced, so every score then fails. Entries are tried in
      order and the bounds are inclusive; a later entry never overrides an
      earlier one. */
  function GradeScore(totalScore: int, thresholds: Option<Thresholds>): (grade: string)
    ensures var table := thresholds.GetOr(DefaultThresholds);
            (forall j :: 0 <= j < |table| ==> totalScore < table[j].1) ==> grade == FailingGrade
    ensures var table := thresholds.GetOr(DefaultThresholds);
            forall i :: 0 <= i < |table| && table[i].1 <= totalScore
                        && (forall j :: 0 <= j < i ==> totalScore < table[j].1)
                        ==> grade == table[i].0
  {
    var table := thresholds.GetOr(DefaultThresholds);
    var i := FirstReached(totalScore, table);
    if i < |table| then table[i].0 else FailingGrade
  }

  /** A higher score never lands on a later entry of the same table. */
  lemma {:induction false} FirstReachedMonotone(table: Thresholds, low: int, high: int)
    requires low <= high
    ensures FirstReached(high, table) <= FirstReached(low, table)
    decreases |table|
  {
    if |table| > 0 && high < table[0].1 {
      FirstReachedMonotone(table[1..], low, high);
    }
  }

  /** The grade of the default table in closed form: the bands
      [90, ∞), [75, 90), [60, 75), [40, 60) and below 40. */
  lemma DefaultGradeBands(score: int)
    ensures GradeScore(score, None) ==
      if score >= 90 then "A"
      else if score >= 75 then "B"
      else if score >= 60 then "C"
      else if score >= 40 then "D"
      else "F"
  {
  }

  /** The boundaries of the default table are inclusive. */
  lemma DefaultGradeBoundaries()
    ensures GradeScore(90, None) == "A" && GradeScore(89, None) == "B"
    ensures GradeScore(75, None) == "B" && GradeScore(74, None) == "C"
    ensures GradeScore(60, None) == "C" && GradeScore(59, None) == "D"
    ensures GradeScore(40, None) == "D" && GradeScore(39, None) == "F"
  {
    DefaultGradeBands(90);
    DefaultGradeBands(89);
    DefaultGradeBands(75);
    DefaultGradeBands(74);
    DefaultGradeBands(60);
    DefaultGradeBands(59);
    DefaultGradeBands(40);
    DefaultGradeBands(39);
  }

  /** The position of a default grade from best to worst. */
  function DefaultRank(grade: string): nat {
    if grade == "A" then 0
    else if grade == "B" then 1
    else if grade == "C" then 2
    else if grade == "D" then 3
    else 4
  }

  /** The rank of a default grade is the position of the entry that gave it. */
  lemma DefaultRankIsPosition(score: int)
    ensures DefaultRank(GradeScore(score, None)) == FirstReached(score, DefaultThresholds)
  {
    DefaultGradeBands(score);
  }

  /** With the default table, raising the score never gives a worse grade. */
  lemma DefaultGradeMonotone(low: int, high: int)
    requires low <= high
    ensures DefaultRank(GradeScore(high, None)) <= DefaultRank(GradeScore(low, None))
  {
    DefaultRankIsPosition(low);
    DefaultRankIsPosition(high);
    FirstReachedMonotone(DefaultThresholds, low, high);
  }

  /** An explicitly empty table is kept, not replaced by the default, so
      every score fails against it. */
  lemma EmptyTableFails(score: int)
    ensures GradeScore(score, Some([])) == FailingGrade
  {
  }

  /** An entry whose bound is at least an earlier entry's bound is never
      chosen: every score that reaches it reaches the earlier entry first. */
  lemma ShadowedEntry(table: Thresholds, score: int, i: nat, j: nat)
    requires j < i < |table| && table[j].1 <= table[i].1
    ensures FirstReached(score, table) != i
  {
  }
}
