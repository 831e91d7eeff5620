/** The rubric: an ordered list of criteria, each a name and a signed number of points. */
module Rubric {
  import opened Results

  /** One rubric entry; negative points are a penalty, others a bonus. */
  datatype Criterion = Criterion(name: string, points: int)

  /** Python's `xs[i]` on a list of length `len`: a negative position counts
      from the end, anything outside `-len .. len - 1` raises `IndexError`. */
  function PyIndex(len: nat, i: int): Option<nat> {
    if 0 <= i < len then Some(i)
    else if i < 0 && 0 <= len + i then Some(len + i)
    else None
  }

  /** The criterion a 1-based reply number selects through `criteria[number - 1]`.
      Number 0 becomes position -1 and so selects the last criterion. */
  function Resolve(criteria: seq<Criterion>, number: nat): (r: Option<nat>)
    ensures r.Some? <==> (0 < number <= |criteria| || (number == 0 && |criteria| > 0))
    ensures r.Some? ==> r.value < |criteria|
    ensures 0 < number <= |criteria| ==> r == Some(number - 1)
    ensures number == 0 && |criteria| > 0 ==> r == Some(|criteria| - 1)
  {
    PyIndex(|criteria|, number - 1)
  }
}
