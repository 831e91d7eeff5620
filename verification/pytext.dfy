/** The Python string primitives the scoring pipeline relies on: whitespace and
    decimal-digit classes, `str.strip()`, `str.split("\n")`, `int()` on a run of
    digits, and the decimal rendering an f-string gives a non-negative int. */
module PyText {
  import opened SeqFacts


  /** Python's `str.isspace()`: the characters `str.strip()` removes and the
      regular-expression class `\s` matches in a `str` pattern. */
  predicate IsSpace(c: char) {
    || ('\t' <= c <= '\r')
    || ('\U{001C}' <= c <= '\U{001F}')
    || c == ' '
    || c == '\U{0085}'
    || c == '\U{00A0}'
    || c == '\U{1680}'
    || ('\U{2000}' <= c <= '\U{200A}')
    || c == '\U{2028}'
    || c == '\U{2029}'
    || c == '\U{202F}'
    || c == '\U{205F}'
    || c == '\U{3000}'
  }

  /** An ASCII decimal digit (the `\d` class restricted to ASCII). */
  predicate IsDigit(c: char) {
    '0' <= c <= '9'
  }

  predicate AllDigits(s: string) {
    forall i :: 0 <= i < |s| ==> IsDigit(s[i])
  }

  predicate AllSpace(s: string) {
    forall i :: 0 <= i < |s| ==> IsSpace(s[i])
  }

  function DigitValue(c: char): (d: nat)
    requires IsDigit(c)
    ensures d < 10
  {
    c as int - '0' as int
  }

  function DigitChar(d: nat): (c: char)
    requires d < 10
    ensures IsDigit(c) && DigitValue(c) == d
  {
    (d + '0' as int) as char
  }

  /** How many digits a greedy `\d+` (or `\d*`) consumes at the start of `s`. */
  function LeadingDigits(s: string): (n: nat)
    ensures n <= |s|
    ensures AllDigits(s[..n])
    ensures n < |s| ==> !IsDigit(s[n])
  {
    if |s| == 0 || !IsDigit(s[0]) then 0
    else
      var n := 1 + LeadingDigits(s[1..]);
      assert s[..n] == [s[0]] + s[1..][..n - 1];
      n
  }

  /** How much whitespace a greedy `\s*` consumes at the start of `s`. */
  function LeadingSpaces(s: string): (n: nat)
    ensures n <= |s|
    ensures AllSpace(s[..n])
    ensures n < |s| ==> !IsSpace(s[n])
  {
    if |s| == 0 || !IsSpace(s[0]) then 0
    else
      var n := 1 + LeadingSpaces(s[1..]);
      assert s[..n] == [s[0]] + s[1..][..n - 1];
      n
  }

  /** How many digits end `s`. */
  function TrailingDigits(s: string): (n: nat)
    ensures n <= |s|
    ensures AllDigits(s[|s| - n..])
    ensures n < |s| ==> !IsDigit(s[|s| - n - 1])
  {
    if |s| == 0 || !IsDigit(s[|s| - 1]) then 0
    else
      var n := 1 + TrailingDigits(s[..|s| - 1]);
      assert s[|s| - n..] == s[..|s| - 1][|s| - n..] + [s[|s| - 1]];
      n
  }

  /** How much whitespace ends `s`. */
  function TrailingSpaces(s: string): (n: nat)
    ensures n <= |s|
    ensures AllSpace(s[|s| - n..])
    ensures n < |s| ==> !IsSpace(s[|s| - n - 1])
  {
    if |s| == 0 || !IsSpace(s[|s| - 1]) then 0
    else
      var n := 1 + TrailingSpaces(s[..|s| - 1]);
      assert s[|s| - n..] == s[..|s| - 1][|s| - n..] + [s[|s| - 1]];
      n
  }

  /** Digits followed by a non-digit: the greedy run stops exactly there. */
  lemma {:induction false} LeadingDigitsOf(a: string, b: string)
    requires AllDigits(a)
    requires |b| > 0 && !IsDigit(b[0])
    ensures LeadingDigits(a + b) == |a|
  {
    if |a| > 0 {
      assert (a + b)[1..] == a[1..] + b;
      LeadingDigitsOf(a[1..], b);
    }
  }

  /** Whitespace followed by a non-space or by nothing: the greedy run stops
      exactly there. */
  lemma {:induction false} LeadingSpacesOf(a: string, b: string)
    requires AllSpace(a)
    requires b == [] || !IsSpace(b[0])
    ensures LeadingSpaces(a + b) == |a|
  {
    if |a| > 0 {
      assert (a + b)[1..] == a[1..] + b;
      LeadingSpacesOf(a[1..], b);
    }
  }

  /** A non-digit followed by digits: the trailing run is exactly those digits. */
  lemma {:induction false} TrailingDigitsOf(a: string, b: string)
    requires AllDigits(b)
    requires |a| > 0 && !IsDigit(a[|a| - 1])
    ensures TrailingDigits(a + b) == |b|
  {
    if |b| > 0 {
      assert (a + b)[..|a + b| - 1] == a + b[..|b| - 1];
      TrailingDigitsOf(a, b[..|b| - 1]);
    }
  }

  /** Python's `int()` applied to a non-empty run of ASCII digits (leading zeros allowed). */
  function DigitsValue(s: string): nat
    requires AllDigits(s)
  {
    if |s| == 0 then 0 else DigitsValue(s[..|s| - 1]) * 10 + DigitValue(s[|s| - 1])
  }

  /** The decimal text an f-string produces for a non-negative int. */
  function NatToString(n: nat): (s: string)
    ensures |s| > 0 && AllDigits(s)
    ensures n > 0 ==> s[0] != '0'
  {
    if n < 10 then [DigitChar(n)] else NatToString(n / 10) + [DigitChar(n % 10)]
  }

  /** Reading back the rendered decimal gives the number: rendering loses nothing. */
  lemma {:induction false} NatToStringRoundTrip(n: nat)
    ensures DigitsValue(NatToString(n)) == n
  {
    if n >= 10 {
      var s := NatToString(n);
      assert s[..|s| - 1] == NatToString(n / 10);
      NatToStringRoundTrip(n / 10);
    }
  }

  /** Python's `s.lstrip()`: drops the leading whitespace. */
  function StripLeading(s: string): (r: string)
    ensures |r| <= |s| && r == s[|s| - |r|..]
    ensures AllSpace(s[..|s| - |r|])
    ensures r == [] || !IsSpace(r[0])
  {
    s[LeadingSpaces(s)..]
  }

  /** Python's `s.rstrip()`: drops the trailing whitespace. */
  function StripTrailing(s: string): (r: string)
    ensures |r| <= |s| && r == s[..|r|]
    ensures AllSpace(s[|r|..])
    ensures r == [] || !IsSpace(r[|r| - 1])
  {
    s[..|s| - TrailingSpaces(s)]
  }

  /** Python's `s.strip()` with no argument: the part of `s` between its
      leading and its trailing whitespace. */
  function Strip(s: string): (r: string)
    ensures LeadingSpaces(s) + |r| <= |s|
    ensures r == s[LeadingSpaces(s)..LeadingSpaces(s) + |r|]
    ensures AllSpace(s[..LeadingSpaces(s)]) && AllSpace(s[LeadingSpaces(s) + |r|..])
    ensures r == [] || (!IsSpace(r[0]) && !IsSpace(r[|r| - 1]))
  {
    var i := LeadingSpaces(s);
    var r := StripTrailing(s[i..]);
    SuffixSlices(s, i, |r|);
    r
  }

  /** `strip()` removes exactly the surrounding whitespace: whatever whitespace
      surrounds a text that neither begins nor ends with whitespace, stripping
      gives that text back. */
  lemma StripSurrounded(lead: string, mid: string, trail: string)
    requires AllSpace(lead) && AllSpace(trail)
    requires mid == [] || (!IsSpace(mid[0]) && !IsSpace(mid[|mid| - 1]))
    ensures Strip(lead + mid + trail) == mid
  {
    if mid == [] {
      assert lead + mid + trail == (lead + trail) + [];
      StripLeadingOf(lead + trail, []);
      StripTrailingOf([], []);
    } else {
      StripLeadingOf(lead, mid + trail);
      assert (lead + mid + trail) == lead + (mid + trail);
      StripTrailingOf(mid, trail);
    }
  }

  lemma StripLeadingOf(lead: string, rest: string)
    requires AllSpace(lead)
    requires rest == [] || !IsSpace(rest[0])
    ensures StripLeading(lead + rest) == rest
  {
    LeadingSpacesOf(lead, rest);
    assert (lead + rest)[|lead|..] == rest;
  }

  lemma StripTrailingOf(rest: string, trail: string)
    requires AllSpace(trail)
    requires rest == [] || !IsSpace(rest[|rest| - 1])
    ensures StripTrailing(rest + trail) == rest
  {
    TrailingSpacesOf(rest, trail);
    assert (rest + trail)[..|rest|] == rest;
  }

  /** Whitespace preceded by a non-space or by nothing: the trailing run is
      exactly that whitespace. */
  lemma {:induction false} TrailingSpacesOf(a: string, b: string)
    requires AllSpace(b)
    requires a == [] || !IsSpace(a[|a| - 1])
    ensures TrailingSpaces(a + b) == |b|
  {
    if |b| > 0 {
      assert (a + b)[..|a + b| - 1] == a + b[..|b| - 1];
      TrailingSpacesOf(a, b[..|b| - 1]);
    } else {
      assert a + b == a;
    }
  }

  /** The pieces joined back with `"\n"` between them: the inverse of `SplitLines`. */
  function JoinLines(pieces: seq<string>): string
    requires |pieces| > 0
  {
    if |pieces| == 1 then pieces[0] else pieces[0] + "\n" + JoinLines(pieces[1..])
  }

  /** Python's `s.split("\n")`: always at least one piece, pieces hold no newline,
      and joining them with newlines rebuilds `s`. */
  function SplitLines(s: string): (pieces: seq<string>)
    ensures |pieces| > 0
    ensures forall k :: 0 <= k < |pieces| ==> '\n' !in pieces[k]
    ensures JoinLines(pieces) == s
  {
    if |s| == 0 then [""]
    else if s[0] == '\n' then
      var rest := SplitLines(s[1..]);
      assert s == "\n" + s[1..];
      [""] + rest
    else
      var rest := SplitLines(s[1..]);
      var pieces := [[s[0]] + rest[0]] + rest[1..];
      assert pieces[1..] == rest[1..];
      assert s == [s[0]] + s[1..];
      pieces
  }

  /** A newline-free first piece comes off `split("\n")` on its own. */
  lemma {:induction false} SplitLinesCons(x: string, y: string)
    requires '\n' !in x
    ensures SplitLines(x + "\n" + y) == [x] + SplitLines(y)
  {
    if |x| == 0 {
      assert x + "\n" + y == "\n" + y;
      assert ("\n" + y)[1..] == y;
    } else {
      assert (x + "\n" + y)[1..] == x[1..] + "\n" + y;
      assert x == [x[0]] + x[1..];
      SplitLinesCons(x[1..], y);
    }
  }

  /** A text without newline splits into itself alone. */
  lemma {:induction false} SplitLinesSingle(x: string)
    requires '\n' !in x
    ensures SplitLines(x) == [x]
  {
    if |x| > 0 {
      assert x == [x[0]] + x[1..];
      SplitLinesSingle(x[1..]);
    }
  }

  /** Splitting undoes joining, as long as no piece holds a newline. */
  lemma {:induction false} SplitJoinRoundTrip(pieces: seq<string>)
    requires |pieces| > 0
    requires forall k :: 0 <= k < |pieces| ==> '\n' !in pieces[k]
    ensures SplitLines(JoinLines(pieces)) == pieces
  {
    if |pieces| == 1 {
      SplitLinesSingle(pieces[0]);
    } else {
      SplitJoinRoundTrip(pieces[1..]);
      SplitLinesCons(pieces[0], JoinLines(pieces[1..]));
      assert pieces == [pieces[0]] + pieces[1..];
    }
  }

  /** The joined text begins with the first piece and ends with the last one. */
  lemma {:induction false} JoinLinesEnds(pieces: seq<string>)
    requires |pieces| > 0
    requires forall k :: 0 <= k < |pieces| ==> |pieces[k]| > 0
    ensures var text := JoinLines(pieces);
            && |text| > 0
            && text[0] == pieces[0][0]
            && text[|text| - 1] == pieces[|pieces| - 1][|pieces[|pieces| - 1]| - 1]
  {
    if |pieces| > 1 {
      JoinLinesEnds(pieces[1..]);
    }
  }

  /** Lines that do not start or end the text with whitespace come through
      `strip().split("\n")` exactly as they were joined. */
  lemma StripSplitJoin(pieces: seq<string>)
    requires |pieces| > 0
    requires forall k :: 0 <= k < |pieces| ==> |pieces[k]| > 0 && '\n' !in pieces[k]
    requires !IsSpace(pieces[0][0])
    requires !IsSpace(pieces[|pieces| - 1][|pieces[|pieces| - 1]| - 1])
    ensures SplitLines(Strip(JoinLines(pieces))) == pieces
  {
    var text := JoinLines(pieces);
    JoinLinesEnds(pieces);
    StripUnchanged(text);
    SplitJoinRoundTrip(pieces);
  }

  /** A text that neither starts nor ends with whitespace is left as it is. */
  lemma StripUnchanged(s: string)
    requires |s| > 0 && !IsSpace(s[0]) && !IsSpace(s[|s| - 1])
    ensures Strip(s) == s
  {
    StripSurrounded("", s, "");
    EmptyAround(s);
  }

  /** The pieces, each followed by a newline: text built by appending one
      `"...\n"` line at a time. */
  function Terminated(pieces: seq<string>): string {
    if |pieces| == 0 then "" else pieces[0] + "\n" + Terminated(pieces[1..])
  }

  /** Splitting newline-terminated lines gives the lines back, plus the empty
      piece after the final newline. */
  lemma {:induction false} SplitTerminated(pieces: seq<string>)
    requires forall k :: 0 <= k < |pieces| ==> '\n' !in pieces[k]
    ensures SplitLines(Terminated(pieces)) == pieces + [""]
  {
    if |pieces| == 0 {
      assert SplitLines("") == [""];
    } else {
      SplitTerminated(pieces[1..]);
      SplitLinesCons(pieces[0], Terminated(pieces[1..]));
      assert pieces == [pieces[0]] + pieces[1..];
    }
  }
}
