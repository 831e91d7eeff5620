/** Small facts about sequence slicing, stated once so that proofs about long
    sequences can use them without re-deriving sequence equality. */
module SeqFacts {

  lemma PrefixEmpty<T>(s: seq<T>)
    ensures s[..0] == []
  {
  }

  lemma PrefixStep<T>(s: seq<T>, i: nat)
    requires i < |s|
    ensures s[..i + 1] == s[..i] + [s[i]]
  {
  }

  lemma PrefixAll<T>(s: seq<T>)
    ensures s[..|s|] == s
  {
  }

  lemma SplitLast<T>(s: seq<T>)
    requires |s| > 0
    ensures s == s[..|s| - 1] + [s[|s| - 1]]
  {
  }

  lemma PrefixIndex<T>(s: seq<T>, n: nat, k: nat)
    requires k < n <= |s|
    ensures s[..n][k] == s[k]
  {
  }

  lemma EmptyAround<T>(s: seq<T>)
    ensures [] + s + [] == s
  {
  }

  lemma ConcatParts<T>(a: seq<T>, b: seq<T>, c: seq<T>)
    ensures (a + b + c)[..|a|] == a
    ensures (a + b + c)[|a|..|a| + |b|] == b
    ensures (a + b + c)[|a| + |b|..] == c
  {
  }

  lemma Regroup<T>(a: seq<T>, b: seq<T>, c: seq<T>, d: seq<T>)
    ensures a + (b + c + d) + [] == a + b + c + d
  {
  }

  lemma SnocParts<T>(s: seq<T>, x: T)
    ensures (s + [x])[..|s|] == s
    ensures (s + [x])[|s|] == x
  {
  }

  lemma Cut<T>(s: seq<T>, i: nat)
    requires i < |s|
    ensures s == s[..i] + [s[i]] + s[i + 1..]
  {
  }

  lemma Regroup5<T>(a: seq<T>, b: seq<T>, c: seq<T>, d: seq<T>, e: seq<T>)
    ensures a + b + (c + d + e) == a + b + c + d + e
  {
  }

  /** A slice of a suffix is a slice of the whole. */
  lemma SuffixSlices<T>(s: seq<T>, i: nat, n: nat)
    requires i + n <= |s|
    ensures s[i..][..n] == s[i..i + n]
    ensures s[i..][n..] == s[i + n..]
  {
  }

  /** Removing the element at `p` removes one occurrence from the multiset. */
  lemma RemoveAt<T>(s: seq<T>, p: nat)
    requires p < |s|
    ensures s == s[..p] + [s[p]] + s[p + 1..]
    ensures multiset(s[..p] + s[p + 1..]) == multiset(s) - multiset{s[p]}
  {
    assert s == s[..p] + [s[p]] + s[p + 1..];
    assert multiset(s) == multiset(s[..p]) + multiset{s[p]} + multiset(s[p + 1..]);
  }

  /** Two sequences with equal multisets: the last element of the first occurs
      in the second, and removing it from both leaves equal multisets. */
  lemma RemoveMatch<T>(a: seq<T>, b: seq<T>) returns (p: nat)
    requires |a| > 0 && multiset(a) == multiset(b)
    ensures p < |b| && b[p] == a[|a| - 1]
    ensures b == b[..p] + [b[p]] + b[p + 1..]
    ensures multiset(a[..|a| - 1]) == multiset(b[..p] + b[p + 1..])
  {
    var last := |a| - 1;
    RemoveAt(a, last);
    assert a[last + 1..] == [];
    assert a[..last] + a[last + 1..] == a[..last];
    assert a[last] in multiset(b);
    p :| 0 <= p < |b| && b[p] == a[last];
    RemoveAt(b, p);
  }
}
