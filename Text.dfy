/** Facts about strings (sequences of characters) used to state what the
    generated SQL text looks like. */
module Text {

  /** `p` is a prefix of `s`. */
  predicate StartsWith(s: string, p: string) {
    |p| <= |s| && s[..|p|] == p
  }

  /** `sub` occurs in `s` starting at position `i`. */
  predicate OccursAt(s: string, sub: string, i: int) {
    0 <= i && i + |sub| <= |s| && s[i..i + |sub|] == sub
  }

  /** `sub` occurs somewhere in `s`. */
  predicate Contains(s: string, sub: string) {
    exists i | 0 <= i <= |s| - |sub| :: OccursAt(s, sub, i)
  }

  /** A string contains whatever one of its pieces contains. */
  lemma ContainsInMiddle(a: string, sub: string, b: string)
    ensures Contains(a + sub + b, sub)
  {
    var s := a + sub + b;
    assert s[|a|..|a| + |sub|] == sub;
    assert OccursAt(s, sub, |a|);
  }

  /** A string contains whatever its prefix contains. */
  lemma PrefixContains(s: string, a: string, sub: string, b: string)
    requires StartsWith(s, a + sub + b)
    ensures Contains(s, sub)
  {
    var p := a + sub + b;
    assert p[|a|..|a| + |sub|] == sub;
    assert s[|a|..|a| + |sub|] == p[|a|..|a| + |sub|];
    assert OccursAt(s, sub, |a|);
  }

  /** A string starts with its first piece. */
  lemma StartsWithAppend(p: string, q: string)
    ensures StartsWith(p + q, p)
  {
    assert (p + q)[..|p|] == p;
  }

  /** A prefix of a prefix is a prefix. */
  lemma StartsWithTransitive(s: string, p: string, q: string)
    requires StartsWith(s, p) && StartsWith(p, q)
    ensures StartsWith(s, q)
  {
    assert s[..|q|] == s[..|p|][..|q|];
  }

  /** What a string starts with, it still starts with after more is appended. */
  lemma StartsWithExtend(s: string, p: string, q: string)
    requires StartsWith(s, p)
    ensures StartsWith(s + q, p)
  {
    assert (s + q)[..|p|] == s[..|p|];
  }

  lemma StartsWithConcat(p: string, q: string, r: string)
    ensures StartsWith(p + q + r, p)
    ensures StartsWith(p + q + r, p + q)
  {
    assert (p + q + r)[..|p|] == p;
    assert (p + q + r)[..|p + q|] == p + q;
  }

  /** Two strings with a common prefix are equal exactly when what follows
      the prefix is equal. */
  lemma SuffixInjective(p: string, x: string, y: string)
    ensures p + x == p + y <==> x == y
  {
    if p + x == p + y {
      assert (p + x)[|p|..] == x;
      assert (p + y)[|p|..] == y;
    }
  }

  /** Concatenation regroups; stated on plain strings so that callers can
      regroup long texts without the solver looking inside them. */
  lemma AppendAssoc(x: string, y: string, z: string)
    ensures x + y + z == x + (y + z)
  {
  }

  /** The middle of three concatenated strings. */
  lemma SliceMiddle(x: string, y: string, z: string)
    ensures (x + y + z)[|x|..|x| + |y|] == y
  {
  }
}
