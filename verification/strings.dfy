/** String helpers mirroring the Python `str` methods the chatbot relies on:
    `strip`, `in`, `split(sep)[-1]`, `replace`, `join`, `split`, `lower`, and
    the code-point ordering Python uses to compare strings. */
module Strings {

  import opened Outcomes

  /** Python's `str.isspace` for a single character: the fixed set of
      Unicode whitespace code points that `str.strip()` removes. */
  predicate IsSpace(c: char) {
    || c == ' ' || c == '\t' || c == '\n' || c == '\r'
    || c == '\U{0B}' || c == '\U{0C}'
    || c == '\U{1C}' || c == '\U{1D}' || c == '\U{1E}' || c == '\U{1F}'
    || c == '\U{85}' || c == '\U{A0}' || c == '\U{1680}'
    || ('\U{2000}' <= c <= '\U{200A}')
    || c == '\U{2028}' || c == '\U{2029}' || c == '\U{202F}'
    || c == '\U{205F}' || c == '\U{3000}'
  }

  predicate AllSpace(s: string) {
    forall i :: 0 <= i < |s| ==> IsSpace(s[i])
  }

  /** No whitespace at either end, the shape every `strip()` result has. */
  predicate Trimmed(s: string) {
    |s| == 0 || (!IsSpace(s[0]) && !IsSpace(s[|s| - 1]))
  }

  function TrimStart(s: string): (r: string)
    ensures |r| <= |s| && r == s[|s| - |r|..]
    ensures AllSpace(s[..|s| - |r|])
    ensures |r| == 0 || !IsSpace(r[0])
  {
    if |s| > 0 && IsSpace(s[0]) then TrimStart(s[1..]) else s
  }

  function TrimEnd(s: string): (r: string)
    ensures |r| <= |s| && r == s[..|r|]
    ensures AllSpace(s[|r|..])
    ensures |r| == 0 || !IsSpace(r[|r| - 1])
  {
    if |s| > 0 && IsSpace(s[|s| - 1]) then TrimEnd(s[..|s| - 1]) else s
  }

  /** Python's `s.strip()`: the middle slice of `s` left after removing the
      whitespace at both ends. */
  function Strip(s: string): (r: string)
    ensures Trimmed(r)
    ensures exists i, j :: 0 <= i <= j <= |s| && r == s[i..j] && AllSpace(s[..i]) && AllSpace(s[j..])
  {
    var t := TrimStart(s);
    var r := TrimEnd(t);
    var i := |s| - |t|;
    assert r == s[i..i + |r|];
    assert AllSpace(s[i + |r|..]) by {
      assert s[i + |r|..] == t[|r|..];
    }
    r
  }

  lemma StripTrimmed(s: string)
    requires Trimmed(s)
    ensures Strip(s) == s
  {
    if |s| > 0 {
      assert TrimStart(s) == s;
      assert TrimEnd(s) == s;
    }
  }

  /** `p` occurs in `s` starting at index `i`. */
  predicate OccursAt(s: string, p: string, i: nat) {
    i + |p| <= |s| && s[i..i + |p|] == p
  }

  /** A slice of a suffix is a slice of the whole. */
  lemma SliceOfSuffix(s: string, a: nat, i: nat, j: nat)
    requires a <= |s| && i <= j <= |s| - a
    ensures s[a..][i..j] == s[a + i..a + j]
  {
    var u, v := s[a..][i..j], s[a + i..a + j];
    forall m | 0 <= m < |u| ensures u[m] == v[m] {
      assert u[m] == s[a..][i + m] == s[a + i + m];
    }
  }

  /** A suffix of a suffix is a suffix of the whole. */
  lemma SuffixOfSuffix(s: string, a: nat, i: nat)
    requires a <= |s| && i <= |s| - a
    ensures s[a..][i..] == s[a + i..]
  {
  }

  /** Python's `p in s`. */
  predicate Contains(s: string, p: string) {
    exists i: nat | i <= |s| :: OccursAt(s, p, i)
  }

  /** An occurrence in a suffix is an occurrence in the whole. */
  lemma ContainsSuffix(s: string, a: nat, p: string)
    requires a <= |s| && Contains(s[a..], p)
    ensures Contains(s, p)
  {
    var k: nat :| k <= |s[a..]| && OccursAt(s[a..], p, k);
    SliceOfSuffix(s, a, k, k + |p|);
    assert OccursAt(s, p, a + k);
  }

  /** An occurrence in a prefix is an occurrence in the whole. */
  lemma ContainsPrefix(a: string, b: string, p: string)
    requires Contains(a, p)
    ensures Contains(a + b, p)
  {
    var k: nat :| k <= |a| && OccursAt(a, p, k);
    assert (a + b)[k..k + |p|] == a[k..k + |p|];
    assert OccursAt(a + b, p, k);
  }

  /** An occurrence in the second part is an occurrence in the whole. */
  lemma ContainsAfter(a: string, b: string, p: string)
    requires Contains(b, p)
    ensures Contains(a + b, p)
  {
    assert (a + b)[|a|..] == b;
    ContainsSuffix(a + b, |a|, p);
  }

  /** Every character of a substring occurs in the string. */
  lemma ContainsChar(s: string, p: string, c: char)
    requires Contains(s, p) && c in p
    ensures c in s
  {
    var k: nat :| k <= |s| && OccursAt(s, p, k);
    var m :| 0 <= m < |p| && p[m] == c;
    assert s[k..k + |p|][m] == s[k + m];
  }

  /** The leftmost occurrence of `p` in `s`, as `str.find` computes it. */
  function IndexOf(s: string, p: string): (r: Option<nat>)
    ensures r.Some? ==> OccursAt(s, p, r.value)
    ensures r.Some? ==> forall k: nat :: k < r.value ==> !OccursAt(s, p, k)
    ensures r.None? <==> !Contains(s, p)
    decreases |s|
  {
    if |p| > |s| then
      assert forall k: nat :: !OccursAt(s, p, k);
      None
    else if s[..|p|] == p then
      assert OccursAt(s, p, 0);
      Some(0)
    else
      match IndexOf(s[1..], p)
      case None =>
        forall k: nat | k > 0 ensures !OccursAt(s, p, k) {
          OccursShift(s, p, k);
        }
        None
      case Some(j) =>
        OccursShift(s, p, j + 1);
        forall k: nat | 0 < k < j + 1 ensures !OccursAt(s, p, k) {
          OccursShift(s, p, k);
        }
        Some(j + 1)
  }

  /** Past the first character, occurrences in `s` are those in `s[1..]`,
      one position later. */
  lemma OccursShift(s: string, p: string, k: nat)
    requires 0 < k && |s| > 0
    ensures OccursAt(s, p, k) <==> OccursAt(s[1..], p, k - 1)
  {
    if k + |p| <= |s| {
      assert s[1..][k - 1..k - 1 + |p|] == s[k..k + |p|];
    }
  }

  /** A substring of a string free of `p` is free of `p`. */
  lemma NotContainsSlice(s: string, p: string, i: nat, j: nat)
    requires i <= j <= |s|
    requires !Contains(s, p)
    ensures !Contains(s[i..j], p)
  {
    forall k: nat | k <= j - i && OccursAt(s[i..j], p, k) ensures OccursAt(s, p, i + k) {
      OccursInSlice(s, p, i, j, k);
    }
  }

  /** An occurrence in a substring is an occurrence in the whole string. */
  lemma OccursInSlice(s: string, p: string, i: nat, j: nat, k: nat)
    requires i <= j <= |s| && OccursAt(s[i..j], p, k)
    ensures OccursAt(s, p, i + k)
  {
    var t := s[i..j];
    var u, v := t[k..k + |p|], s[i + k..i + k + |p|];
    forall m | 0 <= m < |p| ensures u[m] == v[m] {
      assert t[k + m] == s[i + k + m];
    }
    assert u == v;
  }

  /** Python's `s.split(p)[-1]` for a non-empty separator: the text after the
      last occurrence found by the left-to-right, non-overlapping scan of
      `split`, or all of `s` when `p` does not occur. */
  function AfterLast(s: string, p: string): (r: string)
    requires |p| > 0
    ensures SplitTail(s, p, r)
    decreases |s|
  {
    match IndexOf(s, p)
    case None =>
      assert s[|s| - |s|..] == s;
      s
    case Some(i) =>
      var r := AfterLast(s[i + |p|..], p);
      LastOccurrence(s, p, i, r);
      r
  }

  /** `r` can be the last piece of `s.split(p)`: a suffix of `s` free of
      `p`, all of `s` when `p` does not occur, and otherwise the text right
      after an occurrence of `p`. */
  predicate SplitTail(s: string, p: string, r: string) {
    && |r| <= |s| && r == s[|s| - |r|..]
    && !Contains(r, p)
    && (!Contains(s, p) ==> r == s)
    && (Contains(s, p) ==> FollowsOccurrence(s, p, r))
  }

  /** `r` is what follows an occurrence of `p` at the end of `s`. */
  predicate FollowsOccurrence(s: string, p: string, r: string) {
    |r| + |p| <= |s| && OccursAt(s, p, |s| - |r| - |p|)
  }

  /** What the scan keeps after the occurrence at `i` is a tail of `s`
      that follows an occurrence: the one at `i` when nothing follows it,
      otherwise the one the rest of the scan found. */
  lemma LastOccurrence(s: string, p: string, i: nat, r: string)
    requires OccursAt(s, p, i)
    requires SplitTail(s[i + |p|..], p, r)
    ensures SplitTail(s, p, r)
  {
    var t := s[i + |p|..];
    assert t[|t| - |r|..] == s[|s| - |r|..];
    assert Contains(s, p);
    if Contains(t, p) {
      assert s[i + |p|..|s|] == t;
      OccursInSlice(s, p, i + |p|, |s|, |t| - |r| - |p|);
    }
  }

  /** Python's `s.replace(a, b)` for single characters. */
  function ReplaceChar(s: string, a: char, b: char): (r: string)
    ensures |r| == |s|
    ensures forall i :: 0 <= i < |s| ==> r[i] == (if s[i] == a then b else s[i])
  {
    if |s| == 0 then [] else ReplaceChar(s[..|s| - 1], a, b) + [if s[|s| - 1] == a then b else s[|s| - 1]]
  }

  predicate NoChar(s: string, c: char) {
    forall i :: 0 <= i < |s| ==> s[i] != c
  }

  /** Python's `sep.join(xs)` for a one-character separator. */
  function Join(xs: seq<string>, sep: char): string {
    if |xs| == 0 then []
    else if |xs| == 1 then xs[0]
    else xs[0] + [sep] + Join(xs[1..], sep)
  }

  /** Python's `s.split(sep)` for a one-character separator: always at least
      one piece, the pieces between consecutive separators. */
  function Split(s: string, sep: char): (r: seq<string>)
    ensures |r| >= 1
    ensures forall k :: 0 <= k < |r| ==> NoChar(r[k], sep)
    decreases |s|
  {
    if |s| == 0 then [[]]
    else if s[0] == sep then [[]] + Split(s[1..], sep)
    else
      var rest := Split(s[1..], sep);
      [[s[0]] + rest[0]] + rest[1..]
  }

  lemma {:induction false} SplitNoSep(s: string, sep: char)
    requires NoChar(s, sep)
    ensures Split(s, sep) == [s]
    decreases |s|
  {
    if |s| > 0 {
      SplitNoSep(s[1..], sep);
      assert [s[0]] + s[1..] == s;
    }
  }

  lemma {:induction false} SplitAppend(a: string, sep: char, b: string)
    requires NoChar(a, sep)
    ensures Split(a + [sep] + b, sep) == [a] + Split(b, sep)
    decreases |a|
  {
    if |a| == 0 {
      assert a + [sep] + b == [sep] + b;
      assert ([sep] + b)[1..] == b;
    } else {
      assert (a + [sep] + b)[1..] == a[1..] + [sep] + b;
      SplitAppend(a[1..], sep, b);
      assert [a[0]] + a[1..] == a;
    }
  }

  /** Splitting a join on its separator gives back the pieces, provided none
      of them contains the separator. */
  lemma {:induction false} SplitJoin(xs: seq<string>, sep: char)
    requires |xs| >= 1
    requires forall k :: 0 <= k < |xs| ==> NoChar(xs[k], sep)
    ensures Split(Join(xs, sep), sep) == xs
    decreases |xs|
  {
    if |xs| == 1 {
      SplitNoSep(xs[0], sep);
    } else {
      SplitJoin(xs[1..], sep);
      SplitAppend(xs[0], sep, Join(xs[1..], sep));
      assert [xs[0]] + xs[1..] == xs;
    }
  }

  /** Joining the pieces of a split on the separator gives back the text:
      `sep.join(s.split(sep)) == s`. */
  lemma {:induction false} JoinSplit(s: string, sep: char)
    ensures Join(Split(s, sep), sep) == s
    decreases |s|
  {
    if |s| > 0 {
      var rest := Split(s[1..], sep);
      JoinSplit(s[1..], sep);
      if s[0] == sep {
        assert Split(s, sep) == [[]] + rest;
        assert ([[]] + rest)[1..] == rest;
        assert [sep] + s[1..] == s;
      } else {
        var r := Split(s, sep);
        assert r == [[s[0]] + rest[0]] + rest[1..];
        if |rest| > 1 {
          assert r[1..] == rest[1..];
          assert Join(rest, sep) == rest[0] + [sep] + Join(rest[1..], sep);
          assert Join(r, sep) == [s[0]] + Join(rest, sep);
        }
        assert [s[0]] + s[1..] == s;
      }
    }
  }

  /** Python's `str.lower()` restricted to ASCII letters. */
  function LowerChar(c: char): char {
    if 'A' <= c <= 'Z' then (c as int - 'A' as int + 'a' as int) as char else c
  }

  function Lower(s: string): (r: string)
    ensures |r| == |s|
    ensures forall i :: 0 <= i < |s| ==> r[i] == LowerChar(s[i])
  {
    seq(|s|, i requires 0 <= i < |s| => LowerChar(s[i]))
  }

  lemma LowerIdempotent(s: string)
    ensures Lower(Lower(s)) == Lower(s)
  {
    assert forall i :: 0 <= i < |s| ==> LowerChar(LowerChar(s[i])) == LowerChar(s[i]);
  }

  lemma LowerAppend(a: string, b: string)
    ensures Lower(a + b) == Lower(a) + Lower(b)
  {
  }

  /** A string without ASCII capitals is its own lower-case form. */
  lemma LowerNoCapitals(s: string)
    requires forall c: char | 'A' <= c <= 'Z' :: c !in s
    ensures Lower(s) == s
  {
    forall i | 0 <= i < |s| ensures LowerChar(s[i]) == s[i] {
      assert s[i] in s;
    }
  }

  /** Python's `a < b` on strings: lexicographic by code point, a proper
      prefix ordered first. */
  predicate StrLess(a: string, b: string)
    decreases |a|
  {
    if |a| == 0 then |b| > 0
    else if |b| == 0 then false
    else if a[0] < b[0] then true
    else if a[0] == b[0] then StrLess(a[1..], b[1..])
    else false
  }

  lemma {:induction false} StrLessIrreflexive(a: string)
    ensures !StrLess(a, a)
    decreases |a|
  {
    if |a| > 0 { StrLessIrreflexive(a[1..]); }
  }

  lemma {:induction false} StrLessTransitive(a: string, b: string, c: string)
    requires StrLess(a, b) && StrLess(b, c)
    ensures StrLess(a, c)
    decreases |a|
  {
    if |a| > 0 && |b| > 0 && |c| > 0 && a[0] == b[0] == c[0] {
      StrLessTransitive(a[1..], b[1..], c[1..]);
    }
  }

  lemma {:induction false} StrLessTotal(a: string, b: string)
    ensures a == b || StrLess(a, b) || StrLess(b, a)
    decreases |a|
  {
    if |a| > 0 && |b| > 0 && a[0] == b[0] {
      StrLessTotal(a[1..], b[1..]);
      if a[1..] == b[1..] {
        assert a == [a[0]] + a[1..] && b == [b[0]] + b[1..];
      }
    }
  }

}
