/** The .NET string operations that the prototype parser relies on, stated over
    `string` (a sequence of UTF-16 code units in .NET, of chars here): prefix and
    suffix tests, white-space tests, and `String.Split(string[],
    StringSplitOptions.None)` with a single non-empty separator. The model's prefix
    and suffix tests are ordinal. */
module Text {

  datatype Option<T> = None | Some(value: T)

  /** `s.StartsWith(p)`, compared character by character: `p` is a prefix of `s`. */
  predicate StartsWith(s: string, p: string)
    ensures StartsWith(s, p) <==> p <= s
  {
    |p| <= |s| && s[..|p|] == p
  }

  /** `s.EndsWith(p)`, compared character by character: `s` is some string
      followed by `p`, so in particular both end in the same character. */
  predicate EndsWith(s: string, p: string)
  {
    |p| <= |s| && s[|s| - |p|..] == p
  }

  /** `Char.IsWhiteSpace`: the Unicode space, line and paragraph separators,
      the controls U+0009 to U+000D, U+0085 and U+00A0. None of the characters
      the parser looks for is white space. */
  predicate IsWhiteSpace(c: char)
  {
    ('\t' <= c <= '\r') || c == ' ' || c == '\U{85}' || c == '\U{A0}' || c == '\U{1680}'
    || ('\U{2000}' <= c <= '\U{200A}') || c == '\U{2028}' || c == '\U{2029}'
    || c == '\U{202F}' || c == '\U{205F}' || c == '\U{3000}'
  }

  /** `String.IsNullOrWhiteSpace` on a string that is not null: every character
      is white space, which holds of the empty string. A blank line is neither
      an `@` line nor a key header. */
  predicate IsNullOrWhiteSpace(s: string)
    ensures IsNullOrWhiteSpace(s) ==> !StartsWith(s, "@") && !StartsWith(s, "[HKEY")
  {
    assert |s| > 0 ==> s[0] == s[..1][0];
    forall i :: 0 <= i < |s| ==> IsWhiteSpace(s[i])
  }

  /** `sep` occurs in `s` starting at index `i`. */
  predicate OccursAt(s: string, sep: string, i: int) {
    0 <= i && i + |sep| <= |s| && s[i..i + |sep|] == sep
  }

  ghost predicate Contains(s: string, sep: string) {
    exists i :: OccursAt(s, sep, i)
  }

  /** The first index at or after `from` where `sep` occurs: the ordinal search
      `String.Split` performs for the next separator. */
  function IndexFrom(s: string, sep: string, from: nat): (r: Option<nat>)
    requires |sep| > 0
    ensures r.Some? ==> from <= r.value && OccursAt(s, sep, r.value)
    ensures forall j :: from <= j && (r.None? || j < r.value) ==> !OccursAt(s, sep, j)
    decreases |s| - from
  {
    if |s| < from + |sep| then None
    else if s[from..from + |sep|] == sep then Some(from)
    else IndexFrom(s, sep, from + 1)
  }

  /** The pieces of `s[from..]` between occurrences of `sep`, scanning left to
      right and resuming after each separator found. */
  function SplitFrom(s: string, sep: string, from: nat): (parts: seq<string>)
    requires |sep| > 0 && from <= |s|
    ensures 1 <= |parts| <= |s| - from + 1
    decreases |s| - from
  {
    match IndexFrom(s, sep, from)
    case None => [s[from..]]
    case Some(k) => [s[from..k]] + SplitFrom(s, sep, k + |sep|)
  }

  /** `s.Split(new string[] { sep }, StringSplitOptions.None)`. */
  function Split(s: string, sep: string): (parts: seq<string>)
    requires |sep| > 0
    ensures 1 <= |parts| <= |s| + 1
  {
    SplitFrom(s, sep, 0)
  }

  /** `String.Join(sep, parts)`, the inverse of `Split`. */
  function Join(parts: seq<string>, sep: string): string {
    if |parts| == 0 then ""
    else if |parts| == 1 then parts[0]
    else parts[0] + sep + Join(parts[1..], sep)
  }

  /** `a` and `b` are the first two pieces that splitting `s` on `sep` yields:
      `s` begins with `a + sep + b`, the first occurrence of `sep` is the one
      right after `a`, and the next occurrence at or after the end of that one,
      if there is any, begins right after `b`. */
  ghost predicate FirstTwoPieces(s: string, sep: string, a: string, b: string) {
    var m := |a| + |sep|;
    var n := m + |b|;
    n <= |s| && s[..n] == a + sep + b
    && (forall j :: 0 <= j < |a| ==> !OccursAt(s, sep, j))
    && (forall j :: m <= j < n ==> !OccursAt(s, sep, j))
    && (n == |s| || OccursAt(s, sep, n))
  }

  lemma JoinCons(head: string, rest: seq<string>, sep: string)
    requires |rest| >= 1
    ensures Join([head] + rest, sep) == head + sep + Join(rest, sep)
  {
    assert ([head] + rest)[1..] == rest;
  }

  lemma SuffixInThree(s: string, from: nat, k: nat, m: nat)
    requires from <= k <= m <= |s|
    ensures s[from..] == s[from..k] + s[k..m] + s[m..]
  {
  }

  lemma {:induction false} SplitFromJoin(s: string, sep: string, from: nat)
    requires |sep| > 0 && from <= |s|
    ensures Join(SplitFrom(s, sep, from), sep) == s[from..]
    decreases |s| - from
  {
    match IndexFrom(s, sep, from)
    case None =>
    case Some(k) =>
      var m := k + |sep|;
      var rest := SplitFrom(s, sep, m);
      SplitFromJoin(s, sep, m);
      assert SplitFrom(s, sep, from) == [s[from..k]] + rest;
      JoinCons(s[from..k], rest, sep);
      SuffixInThree(s, from, k, m);
  }

  /** Splitting and joining back on the same separator gives the string back. */
  lemma SplitJoin(s: string, sep: string)
    requires |sep| > 0
    ensures |Split(s, sep)| >= 1
    ensures Join(Split(s, sep), sep) == s
  {
    SplitFromJoin(s, sep, 0);
  }

  /** An occurrence inside the slice `s[lo..hi]` is an occurrence in `s`. */
  lemma OccursInSlice(s: string, sep: string, lo: nat, hi: nat, j: int)
    requires lo <= hi <= |s| && OccursAt(s[lo..hi], sep, j)
    ensures OccursAt(s, sep, lo + j) && lo + j + |sep| <= hi
  {
    var t := s[lo..hi];
    forall i | 0 <= i < |sep|
      ensures s[lo + j + i] == sep[i]
    {
      assert t[j..j + |sep|][i] == sep[i];
    }
    assert s[lo + j..lo + j + |sep|] == sep;
  }

  lemma {:induction false} SplitFromPiecesFree(s: string, sep: string, from: nat)
    requires |sep| > 0 && from <= |s|
    ensures forall p :: p in SplitFrom(s, sep, from) ==> !Contains(p, sep)
    decreases |s| - from
  {
    match IndexFrom(s, sep, from)
    case None =>
      if Contains(s[from..], sep) {
        var j :| OccursAt(s[from..], sep, j);
        assert s[from..] == s[from..|s|];
        OccursInSlice(s, sep, from, |s|, j);
        assert false;
      }
    case Some(k) =>
      SplitFromPiecesFree(s, sep, k + |sep|);
      if Contains(s[from..k], sep) {
        var j :| OccursAt(s[from..k], sep, j);
        OccursInSlice(s, sep, from, k, j);
        assert false;
      }
      assert SplitFrom(s, sep, from) == [s[from..k]] + SplitFrom(s, sep, k + |sep|);
  }

  /** No piece of a split contains the separator. */
  lemma SplitPiecesFree(s: string, sep: string)
    requires |sep| > 0
    ensures forall p :: p in Split(s, sep) ==> !Contains(p, sep)
  {
    SplitFromPiecesFree(s, sep, 0);
  }

  /** A split yields a second piece exactly when the separator occurs. */
  lemma SplitHasSecondPiece(s: string, sep: string)
    requires |sep| > 0
    ensures |Split(s, sep)| >= 2 <==> Contains(s, sep)
  {
  }

  lemma SliceOfConcat(s: string, a: string, sep: string, b: string)
    requires |a| + |sep| + |b| <= |s| && s[..|a| + |sep| + |b|] == a + sep + b
    ensures s[..|a|] == a
    ensures s[|a|..|a| + |sep|] == sep
    ensures s[|a| + |sep|..|a| + |sep| + |b|] == b
  {
    var n := |a| + |sep| + |b|;
    assert s[..|a|] == s[..n][..|a|];
    assert s[|a|..|a| + |sep|] == s[..n][|a|..|a| + |sep|];
    assert s[|a| + |sep|..n] == s[..n][|a| + |sep|..];
  }

  lemma PrefixInThree(s: string, k: nat, m: nat, n: nat)
    requires k <= m <= n <= |s|
    ensures s[..n] == s[..k] + s[k..m] + s[m..n]
  {
  }

  lemma SplitGivesFirstTwo(s: string, sep: string)
    requires |sep| > 0 && |Split(s, sep)| >= 2
    ensures FirstTwoPieces(s, sep, Split(s, sep)[0], Split(s, sep)[1])
  {
    var k := IndexFrom(s, sep, 0).value;
    var m := k + |sep|;
    var n := match IndexFrom(s, sep, m) case None => |s| case Some(k2) => k2;
    assert Split(s, sep) == [s[..k]] + SplitFrom(s, sep, m);
    assert Split(s, sep)[0] == s[..k];
    assert Split(s, sep)[1] == s[m..n];
    PrefixInThree(s, k, m, n);
    assert s[k..m] == sep;
  }

  /** The search from `from` finds `k` when `k` is the first occurrence from there. */
  lemma IndexFromFinds(s: string, sep: string, from: nat, k: nat)
    requires |sep| > 0 && from <= k && OccursAt(s, sep, k)
    requires forall j :: from <= j < k ==> !OccursAt(s, sep, j)
    ensures IndexFrom(s, sep, from) == Some(k)
  {
  }

  /** The search from `from` finds nothing when nothing occurs from there. */
  lemma IndexFromMisses(s: string, sep: string, from: nat)
    requires |sep| > 0 && forall j :: from <= j < |s| ==> !OccursAt(s, sep, j)
    ensures IndexFrom(s, sep, from) == None
  {
  }

  lemma FirstTwoGivesSplit(s: string, sep: string, a: string, b: string)
    requires |sep| > 0 && FirstTwoPieces(s, sep, a, b)
    ensures |Split(s, sep)| >= 2 && Split(s, sep)[0] == a && Split(s, sep)[1] == b
  {
    var m := |a| + |sep|;
    var n := m + |b|;
    SliceOfConcat(s, a, sep, b);
    IndexFromFinds(s, sep, 0, |a|);
    assert Split(s, sep) == [a] + SplitFrom(s, sep, m);
    if n == |s| {
      IndexFromMisses(s, sep, m);
      assert SplitFrom(s, sep, m) == [s[m..]];
    } else {
      IndexFromFinds(s, sep, m, n);
      assert SplitFrom(s, sep, m)[0] == s[m..n];
    }
  }

  /** The first two pieces of a split are exactly the strings `FirstTwoPieces`
      describes: the text before the first separator, and the text from there
      to the next separator or the end. */
  lemma SplitFirstTwo(s: string, sep: string, a: string, b: string)
    requires |sep| > 0
    ensures (|Split(s, sep)| >= 2 && Split(s, sep)[0] == a && Split(s, sep)[1] == b)
            <==> FirstTwoPieces(s, sep, a, b)
  {
    if |Split(s, sep)| >= 2 && Split(s, sep)[0] == a && Split(s, sep)[1] == b {
      SplitGivesFirstTwo(s, sep);
    }
    if FirstTwoPieces(s, sep, a, b) {
      FirstTwoGivesSplit(s, sep, a, b);
    }
  }
}
