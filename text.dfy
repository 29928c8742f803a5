/** The .NET string operations the client relies on, over `string` (a
    sequence of Unicode scalar values). Case-insensitive comparisons fold
    ASCII letters only. */
module Text {
  import opened Common

  /** char.IsWhiteSpace: the Unicode space separators, line and paragraph
      separators, and the control characters U+0009..U+000D and U+0085. */
  predicate IsWhiteSpace(c: char) {
    var n := c as int;
    (0x09 <= n <= 0x0D) || n == 0x20 || n == 0x85 || n == 0xA0 || n == 0x1680
    || (0x2000 <= n <= 0x200A) || n == 0x2028 || n == 0x2029 || n == 0x202F
    || n == 0x205F || n == 0x3000
  }

  /** string.IsNullOrEmpty. */
  predicate IsNullOrEmpty(s: Option<string>) {
    s.None? || s.value == ""
  }

  /** string.IsNullOrWhiteSpace. */
  predicate IsNullOrWhiteSpace(s: Option<string>) {
    s.None? || forall i :: 0 <= i < |s.value| ==> IsWhiteSpace(s.value[i])
  }

  /** A string interpolation hole renders null as the empty string. */
  function Interpolate(s: Option<string>): string {
    s.GetOr("")
  }

  predicate IsDigit(c: char) {
    '0' <= c <= '9'
  }

  /** The regex class [0-9a-zA-Z]. */
  predicate IsAsciiLetterOrDigit(c: char) {
    IsDigit(c) || ('a' <= c <= 'z') || ('A' <= c <= 'Z')
  }

  function LowerAscii(c: char): (r: char)
    ensures 'A' <= c <= 'Z' ==> r as int == c as int + 32
    ensures !('A' <= c <= 'Z') ==> r == c
  {
    if 'A' <= c <= 'Z' then (c as int + 32) as char else c
  }

  /** String.ToLower, for the ASCII letters. */
  function ToLowerAscii(s: string): (r: string)
    ensures |r| == |s|
    ensures forall i :: 0 <= i < |s| ==> r[i] == LowerAscii(s[i])
  {
    seq(|s|, i requires 0 <= i < |s| => LowerAscii(s[i]))
  }

  /** string.Equals(a, b, InvariantCultureIgnoreCase): two nulls are equal,
      null differs from every string. */
  predicate EqualsIgnoreCase(a: Option<string>, b: Option<string>) {
    match (a, b)
    case (None, None) => true
    case (Some(x), Some(y)) => ToLowerAscii(x) == ToLowerAscii(y)
    case _ => false
  }

  predicate StartsWithIgnoreCase(s: string, prefix: string) {
    |prefix| <= |s| && ToLowerAscii(s[..|prefix|]) == ToLowerAscii(prefix)
  }

  predicate EndsWith(s: string, suffix: string) {
    |suffix| <= |s| && s[|s| - |suffix|..] == suffix
  }

  /** `pattern` occurs in `s` starting at index `i`. */
  predicate OccursAt(s: string, pattern: string, i: int) {
    0 <= i && i + |pattern| <= |s| && s[i..i + |pattern|] == pattern
  }

  predicate Contains(s: string, pattern: string) {
    exists i :: 0 <= i <= |s| && OccursAt(s, pattern, i)
  }

  /** string.IndexOf: the leftmost occurrence of a non-empty pattern. */
  function IndexOf(s: string, pattern: string): (r: Option<nat>)
    requires |pattern| > 0
    ensures r.Some? ==> OccursAt(s, pattern, r.value)
    ensures r.Some? ==> forall j :: 0 <= j < r.value ==> !OccursAt(s, pattern, j)
    ensures r.None? <==> !Contains(s, pattern)
    decreases |s|
  {
    if |s| < |pattern| then
      assert forall i :: !OccursAt(s, pattern, i);
      None
    else if s[..|pattern|] == pattern then
      assert OccursAt(s, pattern, 0);
      Some(0)
    else
      var rest := IndexOf(s[1..], pattern);
      forall j | 1 <= j
        ensures OccursAt(s, pattern, j) <==> OccursAt(s[1..], pattern, j - 1)
      {
        if j + |pattern| <= |s| {
          SliceOfTail(s, j, |pattern|);
        }
      }
      if rest.None? then
        assert s[0..|pattern|] == s[..|pattern|];
        assert !OccursAt(s, pattern, 0);
        None
      else
        Some(rest.value + 1)
  }

  /** A slice of the tail is the slice of the whole one place further on. */
  lemma SliceOfTail(s: string, j: int, n: nat)
    requires 1 <= j && j + n <= |s|
    ensures s[1..][j - 1..j - 1 + n] == s[j..j + n]
  {
    var shifted, direct := s[1..][j - 1..j - 1 + n], s[j..j + n];
    forall k | 0 <= k < n ensures shifted[k] == direct[k] {
    }
  }

  /** string.Replace(pattern, replacement): one left-to-right pass that
      replaces every non-overlapping occurrence. */
  function ReplaceAll(s: string, pattern: string, replacement: string): string
    requires |pattern| > 0
    decreases |s|
  {
    if |s| < |pattern| then s
    else if s[..|pattern|] == pattern then replacement + ReplaceAll(s[|pattern|..], pattern, replacement)
    else [s[0]] + ReplaceAll(s[1..], pattern, replacement)
  }

  /** Replacing a pattern by text no longer than it never lengthens the
      string. */
  lemma {:induction false} ReplaceAllNoLonger(s: string, pattern: string, replacement: string)
    requires |pattern| > 0 && |replacement| <= |pattern|
    ensures |ReplaceAll(s, pattern, replacement)| <= |s|
    decreases |s|
  {
    if |s| >= |pattern| {
      if s[..|pattern|] == pattern {
        ReplaceAllNoLonger(s[|pattern|..], pattern, replacement);
      } else {
        ReplaceAllNoLonger(s[1..], pattern, replacement);
      }
    }
  }

  /** Replacing a pattern that does not occur leaves the string as it was. */
  lemma {:induction false} ReplaceAbsent(s: string, pattern: string, replacement: string)
    requires |pattern| > 0
    requires !Contains(s, pattern)
    ensures ReplaceAll(s, pattern, replacement) == s
    decreases |s|
  {
    if |s| >= |pattern| {
      assert !OccursAt(s, pattern, 0);
      forall j | OccursAt(s[1..], pattern, j) ensures false {
        assert s[1..][j..j + |pattern|] == s[j + 1..j + 1 + |pattern|];
        assert OccursAt(s, pattern, j + 1);
      }
      ReplaceAbsent(s[1..], pattern, replacement);
    }
  }

  /** A pattern that contains a character absent from `s` cannot occur in it. */
  lemma AbsentCharacter(s: string, pattern: string, c: char)
    requires c in pattern && c !in s
    ensures !Contains(s, pattern)
  {
  }
}
