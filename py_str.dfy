/** The Python string operations the download handler applies to a file name:
    `str.strip()`, `str.replace("/", "-")` and `s.lower().endswith(".mp4")`. */
module PyStr {

  /** `c.isspace()` in Python 3: the ASCII controls TAB to CR and FS to US,
      the space, NEL, NO-BREAK SPACE and the Unicode space separators and
      line/paragraph separators. */
  predicate IsSpace(c: char) {
    || '\t' <= c <= '\r'
    || '\U{1c}' <= c <= ' '
    || c == '\U{85}' || c == '\U{a0}' || c == '\U{1680}'
    || '\U{2000}' <= c <= '\U{200a}'
    || c == '\U{2028}' || c == '\U{2029}' || c == '\U{202f}' || c == '\U{205f}'
    || c == '\U{3000}'
  }

  /** Every character of `s` is whitespace. */
  predicate AllSpace(s: string) {
    forall k :: 0 <= k < |s| ==> IsSpace(s[k])
  }

  /** Neither end of `s` is whitespace (vacuously true of ""). */
  predicate Trimmed(s: string) {
    s == "" || (!IsSpace(s[0]) && !IsSpace(s[|s| - 1]))
  }

  /** The first index at or after `i` whose character is not whitespace
      (`|s|` when there is none): the left scan of `str.strip`. */
  function SkipSpace(s: string, i: nat): (n: nat)
    requires i <= |s|
    ensures i <= n <= |s|
    ensures forall k :: i <= k < n ==> IsSpace(s[k])
    ensures n < |s| ==> !IsSpace(s[n])
    decreases |s| - i
  {
    if i < |s| && IsSpace(s[i]) then SkipSpace(s, i + 1) else i
  }

  /** Scanning down from `j` but not below `lo`, the end of the last
      non-whitespace character: the right scan of `str.strip`. */
  function SkipSpaceBack(s: string, lo: nat, j: nat): (m: nat)
    requires lo <= j <= |s|
    ensures lo <= m <= j
    ensures forall k :: m <= k < j ==> IsSpace(s[k])
    ensures lo < m ==> !IsSpace(s[m - 1])
  {
    if lo < j && IsSpace(s[j - 1]) then SkipSpaceBack(s, lo, j - 1) else j
  }

  /** `s.strip()`: the infix of `s` left once whitespace is removed from both
      ends; what is removed is all whitespace and what is left starts and ends
      with a non-whitespace character, or is empty when `s` was all whitespace. */
  function Strip(s: string): (r: string)
    ensures Trimmed(r)
    ensures r == "" <==> AllSpace(s)
    ensures exists i :: 0 <= i <= |s| - |r| && s[i..i + |r|] == r &&
                        AllSpace(s[..i]) && AllSpace(s[i + |r|..])
  {
    var i := SkipSpace(s, 0);
    var j := SkipSpaceBack(s, i, |s|);
    assert AllSpace(s[..i]) && AllSpace(s[j..]);
    assert i < |s| ==> i < j;
    s[i..j]
  }

  /** `s.replace("/", "-")`: the same characters, with every slash turned into
      a hyphen. */
  function ReplaceSlash(s: string): (r: string)
    ensures |r| == |s|
    ensures '/' !in r
    ensures forall k :: 0 <= k < |s| && s[k] != '/' ==> r[k] == s[k]
    ensures forall k :: 0 <= k < |s| && s[k] == '/' ==> r[k] == '-'
  {
    if s == "" then ""
    else [if s[0] == '/' then '-' else s[0]] + ReplaceSlash(s[1..])
  }

  /** `s.lower().endswith(".mp4")`. Only 'M' lowers to 'm' and only 'P' to
      'p', and no character lowers to a string ending in ".mp4", "mp4", "p4"
      or "4" unless it is that character, so the test reads the last four
      characters of `s` itself. */
  predicate EndsWithMp4(s: string) {
    && |s| >= 4
    && s[|s| - 4] == '.'
    && (s[|s| - 3] == 'm' || s[|s| - 3] == 'M')
    && (s[|s| - 2] == 'p' || s[|s| - 2] == 'P')
    && s[|s| - 1] == '4'
  }

  /** `c.lower()` for the ASCII letters; every other character is kept. */
  function LowerAscii(c: char): char {
    if 'A' <= c <= 'Z' then (c as int + 32) as char else c
  }

  /** `s.endswith(suffix)`. */
  predicate EndsWith(s: string, suffix: string) {
    |suffix| <= |s| && s[|s| - |suffix|..] == suffix
  }

  /** The last-four-characters test agrees with lower-casing the string
      letter by letter and then asking whether it ends with ".mp4". */
  lemma EndsWithMp4IsLowerEndsWith(s: string)
    ensures EndsWithMp4(s) <==> EndsWith(seq(|s|, k requires 0 <= k < |s| => LowerAscii(s[k])), ".mp4")
  {
    var lowered := seq(|s|, k requires 0 <= k < |s| => LowerAscii(s[k]));
    if |s| >= 4 {
      var n := |s|;
      var tail := lowered[n - 4..];
      assert tail == [LowerAscii(s[n - 4]), LowerAscii(s[n - 3]), LowerAscii(s[n - 2]), LowerAscii(s[n - 1])];
      assert tail == ".mp4" <==> tail[0] == '.' && tail[1] == 'm' && tail[2] == 'p' && tail[3] == '4';
    }
  }

  /** `s.encode("latin-1")` succeeds: no character is above U+00FF. */
  predicate Latin1(s: string) {
    forall k :: 0 <= k < |s| ==> s[k] <= '\U{ff}'
  }

  /** `strip` keeps every character that is not whitespace. */
  lemma StripKeepsInner(s: string, k: nat)
    requires k < |s| && !IsSpace(s[k])
    ensures s[k] in Strip(s)
  {
    var r := Strip(s);
    var i :| 0 <= i <= |s| - |r| && s[i..i + |r|] == r &&
             AllSpace(s[..i]) && AllSpace(s[i + |r|..]);
    assert i <= k < i + |r|;
    assert r[k - i] == s[k];
  }

  /** `strip` and `replace("/", "-")` bring in no character beyond U+00FF. */
  lemma CleaningKeepsLatin1(s: string)
    requires Latin1(s)
    ensures Latin1(Strip(s))
    ensures Latin1(ReplaceSlash(Strip(s)))
  {
    StripKeepsLatin1(s);
    ReplaceKeepsLatin1(Strip(s));
  }

  lemma StripKeepsLatin1(s: string)
    requires Latin1(s)
    ensures Latin1(Strip(s))
  {
    var i := SkipSpace(s, 0);
    var j := SkipSpaceBack(s, i, |s|);
    var r := Strip(s);
    assert r == s[i..j];
    forall k | 0 <= k < |r|
      ensures r[k] <= '\U{ff}'
    {
      assert r[k] == s[i + k];
    }
  }

  lemma ReplaceKeepsLatin1(s: string)
    requires Latin1(s)
    ensures Latin1(ReplaceSlash(s))
  {
    var t := ReplaceSlash(s);
    assert forall k :: 0 <= k < |t| ==> t[k] == s[k] || t[k] == '-';
  }

  /** A slash becomes a hyphen, which is not whitespace, so `replace` keeps
      a string free of whitespace at its ends. */
  lemma ReplaceKeepsTrimmed(s: string)
    requires Trimmed(s)
    ensures Trimmed(ReplaceSlash(s))
  {
  }

  /** `strip` takes off one blank on each side of a trimmed, non-empty core. */
  lemma StripPadded(core: string)
    requires core != "" && Trimmed(core)
    ensures Strip(" " + core + " ") == core
  {
    var s := " " + core + " ";
    assert s[0] == ' ' && s[1] == core[0];
    assert SkipSpace(s, 0) == 1 by {
      assert SkipSpace(s, 1) == 1;
    }
    assert s[|s| - 1] == ' ' && s[|s| - 2] == core[|core| - 1];
    assert SkipSpaceBack(s, 1, |s|) == |s| - 1 by {
      assert SkipSpaceBack(s, 1, |s| - 1) == |s| - 1;
    }
    assert s[1..|s| - 1] == core;
  }

  /** Concatenating Latin-1 strings gives a Latin-1 string. */
  lemma ConcatLatin1(a: string, b: string)
    requires Latin1(a) && Latin1(b)
    ensures Latin1(a + b)
  {
    assert forall k :: 0 <= k < |a + b| ==> (a + b)[k] == if k < |a| then a[k] else b[k - |a|];
  }

  /** Stripping a string whose ends are not whitespace changes nothing, so
      `strip` is idempotent. */
  lemma StripKeepsTrimmed(s: string)
    requires Trimmed(s)
    ensures Strip(s) == s
  {
  }

  lemma StripIdempotent(s: string)
    ensures Strip(Strip(s)) == Strip(s)
  {
    StripKeepsTrimmed(Strip(s));
  }
}
