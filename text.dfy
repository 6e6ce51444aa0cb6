/**
 The Python string operations the script relies on: `str.lower()`,
 `str.strip()`, `sub in s`, `s.startswith(p)` and `str.splitlines()`.
 */
module Text {

  /** The capitals `str.lower()` changes here: A-Z and the Latin-1 capitals U+00C0-U+00DE except U+00D7. */
  predicate IsUpper(c: char) {
    'A' <= c <= 'Z' || ('\U{C0}' <= c <= '\U{DE}' && c != '\U{D7}')
  }

  /** `str.lower()` on one character: a capital moves 32 code points up to its small letter. */
  function LowerChar(c: char): char {
    if IsUpper(c) then (c as int + 32) as char else c
  }

  /** `str.lower()`. */
  function Lower(s: string): string {
    seq(|s|, i requires 0 <= i < |s| => LowerChar(s[i]))
  }

  /**
   Lowering keeps the length, turns every capital into its small letter,
   keeps every other character, and leaves no capital.
   */
  lemma LowerSpec(s: string)
    ensures |Lower(s)| == |s|
    ensures forall i :: 0 <= i < |s| && IsUpper(s[i]) ==> Lower(s)[i] as int == s[i] as int + 32
    ensures forall i :: 0 <= i < |s| && !IsUpper(s[i]) ==> Lower(s)[i] == s[i]
    ensures forall i :: 0 <= i < |s| ==> !IsUpper(Lower(s)[i])
  {
  }

  /** Lowering twice is lowering once, so the script's lowered needles stay as they are. */
  lemma LowerIdempotent(s: string)
    ensures Lower(Lower(s)) == Lower(s)
  {
    LowerSpec(s);
    LowerSpec(Lower(s));
  }

  /** The characters Python's `str.isspace()` accepts. */
  predicate IsSpace(c: char) {
    c == ' ' || ('\t' <= c <= '\r') || ('\U{1C}' <= c <= '\U{1F}')
    || c == '\U{85}' || c == '\U{A0}' || c == '\U{1680}' || ('\U{2000}' <= c <= '\U{200A}')
    || c == '\U{2028}' || c == '\U{2029}' || c == '\U{202F}' || c == '\U{205F}' || c == '\U{3000}'
  }

  function StripLeading(s: string): (r: string)
    ensures |r| <= |s| && r == s[|s| - |r|..]
    ensures forall k :: 0 <= k < |s| - |r| ==> IsSpace(s[k])
    ensures r == [] || !IsSpace(r[0])
  {
    if s != [] && IsSpace(s[0]) then StripLeading(s[1..]) else s
  }

  function StripTrailing(s: string): (r: string)
    ensures |r| <= |s| && r == s[..|r|]
    ensures forall k :: |r| <= k < |s| ==> IsSpace(s[k])
    ensures r == [] || !IsSpace(r[|r| - 1])
  {
    if s != [] && IsSpace(s[|s| - 1]) then StripTrailing(s[..|s| - 1]) else s
  }

  /** `str.strip()`: drop the white space at both ends. */
  function Strip(s: string): string {
    StripTrailing(StripLeading(s))
  }

  lemma StripKeepsTrimmed(s: string)
    requires s == [] || (!IsSpace(s[0]) && !IsSpace(s[|s| - 1]))
    ensures Strip(s) == s
  {
  }

  predicate StartsWith(s: string, p: string) {
    |p| <= |s| && s[..|p|] == p
  }

  /** `t in s` for strings. */
  predicate Contains(s: string, t: string)
    decreases |s|
  {
    StartsWith(s, t) || (|s| > 0 && Contains(s[1..], t))
  }

  predicate OccursAt(s: string, t: string, i: int) {
    0 <= i <= |s| - |t| && s[i..i + |t|] == t
  }

  lemma {:induction false} ContainsMeansOccurs(s: string, t: string)
    ensures Contains(s, t) <==> exists i :: OccursAt(s, t, i)
    decreases |s|
  {
    if StartsWith(s, t) {
      assert OccursAt(s, t, 0);
    } else if |s| > 0 {
      ContainsMeansOccurs(s[1..], t);
      if Contains(s[1..], t) {
        var i :| OccursAt(s[1..], t, i);
        assert s[1..][i..i + |t|] == s[i + 1..i + 1 + |t|];
        assert OccursAt(s, t, i + 1);
      }
      if i :| OccursAt(s, t, i) {
        assert 1 <= i <= |s| - |t|;
        assert s[i..i + |t|] == s[1..][i - 1..i - 1 + |t|];
        assert OccursAt(s[1..], t, i - 1);
      }
    }
  }

  /** The line boundaries of `str.splitlines()`. */
  predicate IsLineBoundary(c: char) {
    ('\n' <= c <= '\r') || ('\U{1C}' <= c <= '\U{1E}')
    || c == '\U{85}' || c == '\U{2028}' || c == '\U{2029}'
  }

  /** The index of the first line boundary at or after `from`, or `|s|`. */
  function FirstBoundary(s: string, from: nat): (i: nat)
    requires from <= |s|
    ensures from <= i <= |s|
    ensures i < |s| ==> IsLineBoundary(s[i])
    ensures forall k :: from <= k < i ==> !IsLineBoundary(s[k])
    decreases |s| - from
  {
    if from == |s| || IsLineBoundary(s[from]) then from else FirstBoundary(s, from + 1)
  }

  /** `str.splitlines()`: "\r\n" counts as one boundary; no empty line after a final boundary. */
  function SplitLines(s: string): (lines: seq<string>)
    ensures forall l, k :: l in lines && 0 <= k < |l| ==> !IsLineBoundary(l[k])
    decreases |s|
  {
    if s == [] then []
    else
      var i := FirstBoundary(s, 0);
      if i == |s| then [s]
      else
        var width := if s[i] == '\r' && i + 1 < |s| && s[i + 1] == '\n' then 2 else 1;
        [s[..i]] + SplitLines(s[i + width..])
  }
}
