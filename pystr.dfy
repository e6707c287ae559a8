/** The few Python string operations the core relies on, restricted to ASCII:
    `str.lower`, the `\s` and `\w` character classes, `in` on strings,
    `str.replace`, `str.strip`, `str.split(sep, 1)` and `sep.join`. */
module PyStr {
  import opened Wrappers

  predicate IsUpper(c: char) { 'A' <= c <= 'Z' }

  function ToLower(c: char): (r: char)
    ensures !IsUpper(r)
    ensures !IsUpper(c) ==> r == c
    ensures IsUpper(c) ==> 'a' <= r <= 'z' && r as int - 'a' as int == c as int - 'A' as int
  {
    if IsUpper(c) then (c as int + 32) as char else c
  }

  /** `s.lower()` on ASCII text: the same length, no capital left, every
      capital replaced by its small letter and every other character kept. */
  function Lower(s: string): (r: string)
    ensures |r| == |s|
    ensures NoUpper(r)
    ensures forall i :: 0 <= i < |s| && !IsUpper(s[i]) ==> r[i] == s[i]
    ensures forall i :: 0 <= i < |s| && IsUpper(s[i]) ==> r[i] as int - 'a' as int == s[i] as int - 'A' as int
  {
    seq(|s|, i requires 0 <= i < |s| => ToLower(s[i]))
  }

  predicate NoUpper(s: string) { forall i :: 0 <= i < |s| ==> !IsUpper(s[i]) }

  lemma LowerIsLowercase(s: string)
    ensures NoUpper(Lower(s))
  {
  }

  /** Lowering text that has no capital letters changes nothing. */
  lemma LowerOfLowercase(s: string)
    requires NoUpper(s)
    ensures Lower(s) == s
  {
  }

  lemma LowerIdempotent(s: string)
    ensures Lower(Lower(s)) == Lower(s)
  {
    LowerOfLowercase(Lower(s));
  }

  /** The `\s` class of Python 2 regular expressions: space, \t, \n, \r, \f, \v. */
  predicate IsSpace(c: char) {
    c == ' ' || c == '\t' || c == '\n' || c == '\r' || c == '\U{000C}' || c == '\U{000B}'
  }

  /** The `\w` class of Python 2 regular expressions: letters, digits and `_`. */
  predicate IsWordChar(c: char) {
    ('a' <= c <= 'z') || ('A' <= c <= 'Z') || ('0' <= c <= '9') || c == '_'
  }

  predicate IsPrefix(p: string, s: string) { |p| <= |s| && s[..|p|] == p }

  /** A non-empty prefix fixes the first character. */
  lemma PrefixHead(p: string, s: string)
    requires IsPrefix(p, s) && |p| > 0
    ensures s[0] == p[0]
  {
    assert s[..|p|][0] == s[0];
  }

  /** Python's `needle in hay` for strings. */
  function Contains(hay: string, needle: string): bool
    decreases |hay|
  {
    IsPrefix(needle, hay) || (|hay| > 0 && Contains(hay[1..], needle))
  }

  /** `needle` occurs in `hay` starting at position `i`. */
  predicate OccursAt(hay: string, needle: string, i: int) {
    0 <= i <= |hay| - |needle| && hay[i..i + |needle|] == needle
  }

  /** `needle` is a substring of `hay`. */
  ghost predicate IsSubstring(needle: string, hay: string) {
    exists i :: OccursAt(hay, needle, i)
  }

  /** `needle in hay` holds exactly when `needle` occurs at some position of `hay`. */
  lemma {:induction false} ContainsIffOccurs(hay: string, needle: string)
    ensures Contains(hay, needle) <==> IsSubstring(needle, hay)
    decreases |hay|
  {
    if IsPrefix(needle, hay) {
      assert OccursAt(hay, needle, 0);
    } else if |hay| == 0 {
    } else {
      ContainsIffOccurs(hay[1..], needle);
      if Contains(hay[1..], needle) {
        assert IsSubstring(needle, hay[1..]);
        var i :| OccursAt(hay[1..], needle, i);
        OccursShift(hay, needle, i);
      }
      if exists i :: OccursAt(hay, needle, i) {
        var i :| OccursAt(hay, needle, i);
        assert i != 0;
        OccursShift(hay, needle, i - 1);
      }
    }
  }

  /** An occurrence in `hay[1..]` is an occurrence one place later in `hay`. */
  lemma OccursShift(hay: string, needle: string, i: int)
    requires |hay| > 0 && 0 <= i
    ensures OccursAt(hay[1..], needle, i) <==> OccursAt(hay, needle, i + 1)
  {
    if 0 <= i <= |hay| - 1 - |needle| {
      assert hay[1..][i..i + |needle|] == hay[i + 1..i + 1 + |needle|];
    }
  }

  /** Every string contains itself, and every string contains the empty string. */
  lemma {:induction false} ContainsSelfAndEmpty(s: string)
    ensures Contains(s, s) && Contains(s, "")
  {
    assert IsPrefix(s, s);
    assert IsPrefix("", s);
  }

  /** `s.replace(pat, rep)`: every non-overlapping occurrence from left to right. */
  function Replace(s: string, pat: string, rep: string): string
    requires |pat| > 0
    decreases |s|
  {
    if |s| < |pat| then s
    else if s[..|pat|] == pat then rep + Replace(s[|pat|..], pat, rep)
    else [s[0]] + Replace(s[1..], pat, rep)
  }

  /** Replacing a substring that does not occur leaves the text unchanged. */
  lemma {:induction false} ReplaceAbsent(s: string, pat: string, rep: string)
    requires |pat| > 0
    requires !Contains(s, pat)
    ensures Replace(s, pat, rep) == s
    decreases |s|
  {
    if |s| >= |pat| {
      assert !IsPrefix(pat, s);
      ReplaceAbsent(s[1..], pat, rep);
      assert [s[0]] + s[1..] == s;
    }
  }

  /** A string that is exactly the searched text is replaced as a whole. */
  lemma ReplaceWhole(pat: string, rep: string)
    requires |pat| > 0
    ensures Replace(pat, pat, rep) == rep
  {
    assert pat[..|pat|] == pat;
    assert pat[|pat|..] == [];
  }

  function DropLeadingSpace(s: string): (r: string)
    ensures |r| <= |s|
    ensures r == [] || !IsSpace(r[0])
    ensures forall k :: 0 <= k < |r| ==> r[k] == s[|s| - |r| + k]
    ensures forall k :: 0 <= k < |s| - |r| ==> IsSpace(s[k])
  {
    if s != [] && IsSpace(s[0]) then DropLeadingSpace(s[1..]) else s
  }

  function DropTrailingSpace(s: string): (r: string)
    ensures |r| <= |s|
    ensures r == [] || !IsSpace(r[|r| - 1])
    ensures forall k :: 0 <= k < |r| ==> r[k] == s[k]
    ensures forall k :: |r| <= k < |s| ==> IsSpace(s[k])
  {
    if s != [] && IsSpace(s[|s| - 1]) then DropTrailingSpace(s[..|s| - 1]) else s
  }

  /** `s.strip()`: no whitespace at either end, and what remains is one slice
      of `s` outside which every character is white space. */
  function Strip(s: string): (r: string)
    ensures r == [] || (!IsSpace(r[0]) && !IsSpace(r[|r| - 1]))
    ensures |r| <= |s|
    ensures exists i :: KeptBetween(s, r, i)
  {
    StripKeepsSlice(s);
    DropTrailingSpace(DropLeadingSpace(s))
  }

  /** `r` is the slice of `s` starting at `i`, and every character of `s` before
      or after that slice is white space. */
  predicate KeptBetween(s: string, r: string, i: int)
  {
    0 <= i <= |s| - |r| &&
    (forall k :: 0 <= k < |r| ==> r[k] == s[i + k]) &&
    (forall k :: 0 <= k < i ==> IsSpace(s[k])) &&
    (forall k :: i + |r| <= k < |s| ==> IsSpace(s[k]))
  }

  /** Dropping white space at the front and then at the back keeps one slice of `s`. */
  lemma StripKeepsSlice(s: string)
    ensures var d := DropLeadingSpace(s); KeptBetween(s, DropTrailingSpace(d), |s| - |d|)
  {
    var d := DropLeadingSpace(s);
    var r := DropTrailingSpace(d);
    var i := |s| - |d|;
    forall k | 0 <= k < |r|
      ensures r[k] == s[i + k]
    {
      assert r[k] == d[k];
    }
    forall k | 0 <= k < i
      ensures IsSpace(s[k])
    {
    }
    forall k | i + |r| <= k < |s|
      ensures IsSpace(s[k])
    {
      assert IsSpace(d[k - i]);
      assert d[k - i] == s[k];
    }
  }

  /** Index of the first `c` in `s`, or -1 (Python's `s.find(c)`). */
  function Find(s: string, c: char): (i: int)
    ensures -1 <= i < |s|
    ensures i == -1 <==> c !in s
    ensures i >= 0 ==> s[i] == c && c !in s[..i]
  {
    if s == [] then -1
    else if s[0] == c then 0
    else var j := Find(s[1..], c); if j == -1 then -1 else j + 1
  }

  /** `s.split(sep, 1)` unpacked into two names: `None` where the unpacking
      raises ValueError, i.e. when `sep` does not occur. */
  function SplitOnce(s: string, sep: char): (r: Option<(string, string)>)
    ensures r.None? <==> sep !in s
    ensures r.Some? ==> sep !in r.value.0 && s == r.value.0 + [sep] + r.value.1
  {
    var i := Find(s, sep);
    if i == -1 then None
    else
      assert s == s[..i] + [sep] + s[i + 1..];
      Some((s[..i], s[i + 1..]))
  }

  /** `sep.join(words)`. */
  function JoinWith(sep: string, words: seq<string>): string
  {
    if words == [] then ""
    else if |words| == 1 then words[0]
    else words[0] + sep + JoinWith(sep, words[1..])
  }
}
