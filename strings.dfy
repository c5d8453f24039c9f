/** Text helpers shared by the chunker, the ingestion loop and the chat handler. */
module Strings {

  /** Python's `str.isspace()` for one character: the ASCII controls 9-13 and 28-31,
      the space, and the Unicode separators that Python treats as whitespace. */
  predicate IsSpace(c: char) {
    c == ' ' || ('\t' <= c <= '\r') || ('\U{1c}' <= c <= '\U{1f}')
    || c == '\U{85}' || c == '\U{a0}' || c == '\U{1680}' || ('\U{2000}' <= c <= '\U{200a}')
    || c == '\U{2028}' || c == '\U{2029}' || c == '\U{202f}' || c == '\U{205f}' || c == '\U{3000}'
  }

  predicate AllSpace(s: string) {
    forall i :: 0 <= i < |s| ==> IsSpace(s[i])
  }

  /** Removes the leading whitespace: what is left is a suffix of `s` that does not start with a space. */
  function TrimStart(s: string): (r: string)
    ensures |r| <= |s| && r == s[|s| - |r|..]
    ensures AllSpace(s[..|s| - |r|])
    ensures r == [] || !IsSpace(r[0])
  {
    if s != [] && IsSpace(s[0]) then
      var r := TrimStart(s[1..]);
      LeadingSpace(s, r);
      r
    else s
  }

  /** The step of `TrimStart`: a leading space joins the whitespace cut off before `r`. */
  lemma LeadingSpace(s: string, r: string)
    requires s != [] && IsSpace(s[0])
    requires |r| <= |s| - 1 && r == s[1..][|s| - 1 - |r|..] && AllSpace(s[1..][..|s| - 1 - |r|])
    ensures r == s[|s| - |r|..] && AllSpace(s[..|s| - |r|])
  {
    assert s[1..][|s| - 1 - |r|..] == s[|s| - |r|..];
    assert s[..|s| - |r|] == [s[0]] + s[1..][..|s| - 1 - |r|];
  }

  /** Removes the trailing whitespace: what is left is a prefix of `s` that does not end with a space. */
  function TrimEnd(s: string): (r: string)
    ensures |r| <= |s| && r == s[..|r|]
    ensures AllSpace(s[|r|..])
    ensures r == [] || !IsSpace(r[|r| - 1])
  {
    if s != [] && IsSpace(s[|s| - 1]) then
      var front := s[..|s| - 1];
      var r := TrimEnd(front);
      assert s[|r|..] == front[|r|..] + [s[|s| - 1]];
      assert front[..|r|] == s[..|r|];
      r
    else s
  }

  /** Python's `str.strip()` with no argument. */
  function Strip(s: string): (r: string)
    ensures |r| <= |s|
    ensures r == [] <==> AllSpace(s)
    ensures r != [] ==> !IsSpace(r[0]) && !IsSpace(r[|r| - 1])
  {
    TrimBoth(s);
    TrimEnd(TrimStart(s))
  }

  /** Trimming both ends leaves nothing exactly when there was nothing but whitespace, and otherwise
      leaves text that starts and ends with a non-space character. */
  lemma TrimBoth(s: string)
    ensures |TrimEnd(TrimStart(s))| <= |s|
    ensures TrimEnd(TrimStart(s)) == [] <==> AllSpace(s)
    ensures TrimEnd(TrimStart(s)) != [] ==>
      !IsSpace(TrimEnd(TrimStart(s))[0]) && !IsSpace(TrimEnd(TrimStart(s))[|TrimEnd(TrimStart(s))| - 1])
  {
    var t := TrimStart(s);
    var r := TrimEnd(t);
    var i := |s| - |t|;
    if t == [] {
      assert s == s[..i];
    } else {
      assert s[i] == t[0];
      assert t[0..] == t;
      assert r != [] && r[0] == t[0];
    }
  }

  /** `strip()` cuts only whitespace, and only from the two ends: the result is a contiguous piece of `s`
      with nothing but whitespace before and after it. */
  lemma StripCutsOnlySpace(s: string)
    ensures exists i :: 0 <= i <= i + |Strip(s)| <= |s| && Strip(s) == s[i..i + |Strip(s)|]
                        && AllSpace(s[..i]) && AllSpace(s[i + |Strip(s)|..])
  {
    var t := TrimStart(s);
    var r := Strip(s);
    var i := |s| - |t|;
    assert r == TrimEnd(t);
    assert r == s[i..i + |r|];
    assert s[i + |r|..] == t[|r|..];
    assert 0 <= i <= i + |r| <= |s| && r == s[i..i + |r|] && AllSpace(s[..i]) && AllSpace(s[i + |r|..]);
  }

  /** `"".join(parts)`: the parts one after the other. */
  function Concat(parts: seq<string>): string {
    if parts == [] then [] else Concat(parts[..|parts| - 1]) + parts[|parts| - 1]
  }

  /** `sep.join(parts)`. */
  function Join(sep: string, parts: seq<string>): string {
    if parts == [] then []
    else if |parts| == 1 then parts[0]
    else parts[0] + sep + Join(sep, parts[1..])
  }

  /** `needle` occurs in `hay` starting at index `i`. */
  predicate OccursAt(needle: string, hay: string, i: int) {
    0 <= i && i + |needle| <= |hay| && hay[i..i + |needle|] == needle
  }

  /** `needle` occurs as a contiguous piece of `hay`. */
  ghost predicate IsInfix(needle: string, hay: string) {
    exists i :: OccursAt(needle, hay, i)
  }

  /** Every part of a join occurs in the joined text. */
  lemma {:induction false} JoinContainsParts(sep: string, parts: seq<string>, k: nat)
    requires k < |parts|
    ensures IsInfix(parts[k], Join(sep, parts))
  {
    var j := Join(sep, parts);
    if |parts| == 1 {
      assert OccursAt(parts[k], j, 0);
    } else {
      var rest := Join(sep, parts[1..]);
      assert j == parts[0] + sep + rest;
      if k == 0 {
        assert OccursAt(parts[k], j, 0);
      } else {
        JoinContainsParts(sep, parts[1..], k - 1);
        var i :| OccursAt(parts[k], rest, i);
        var off := |parts[0]| + |sep|;
        assert j[off + i..off + i + |parts[k]|] == rest[i..i + |parts[k]|];
        assert OccursAt(parts[k], j, off + i);
      }
    }
  }
}
