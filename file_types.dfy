/** `allowed_file` (app.py:48-49): the upload filter on file extensions. */
module FileTypes {
  import opened Wrappers

  /** `ALLOWED_EXT` (app.py:24). */
  const AllowedExtensions: set<string> := {"pdf", "docx", "txt"}

  /** Index of the last `c` in `s`: where `s.rsplit(c, 1)` cuts. */
  function LastIndexOf(s: string, c: char): (r: Option<nat>)
    ensures r.None? <==> c !in s
    ensures r.Some? ==> r.value < |s| && s[r.value] == c && c !in s[r.value + 1..]
  {
    if s == [] then None
    else if s[|s| - 1] == c then Some(|s| - 1)
    else LastIndexOf(s[..|s| - 1], c)
  }

  /** `str.lower()` on one character, for the ASCII letters. */
  function LowerChar(c: char): char {
    if 'A' <= c <= 'Z' then (c as int + 32) as char else c
  }

  function Lower(s: string): string {
    seq(|s|, i requires 0 <= i < |s| => LowerChar(s[i]))
  }

  /** The name has a `.`, and the part after the last `.`, lowercased, is one of `exts`. */
  predicate ExtensionIn(filename: string, exts: set<string>) {
    match LastIndexOf(filename, '.')
    case None => false
    case Some(i) => Lower(filename[i + 1..]) in exts
  }

  /** `allowed_file(filename)`. */
  predicate AllowedFile(filename: string) {
    ExtensionIn(filename, AllowedExtensions)
  }

  /** Position `i` of `s` holds a `.` and no `.` follows it. */
  predicate LastDot(s: string, i: int) {
    0 <= i < |s| && s[i] == '.' && '.' !in s[i + 1..]
  }

  /** A `.` with no `.` after it is the last one: there is only one. */
  lemma LastDotUnique(s: string, i: nat, j: nat)
    requires LastDot(s, i) && LastDot(s, j)
    ensures i == j
  {
    forall k | i < k < |s|
      ensures s[k] != '.'
    {
      assert s[k] == s[i + 1..][k - i - 1];
    }
    forall k | j < k < |s|
      ensures s[k] != '.'
    {
      assert s[k] == s[j + 1..][k - j - 1];
    }
  }

  /** `allowed_file` holds exactly when some `.` is followed by no other `.` and by an allowed extension. */
  lemma AllowedFileIff(filename: string)
    ensures AllowedFile(filename) <==>
      exists i :: LastDot(filename, i) && Lower(filename[i + 1..]) in AllowedExtensions
  {
    ExtensionInIff(filename, AllowedExtensions);
  }

  lemma ExtensionInIff(filename: string, exts: set<string>)
    ensures ExtensionIn(filename, exts) <==>
      exists i :: LastDot(filename, i) && Lower(filename[i + 1..]) in exts
  {
    match LastIndexOf(filename, '.')
    case None =>
      forall i | 0 <= i < |filename|
        ensures !LastDot(filename, i)
      {
        assert filename[i] in filename;
      }
    case Some(j) =>
      assert LastDot(filename, j);
      forall i | LastDot(filename, i)
        ensures i == j
      {
        LastDotUnique(filename, i, j);
      }
  }

  /** Lowercasing keeps every `.` where it was, so the last one too. */
  lemma {:induction false} LastDotUnderLower(s: string)
    ensures LastIndexOf(Lower(s), '.') == LastIndexOf(s, '.')
  {
    if s != [] {
      var n := |s| - 1;
      assert Lower(s)[..n] == Lower(s[..n]);
      LastDotUnderLower(s[..n]);
    }
  }

  /** The check ignores case: a name passes exactly when its lowercase form passes. */
  lemma AllowedFileIgnoresCase(filename: string)
    ensures AllowedFile(filename) <==> AllowedFile(Lower(filename))
  {
    ExtensionIgnoresCase(filename, AllowedExtensions);
  }

  lemma ExtensionIgnoresCase(filename: string, exts: set<string>)
    ensures ExtensionIn(filename, exts) <==> ExtensionIn(Lower(filename), exts)
  {
    LastDotUnderLower(filename);
    var lower := Lower(filename);
    match LastIndexOf(filename, '.')
    case None =>
      assert LastIndexOf(lower, '.').None?;
    case Some(i) =>
      assert LastIndexOf(lower, '.') == Some(i);
      var ext := filename[i + 1..];
      LowerSlice(filename, i + 1);
      LowerIdempotent(ext);
      assert Lower(lower[i + 1..]) == Lower(ext);
  }

  lemma LowerSlice(s: string, i: nat)
    requires i <= |s|
    ensures Lower(s)[i..] == Lower(s[i..])
  {
  }

  lemma LowerIdempotent(s: string)
    ensures Lower(Lower(s)) == Lower(s)
  {
    forall k | 0 <= k < |s|
      ensures LowerChar(LowerChar(s[k])) == LowerChar(s[k])
    {
    }
  }
}
