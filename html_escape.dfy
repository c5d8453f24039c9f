/** `escapeHtml` (static/scripts/script.js:80-87): five global replacements applied in turn,
    `&` first, then `<`, `>`, `"` and `'`. */
module HtmlEscape {

  /** `s.replace(/c/g, rep)` for a one-character pattern `c`. */
  function ReplaceAll(s: string, c: char, rep: string): string {
    if s == [] then [] else (if s[0] == c then rep else [s[0]]) + ReplaceAll(s[1..], c, rep)
  }

  /** `escapeHtml(unsafe)`, written as the chain of replacements the script performs. */
  function EscapeHtml(unsafe: string): string {
    var amp := ReplaceAll(unsafe, '&', "&amp;");
    var lt := ReplaceAll(amp, '<', "&lt;");
    var gt := ReplaceAll(lt, '>', "&gt;");
    var quot := ReplaceAll(gt, '"', "&quot;");
    ReplaceAll(quot, '\'', "&#039;")
  }

  predicate IsSpecial(c: char) {
    c == '&' || IsMarkup(c)
  }

  /** The characters that must never reach the page unescaped. */
  predicate IsMarkup(c: char) {
    c == '<' || c == '>' || c == '"' || c == '\''
  }

  /** The entity each special character becomes. */
  function EscapeChar(c: char): (r: string)
    ensures IsSpecial(c) ==> StartsEntity(r)
    ensures !IsSpecial(c) ==> r == [c]
    ensures forall i :: 0 < i < |r| ==> r[i] != '&'
    ensures forall i :: 0 <= i < |r| ==> !IsMarkup(r[i])
  {
    match c
    case '&' => "&amp;"
    case '<' => "&lt;"
    case '>' => "&gt;"
    case '"' => "&quot;"
    case '\'' => "&#039;"
    case _ => [c]
  }

  /** Reference definition: each character escaped on its own, the results concatenated. */
  function EscapeEach(s: string): string {
    if s == [] then [] else EscapeChar(s[0]) + EscapeEach(s[1..])
  }

  /** The entities `escapeHtml` emits. */
  predicate StartsEntity(t: string) {
    "&amp;" <= t || "&lt;" <= t || "&gt;" <= t || "&quot;" <= t || "&#039;" <= t
  }

  /** Decodes the five entities back into their characters, leaving everything else alone. */
  function Unescape(t: string): string
    decreases |t|
  {
    if t == [] then []
    else if "&amp;" <= t then "&" + Unescape(t[5..])
    else if "&lt;" <= t then "<" + Unescape(t[4..])
    else if "&gt;" <= t then ">" + Unescape(t[4..])
    else if "&quot;" <= t then "\"" + Unescape(t[6..])
    else if "&#039;" <= t then "'" + Unescape(t[6..])
    else [t[0]] + Unescape(t[1..])
  }

  lemma {:induction false} ReplaceAllAppend(a: string, b: string, c: char, rep: string)
    ensures ReplaceAll(a + b, c, rep) == ReplaceAll(a, c, rep) + ReplaceAll(b, c, rep)
  {
    if a == [] {
      assert a + b == b;
    } else {
      assert (a + b)[0] == a[0];
      assert (a + b)[1..] == a[1..] + b;
      ReplaceAllAppend(a[1..], b, c, rep);
    }
  }

  lemma {:induction false} ReplaceAllAbsent(s: string, c: char, rep: string)
    requires c !in s
    ensures ReplaceAll(s, c, rep) == s
  {
    if s != [] {
      ReplaceAllAbsent(s[1..], c, rep);
    }
  }

  lemma ReplaceAllSingle(x: char, c: char, rep: string)
    ensures ReplaceAll([x], c, rep) == if x == c then rep else [x]
  {
    assert [x][1..] == [];
  }

  /** A replacement later in the chain leaves an earlier entity alone, because `&` is replaced first. */
  lemma EscapeHtmlChar(c: char)
    ensures EscapeHtml([c]) == EscapeChar(c)
  {
    if c == '&' {
      EscapeAmp();
    } else if c == '<' {
      EscapeLt();
    } else if c == '>' {
      EscapeGt();
    } else if c == '"' {
      EscapeQuot();
    } else if c == '\'' {
      EscapeApos();
    } else {
      EscapeOther(c);
    }
  }

  lemma EscapeAmp()
    ensures EscapeHtml("&") == "&amp;"
  {
    var amp := "&amp;";
    ReplaceAllSingle('&', '&', amp);
    assert '<' !in amp && '>' !in amp && '"' !in amp && '\'' !in amp;
    ReplaceAllAbsent(amp, '<', "&lt;");
    ReplaceAllAbsent(amp, '>', "&gt;");
    ReplaceAllAbsent(amp, '"', "&quot;");
    ReplaceAllAbsent(amp, '\'', "&#039;");
  }

  lemma EscapeLt()
    ensures EscapeHtml("<") == "&lt;"
  {
    var lt := "&lt;";
    ReplaceAllSingle('<', '&', "&amp;");
    ReplaceAllSingle('<', '<', lt);
    assert '>' !in lt && '"' !in lt && '\'' !in lt;
    ReplaceAllAbsent(lt, '>', "&gt;");
    ReplaceAllAbsent(lt, '"', "&quot;");
    ReplaceAllAbsent(lt, '\'', "&#039;");
  }

  lemma EscapeGt()
    ensures EscapeHtml(">") == "&gt;"
  {
    var gt := "&gt;";
    ReplaceAllSingle('>', '&', "&amp;");
    ReplaceAllSingle('>', '<', "&lt;");
    ReplaceAllSingle('>', '>', gt);
    assert '"' !in gt && '\'' !in gt;
    ReplaceAllAbsent(gt, '"', "&quot;");
    ReplaceAllAbsent(gt, '\'', "&#039;");
  }

  lemma EscapeQuot()
    ensures EscapeHtml("\"") == "&quot;"
  {
    var quot := "&quot;";
    ReplaceAllSingle('"', '&', "&amp;");
    ReplaceAllSingle('"', '<', "&lt;");
    ReplaceAllSingle('"', '>', "&gt;");
    ReplaceAllSingle('"', '"', quot);
    assert '\'' !in quot;
    ReplaceAllAbsent(quot, '\'', "&#039;");
  }

  lemma EscapeApos()
    ensures EscapeHtml("'") == "&#039;"
  {
    ReplaceAllSingle('\'', '&', "&amp;");
    ReplaceAllSingle('\'', '<', "&lt;");
    ReplaceAllSingle('\'', '>', "&gt;");
    ReplaceAllSingle('\'', '"', "&quot;");
    ReplaceAllSingle('\'', '\'', "&#039;");
  }

  lemma EscapeOther(c: char)
    requires !IsSpecial(c)
    ensures EscapeHtml([c]) == [c]
  {
    ReplaceAllSingle(c, '&', "&amp;");
    ReplaceAllSingle(c, '<', "&lt;");
    ReplaceAllSingle(c, '>', "&gt;");
    ReplaceAllSingle(c, '"', "&quot;");
    ReplaceAllSingle(c, '\'', "&#039;");
  }

  /** `escapeHtml` works character by character: the chain of replacements equals the per-character escaping. */
  lemma {:induction false} EscapeIsPerCharacter(s: string)
    ensures EscapeHtml(s) == EscapeEach(s)
  {
    if s == [] {
      assert EscapeHtml(s) == [];
    } else {
      assert s == [s[0]] + s[1..];
      EscapeHtmlHomomorphic([s[0]], s[1..]);
      EscapeHtmlChar(s[0]);
      EscapeIsPerCharacter(s[1..]);
    }
  }

  /** Escaping distributes over concatenation and maps the empty string to itself: each replacement
      of the chain does. */
  lemma EscapeHtmlHomomorphic(a: string, b: string)
    ensures EscapeHtml(a + b) == EscapeHtml(a) + EscapeHtml(b)
    ensures EscapeHtml([]) == []
  {
    var a1, b1 := ReplaceAll(a, '&', "&amp;"), ReplaceAll(b, '&', "&amp;");
    ReplaceAllAppend(a, b, '&', "&amp;");
    var a2, b2 := ReplaceAll(a1, '<', "&lt;"), ReplaceAll(b1, '<', "&lt;");
    ReplaceAllAppend(a1, b1, '<', "&lt;");
    var a3, b3 := ReplaceAll(a2, '>', "&gt;"), ReplaceAll(b2, '>', "&gt;");
    ReplaceAllAppend(a2, b2, '>', "&gt;");
    var a4, b4 := ReplaceAll(a3, '"', "&quot;"), ReplaceAll(b3, '"', "&quot;");
    ReplaceAllAppend(a3, b3, '"', "&quot;");
    ReplaceAllAppend(a4, b4, '\'', "&#039;");
  }

  /** A string without the five special characters passes through unchanged. */
  lemma {:induction false} EscapeHtmlPassThrough(s: string)
    requires forall i :: 0 <= i < |s| ==> !IsSpecial(s[i])
    ensures EscapeHtml(s) == s
  {
    EscapeIsPerCharacter(s);
    EscapeEachPassThrough(s);
  }

  lemma {:induction false} EscapeEachPassThrough(s: string)
    requires forall i :: 0 <= i < |s| ==> !IsSpecial(s[i])
    ensures EscapeEach(s) == s
  {
    if s != [] {
      EscapeEachPassThrough(s[1..]);
    }
  }

  /** The output never contains `<`, `>`, `"` or `'`. */
  lemma EscapeHtmlNoMarkup(s: string)
    ensures forall i :: 0 <= i < |EscapeHtml(s)| ==> !IsMarkup(EscapeHtml(s)[i])
  {
    EscapeIsPerCharacter(s);
    EscapeEachNoMarkup(s);
  }

  lemma {:induction false} EscapeEachNoMarkup(s: string)
    ensures forall i :: 0 <= i < |EscapeEach(s)| ==> !IsMarkup(EscapeEach(s)[i])
  {
    if s != [] {
      var head, tail := EscapeChar(s[0]), EscapeEach(s[1..]);
      var r := head + tail;
      EscapeEachNoMarkup(s[1..]);
      forall i | 0 <= i < |r|
        ensures !IsMarkup(r[i])
      {
        if i < |head| {
          assert r[i] == head[i];
        } else {
          var k := i - |head|;
          assert r[i] == tail[k];
          assert 0 <= k < |tail|;
          assert !IsMarkup(tail[k]);
        }
      }
    }
  }

  /** Every `&` of the output begins one of the five entities: nothing is escaped twice. */
  lemma EscapeHtmlAmpersands(s: string)
    ensures forall i :: 0 <= i < |EscapeHtml(s)| && EscapeHtml(s)[i] == '&' ==> StartsEntity(EscapeHtml(s)[i..])
  {
    EscapeIsPerCharacter(s);
    EscapeEachAmpersands(s);
  }

  lemma {:induction false} EscapeEachAmpersands(s: string)
    ensures forall i :: 0 <= i < |EscapeEach(s)| && EscapeEach(s)[i] == '&' ==> StartsEntity(EscapeEach(s)[i..])
  {
    if s != [] {
      var head, tail := EscapeChar(s[0]), EscapeEach(s[1..]);
      var r := head + tail;
      EscapeEachAmpersands(s[1..]);
      forall i | 0 <= i < |r| && r[i] == '&'
        ensures StartsEntity(r[i..])
      {
        if i < |head| {
          assert r[i] == head[i];
          assert i == 0 && IsSpecial(s[0]);
          assert head <= r;
          PrefixOfPrefix(head, r);
        } else {
          assert r[i..] == tail[i - |head|..];
        }
      }
    }
  }

  /** An entity at the head of `r` is still at the head of any extension of `r`. */
  lemma PrefixOfPrefix(head: string, r: string)
    requires head <= r && StartsEntity(head)
    ensures StartsEntity(r)
  {
  }

  lemma UnescapeHead(c: char, tail: string)
    ensures Unescape(EscapeChar(c) + tail) == [c] + Unescape(tail)
  {
    var head := EscapeChar(c);
    var t := head + tail;
    assert t[|head|..] == tail;
    if IsSpecial(c) {
      assert t[..|head|] == head;
      assert t[1] == head[1];
    } else {
      assert t[0] == c;
    }
  }

  /** Decoding the output gives back the input: escaping loses nothing. */
  lemma {:induction false} UnescapeEscapeEach(s: string)
    ensures Unescape(EscapeEach(s)) == s
  {
    if s != [] {
      UnescapeEscapeEach(s[1..]);
      UnescapeHead(s[0], EscapeEach(s[1..]));
      assert s == [s[0]] + s[1..];
    }
  }

  lemma EscapeHtmlRoundTrip(s: string)
    ensures Unescape(EscapeHtml(s)) == s
  {
    EscapeIsPerCharacter(s);
    UnescapeEscapeEach(s);
  }
}
