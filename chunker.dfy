/** `chunk_text` (app.py:51-53): the stripped text cut into consecutive slices of `CHUNK_SIZE` characters. */
module Chunker {
  import opened Wrappers
  import opened Strings

  /** `CHUNK_SIZE` (app.py:25). */
  const ChunkSize: nat := 800

  /** Number of slices `range(0, n, ChunkSize)` produces. */
  function ChunkCount(n: nat): nat {
    (n + ChunkSize - 1) / ChunkSize
  }

  /** The list comprehension of `chunk_text`: slice `i` is `t[i*ChunkSize : (i+1)*ChunkSize]`,
      clipped to the end of `t` as Python slicing does. */
  function Slices(t: string): seq<string> {
    seq(ChunkCount(|t|), i requires 0 <= i < ChunkCount(|t|) => t[i * ChunkSize..Min((i + 1) * ChunkSize, |t|)])
  }

  /** `chunk_text(text)`. */
  function ChunkText(text: string): seq<string> {
    Slices(Strip(text))
  }

  /** `ChunkCount(n)` slices of `ChunkSize` reach past the end of `n` characters, one fewer does not. */
  lemma CountBounds(n: nat)
    ensures n == 0 <==> ChunkCount(n) == 0
    ensures (ChunkCount(n) - 1) * ChunkSize < n <= ChunkCount(n) * ChunkSize || n == 0
  {
    var c := ChunkCount(n);
    var r := (n + ChunkSize - 1) % ChunkSize;
    assert n + ChunkSize - 1 == ChunkSize * c + r;
  }

  /** The first `k` slices put back together are the first `k * ChunkSize` characters. */
  lemma {:induction false} SlicesPrefix(t: string, k: nat)
    requires k <= |Slices(t)|
    ensures Concat(Slices(t)[..k]) == t[..Min(k * ChunkSize, |t|)]
  {
    if k > 0 {
      var cs := Slices(t);
      SlicesPrefix(t, k - 1);
      assert cs[..k][..k - 1] == cs[..k - 1];
      assert Concat(cs[..k]) == Concat(cs[..k - 1]) + cs[k - 1];
    }
  }

  /** Coverage: concatenating the chunks gives back exactly `text.strip()`. */
  lemma ChunksCover(text: string)
    ensures Concat(ChunkText(text)) == Strip(text)
  {
    var t := Strip(text);
    var cs := Slices(t);
    SlicesPrefix(t, |cs|);
    assert cs[..|cs|] == cs;
  }

  /** Every chunk but the last is exactly `ChunkSize` long; the last one holds 1 to `ChunkSize` characters. */
  lemma ChunkSizes(text: string)
    ensures var cs := ChunkText(text);
      && (forall i :: 0 <= i < |cs| - 1 ==> |cs[i]| == ChunkSize)
      && (cs != [] ==> 1 <= |cs[|cs| - 1]| <= ChunkSize)
  {
    SliceSizes(Strip(text));
  }

  lemma SliceSizes(t: string)
    ensures var cs := Slices(t);
      && (forall i :: 0 <= i < |cs| - 1 ==> |cs[i]| == ChunkSize)
      && (cs != [] ==> 1 <= |cs[|cs| - 1]| <= ChunkSize)
  {
    var cs := Slices(t);
    var n := |cs|;
    CountBounds(|t|);
    forall i | 0 <= i < n - 1
      ensures |cs[i]| == ChunkSize
    {
      ScaleMono(i + 1, n - 1);
      assert cs[i] == t[i * ChunkSize..(i + 1) * ChunkSize];
    }
    if n > 0 {
      assert cs[n - 1] == t[(n - 1) * ChunkSize..|t|];
    }
  }

  /** Scaling by `ChunkSize` keeps the order. */
  lemma ScaleMono(a: nat, b: nat)
    requires a <= b
    ensures a * ChunkSize <= b * ChunkSize
  {
  }

  /** There are no chunks exactly when the text is all whitespace. */
  lemma ChunkTextEmpty(text: string)
    ensures ChunkText(text) == [] <==> AllSpace(text)
  {
    CountBounds(|Strip(text)|);
  }

  /** The first chunk starts, and the last chunk ends, with a non-space character. */
  predicate NotBlankAtEnds(cs: seq<string>) {
    cs != [] ==> (cs[0] != [] && cs[|cs| - 1] != []
      && !IsSpace(cs[0][0]) && !IsSpace(cs[|cs| - 1][|cs[|cs| - 1]| - 1]))
  }

  /** Neither the first nor the last chunk is blank; only a chunk in the middle can be all whitespace. */
  lemma ChunkEndsNotBlank(text: string)
    ensures NotBlankAtEnds(ChunkText(text))
  {
    var t := Strip(text);
    SlicesNotBlankAtEnds(t);
    assert ChunkText(text) == Slices(t);
  }

  lemma SlicesNotBlankAtEnds(t: string)
    requires t != [] ==> !IsSpace(t[0]) && !IsSpace(t[|t| - 1])
    ensures NotBlankAtEnds(Slices(t))
  {
    SliceEnds(t);
  }

  /** The first slice starts with the text's first character and the last slice ends with its last. */
  lemma SliceEnds(t: string)
    ensures var cs := Slices(t);
      cs != [] ==> (t != [] && cs[0] != [] && cs[|cs| - 1] != []
        && cs[0][0] == t[0] && cs[|cs| - 1][|cs[|cs| - 1]| - 1] == t[|t| - 1])
  {
    var cs := Slices(t);
    var n := |cs|;
    CountBounds(|t|);
    if n > 0 {
      assert (n - 1) * ChunkSize < |t| <= n * ChunkSize;
      assert cs[n - 1] == t[(n - 1) * ChunkSize..];
    }
  }
}
