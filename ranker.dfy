/** The ranking half of `search_similar` (app.py:131-156): filter the fetched candidates, score them,
    sort by score descending with a stable sort, keep the first `TOP_K`.
    The norm and the similarity score are parameters: every property here holds whatever they compute. */
module Ranker {
  import opened Wrappers
  import opened Records

  /** `TOP_K` (app.py:26). */
  const TopK: nat := 3

  /** An entry of `scored_chunks`: the similarity, the candidate's position in the fetched rows, its chunk.
      The position is what a stable sort falls back on for equal scores. */
  datatype Scored = Scored(score: real, pos: nat, chunk: string)

  /** The query embedding is present, non-empty and of non-zero norm (app.py:133-138). */
  predicate QueryUsable(query: Option<Vector>, norm: Vector -> real) {
    query.Some? && |query.value| > 0 && norm(query.value) != 0.0
  }

  /** A candidate is scored only when its length is the query's and its norm is non-zero (app.py:145-150). */
  predicate Qualifies(query: Vector, v: Vector, norm: Vector -> real) {
    |v| == |query| && norm(v) != 0.0
  }

  /** `scored_chunks` after the loop (app.py:143-153): the qualifying candidates, scored, in fetch order. */
  function ScoreAll(query: Vector, cands: seq<Embedding>, norm: Vector -> real, score: (Vector, Vector) -> real): (r: seq<Scored>)
    ensures forall k :: 0 <= k < |r| ==>
      && r[k].pos < |cands|
      && Qualifies(query, cands[r[k].pos].vector, norm)
      && r[k].chunk == cands[r[k].pos].chunk
      && r[k].score == score(query, cands[r[k].pos].vector)
    ensures forall j, k :: 0 <= j < k < |r| ==> r[j].pos < r[k].pos
  {
    if cands == [] then []
    else
      var n := |cands| - 1;
      var c := cands[n];
      ScoreAll(query, cands[..n], norm, score)
        + (if Qualifies(query, c.vector, norm) then [Scored(score(query, c.vector), n, c.chunk)] else [])
  }

  /** Positions of the candidates that qualify. */
  ghost function QualifyingPositions(query: Vector, cands: seq<Embedding>, norm: Vector -> real): set<nat> {
    set i: nat | i < |cands| && Qualifies(query, cands[i].vector, norm)
  }

  function Positions(xs: seq<Scored>): set<nat> {
    set k | 0 <= k < |xs| :: xs[k].pos
  }

  /** Nothing qualifying is skipped: the scored positions are exactly the qualifying ones. */
  lemma {:induction false} ScoreAllComplete(query: Vector, cands: seq<Embedding>, norm: Vector -> real, score: (Vector, Vector) -> real)
    ensures Positions(ScoreAll(query, cands, norm, score)) == QualifyingPositions(query, cands, norm)
  {
    if cands != [] {
      var n := |cands| - 1;
      var c := cands[n];
      var front := ScoreAll(query, cands[..n], norm, score);
      var last := if Qualifies(query, c.vector, norm) then [Scored(score(query, c.vector), n, c.chunk)] else [];
      ScoreAllComplete(query, cands[..n], norm, score);
      QualifyingStep(query, cands, norm);
      PositionsAppend(front, last);
      if Qualifies(query, c.vector, norm) {
        assert last[0].pos == n;
        assert Positions(last) == {n};
      } else {
        assert Positions(last) == {};
      }
    }
  }

  lemma QualifyingStep(query: Vector, cands: seq<Embedding>, norm: Vector -> real)
    requires cands != []
    ensures QualifyingPositions(query, cands, norm)
      == QualifyingPositions(query, cands[..|cands| - 1], norm)
        + (if Qualifies(query, cands[|cands| - 1].vector, norm) then {|cands| - 1} else {})
  {
    var n := |cands| - 1;
    var added: set<nat> := if Qualifies(query, cands[n].vector, norm) then {n} else {};
    var all, front := QualifyingPositions(query, cands, norm), QualifyingPositions(query, cands[..n], norm);
    forall i: nat
      ensures i in all <==> i in front + added
    {
      assert i in all <==> i < |cands| && Qualifies(query, cands[i].vector, norm);
      assert i in front <==> i < n && Qualifies(query, cands[..n][i].vector, norm);
      if i < n {
        assert cands[..n][i] == cands[i];
      }
    }
    assert all == front + added;
  }

  lemma PositionsAppend(xs: seq<Scored>, ys: seq<Scored>)
    ensures Positions(xs + ys) == Positions(xs) + Positions(ys)
  {
    var zs := xs + ys;
    forall p | p in Positions(zs)
      ensures p in Positions(xs) + Positions(ys)
    {
      var k :| 0 <= k < |zs| && zs[k].pos == p;
      if k >= |xs| {
        assert ys[k - |xs|] == zs[k];
      }
    }
    forall p | p in Positions(xs)
      ensures p in Positions(zs)
    {
      var k :| 0 <= k < |xs| && xs[k].pos == p;
      assert zs[k] == xs[k];
    }
    forall p | p in Positions(ys)
      ensures p in Positions(zs)
    {
      var k :| 0 <= k < |ys| && ys[k].pos == p;
      assert zs[k + |xs|] == ys[k];
    }
  }

  /** Scored positions are strictly increasing, so there are as many scored entries as qualifying candidates. */
  lemma ScoreAllCount(query: Vector, cands: seq<Embedding>, norm: Vector -> real, score: (Vector, Vector) -> real)
    ensures |ScoreAll(query, cands, norm, score)| == |QualifyingPositions(query, cands, norm)|
  {
    var r := ScoreAll(query, cands, norm, score);
    ScoreAllComplete(query, cands, norm, score);
    DistinctCount(r);
  }

  lemma {:induction false} DistinctCount(xs: seq<Scored>)
    requires forall j, k :: 0 <= j < k < |xs| ==> xs[j].pos < xs[k].pos
    ensures |Positions(xs)| == |xs|
  {
    if xs != [] {
      var n := |xs| - 1;
      DistinctCount(xs[..n]);
      assert Positions(xs) == Positions(xs[..n]) + {xs[n].pos};
      assert xs[n].pos !in Positions(xs[..n]);
    }
  }

  /** The sort key: higher score first, and between equal scores the earlier position first
      (Python's `sort(key=..., reverse=True)` is stable). */
  predicate Before(a: Scored, b: Scored) {
    a.score > b.score || (a.score == b.score && a.pos < b.pos)
  }

  /** Sorted by the key, every pair strictly: scores non-increasing, equal scores in fetch order. */
  predicate Ranked(xs: seq<Scored>) {
    forall i, j :: 0 <= i < j < |xs| ==> Before(xs[i], xs[j])
  }

  predicate DistinctPositions(xs: seq<Scored>) {
    forall i, j :: 0 <= i < j < |xs| ==> xs[i].pos != xs[j].pos
  }

  function Insert(x: Scored, xs: seq<Scored>): (r: seq<Scored>)
    ensures multiset(r) == multiset(xs) + multiset{x}
  {
    if xs == [] || Before(x, xs[0]) then [x] + xs
    else
      assert xs == [xs[0]] + xs[1..];
      [xs[0]] + Insert(x, xs[1..])
  }

  /** `scored_chunks.sort(key=lambda x: x[0], reverse=True)`, as an insertion sort on the key. */
  function SortByRank(xs: seq<Scored>): (r: seq<Scored>)
    ensures multiset(r) == multiset(xs)
  {
    if xs == [] then []
    else
      var n := |xs| - 1;
      assert xs == xs[..n] + [xs[n]];
      Insert(xs[n], SortByRank(xs[..n]))
  }

  lemma {:induction false} InsertRanked(x: Scored, xs: seq<Scored>)
    requires Ranked(xs)
    requires forall k :: 0 <= k < |xs| ==> xs[k].pos != x.pos
    ensures Ranked(Insert(x, xs))
  {
    if xs != [] && !Before(x, xs[0]) {
      var rest := Insert(x, xs[1..]);
      InsertRanked(x, xs[1..]);
      forall k | 0 <= k < |rest|
        ensures Before(xs[0], rest[k])
      {
        assert rest[k] in multiset(rest);
        if rest[k] != x {
          assert rest[k] in multiset(xs[1..]);
          var j :| 0 <= j < |xs[1..]| && xs[1..][j] == rest[k];
          assert xs[j + 1] == rest[k];
        }
      }
    }
  }

  /** The sort orders any candidates with pairwise distinct positions by the key. */
  lemma {:induction false} SortByRankRanked(xs: seq<Scored>)
    requires DistinctPositions(xs)
    ensures Ranked(SortByRank(xs))
  {
    if xs != [] {
      var n := |xs| - 1;
      var sorted := SortByRank(xs[..n]);
      SortByRankRanked(xs[..n]);
      forall k | 0 <= k < |sorted|
        ensures sorted[k].pos != xs[n].pos
      {
        assert sorted[k] in multiset(xs[..n]);
        var j :| 0 <= j < n && xs[..n][j] == sorted[k];
      }
      InsertRanked(xs[n], sorted);
    }
  }

  /** The first element of a ranked sequence comes before every other element of it. */
  lemma HeadFirst(xs: seq<Scored>, y: Scored)
    requires Ranked(xs) && y in multiset(xs)
    ensures y == xs[0] || Before(xs[0], y)
  {
    var i :| 0 <= i < |xs| && xs[i] == y;
  }

  lemma RankedTail(xs: seq<Scored>)
    requires xs != [] && Ranked(xs)
    ensures Ranked(xs[1..])
  {
    forall i, j | 0 <= i < j < |xs| - 1
      ensures Before(xs[1..][i], xs[1..][j])
    {
      assert xs[1..][i] == xs[i + 1] && xs[1..][j] == xs[j + 1];
    }
  }

  lemma MultisetTail(xs: seq<Scored>)
    requires xs != []
    ensures multiset(xs[1..]) == multiset(xs) - multiset{xs[0]}
  {
    assert xs == [xs[0]] + xs[1..];
  }

  /** Two ranked sequences with the same elements start with the same element. */
  lemma SameHead(xs: seq<Scored>, ys: seq<Scored>)
    requires Ranked(xs) && Ranked(ys) && multiset(xs) == multiset(ys) && xs != []
    ensures ys != [] && xs[0] == ys[0]
  {
    assert xs[0] in multiset(xs);
    assert |ys| == |xs|;
    assert ys[0] in multiset(ys);
    HeadFirst(ys, xs[0]);
    HeadFirst(xs, ys[0]);
  }

  /** The key order determines the arrangement: two ranked sequences with the same elements are equal.
      So any stable descending sort gives the same list as SortByRank. */
  lemma {:induction false} RankedUnique(xs: seq<Scored>, ys: seq<Scored>)
    requires Ranked(xs) && Ranked(ys) && multiset(xs) == multiset(ys)
    ensures xs == ys
  {
    if xs != [] {
      SameHead(xs, ys);
      MultisetTail(xs);
      MultisetTail(ys);
      RankedTail(xs);
      RankedTail(ys);
      RankedUnique(xs[1..], ys[1..]);
      assert xs == [xs[0]] + xs[1..];
      assert ys == [ys[0]] + ys[1..];
    }
  }

  /** `scored_chunks[:TOP_K]` after the sort, or nothing when the query is unusable (app.py:132-156). */
  function RankedTop(query: Option<Vector>, cands: seq<Embedding>, norm: Vector -> real, score: (Vector, Vector) -> real): seq<Scored> {
    if !QueryUsable(query, norm) then []
    else
      var ranked := SortByRank(ScoreAll(query.value, cands, norm, score));
      ranked[..Min(TopK, |ranked|)]
  }

  function ChunksOf(xs: seq<Scored>): seq<string> {
    seq(|xs|, k requires 0 <= k < |xs| => xs[k].chunk)
  }

  /** What `search_similar` returns for the rows it fetched. */
  function SearchResult(query: Option<Vector>, cands: seq<Embedding>, norm: Vector -> real, score: (Vector, Vector) -> real): seq<string> {
    ChunksOf(RankedTop(query, cands, norm, score))
  }

  /** An absent, empty or zero-norm query embedding yields `[]`, whatever was fetched (app.py:132-138). */
  lemma UnusableQueryFindsNothing(query: Option<Vector>, cands: seq<Embedding>, norm: Vector -> real, score: (Vector, Vector) -> real)
    requires query.None? || |query.value| == 0 || norm(query.value) == 0.0
    ensures SearchResult(query, cands, norm, score) == []
  {
  }

  /** The result has `min(TOP_K, number of qualifying candidates)` entries (app.py:156). */
  lemma TopLength(query: Option<Vector>, cands: seq<Embedding>, norm: Vector -> real, score: (Vector, Vector) -> real)
    requires QueryUsable(query, norm)
    ensures |SearchResult(query, cands, norm, score)| == Min(TopK, |QualifyingPositions(query.value, cands, norm)|)
  {
    ScoreAllCount(query.value, cands, norm, score);
  }

  /** Every returned entry is a qualifying candidate, with that candidate's chunk and score,
      and no candidate is returned twice (app.py:143-153). */
  lemma TopFromQualifying(query: Option<Vector>, cands: seq<Embedding>, norm: Vector -> real, score: (Vector, Vector) -> real)
    ensures var top := RankedTop(query, cands, norm, score);
      && DistinctPositions(top)
      && forall k :: 0 <= k < |top| ==>
        && top[k].pos < |cands|
        && Qualifies(query.value, cands[top[k].pos].vector, norm)
        && top[k].chunk == cands[top[k].pos].chunk
        && top[k].score == score(query.value, cands[top[k].pos].vector)
  {
    if QueryUsable(query, norm) {
      var scored := ScoreAll(query.value, cands, norm, score);
      var ranked := SortByRank(scored);
      var top := ranked[..Min(TopK, |ranked|)];
      assert top == RankedTop(query, cands, norm, score);
      RankedPrefix(scored, Min(TopK, |ranked|));
      SelectionFromScoreAll(query.value, cands, norm, score, top);
    }
  }

  /** A prefix of the ranked entries holds entries of `scored`, no two at the same position. */
  lemma RankedPrefix(scored: seq<Scored>, m: nat)
    requires forall j, k :: 0 <= j < k < |scored| ==> scored[j].pos < scored[k].pos
    requires m <= |SortByRank(scored)|
    ensures var top := SortByRank(scored)[..m];
      DistinctPositions(top) && forall k :: 0 <= k < |top| ==> top[k] in scored
  {
    var ranked := SortByRank(scored);
    SortByRankRanked(scored);
    var top := ranked[..m];
    forall k | 0 <= k < |top|
      ensures top[k] in scored
    {
      assert top[k] == ranked[k];
      assert ranked[k] in multiset(scored);
    }
    forall i, j | 0 <= i < j < |top|
      ensures Before(top[i], top[j])
    {
      assert top[i] == ranked[i] && top[j] == ranked[j];
    }
    ElementsDistinctPositions(scored, top);
  }

  /** Entries taken from `ScoreAll` describe the candidates at their positions. */
  lemma SelectionFromScoreAll(query: Vector, cands: seq<Embedding>, norm: Vector -> real, score: (Vector, Vector) -> real, top: seq<Scored>)
    requires forall k :: 0 <= k < |top| ==> top[k] in ScoreAll(query, cands, norm, score)
    ensures forall k :: 0 <= k < |top| ==>
      && top[k].pos < |cands|
      && Qualifies(query, cands[top[k].pos].vector, norm)
      && top[k].chunk == cands[top[k].pos].chunk
      && top[k].score == score(query, cands[top[k].pos].vector)
  {
    var scored := ScoreAll(query, cands, norm, score);
    forall k | 0 <= k < |top|
      ensures top[k].pos < |cands|
      ensures Qualifies(query, cands[top[k].pos].vector, norm)
      ensures top[k].chunk == cands[top[k].pos].chunk
      ensures top[k].score == score(query, cands[top[k].pos].vector)
    {
      var a :| 0 <= a < |scored| && scored[a] == top[k];
    }
  }

  /** Entries of `scored` are told apart by position; so are those of a ranked selection of them. */
  lemma ElementsDistinctPositions(scored: seq<Scored>, top: seq<Scored>)
    requires forall j, k :: 0 <= j < k < |scored| ==> scored[j].pos < scored[k].pos
    requires Ranked(top)
    requires forall k :: 0 <= k < |top| ==> top[k] in scored
    ensures DistinctPositions(top)
  {
    forall i, j | 0 <= i < j < |top|
      ensures top[i].pos != top[j].pos
    {
      var a :| 0 <= a < |scored| && scored[a] == top[i];
      var b :| 0 <= b < |scored| && scored[b] == top[j];
      assert Before(top[i], top[j]);
    }
  }

  /** The result is sorted by non-increasing score, and equal scores keep their fetch order (app.py:155). */
  lemma TopOrdered(query: Option<Vector>, cands: seq<Embedding>, norm: Vector -> real, score: (Vector, Vector) -> real)
    ensures var top := RankedTop(query, cands, norm, score);
      forall i, j :: 0 <= i < j < |top| ==>
        top[i].score >= top[j].score && (top[i].score == top[j].score ==> top[i].pos < top[j].pos)
  {
    if QueryUsable(query, norm) {
      SortByRankRanked(ScoreAll(query.value, cands, norm, score));
    }
  }

  /** In a ranked sequence, an element outside the first `t` comes after each of them. */
  lemma LeftOutRanksBelow(ranked: seq<Scored>, t: nat, x: Scored)
    requires Ranked(ranked) && t <= |ranked| && x in multiset(ranked)
    requires x.pos !in Positions(ranked[..t])
    ensures forall k :: 0 <= k < t ==> Before(ranked[k], x)
  {
    var p :| 0 <= p < |ranked| && ranked[p] == x;
    forall k | 0 <= k < t
      ensures ranked[k].pos != x.pos
    {
      assert ranked[..t][k] == ranked[k];
      assert ranked[k].pos in Positions(ranked[..t]);
    }
    assert p >= t;
  }

  /** The result holds the best candidates: a qualifying candidate that was left out ranks below every
      returned one. */
  lemma TopIsBest(query: Option<Vector>, cands: seq<Embedding>, norm: Vector -> real, score: (Vector, Vector) -> real, i: nat)
    requires QueryUsable(query, norm)
    requires i < |cands| && Qualifies(query.value, cands[i].vector, norm)
    requires i !in Positions(RankedTop(query, cands, norm, score))
    ensures forall k :: 0 <= k < |RankedTop(query, cands, norm, score)| ==>
      Before(RankedTop(query, cands, norm, score)[k], Scored(score(query.value, cands[i].vector), i, cands[i].chunk))
  {
    var scored := ScoreAll(query.value, cands, norm, score);
    var ranked := SortByRank(scored);
    var m := EntryOf(query.value, cands, norm, score, i);
    SortByRankRanked(scored);
    var x := scored[m];
    assert x in multiset(scored);
    var t := Min(TopK, |ranked|);
    assert RankedTop(query, cands, norm, score) == ranked[..t];
    LeftOutRanksBelow(ranked, t, x);
  }

  /** A qualifying candidate has its entry among the scored ones. */
  lemma EntryOf(query: Vector, cands: seq<Embedding>, norm: Vector -> real, score: (Vector, Vector) -> real, i: nat)
    returns (m: nat)
    requires i < |cands| && Qualifies(query, cands[i].vector, norm)
    ensures m < |ScoreAll(query, cands, norm, score)|
    ensures ScoreAll(query, cands, norm, score)[m] == Scored(score(query, cands[i].vector), i, cands[i].chunk)
  {
    var scored := ScoreAll(query, cands, norm, score);
    ScoreAllComplete(query, cands, norm, score);
    assert i in QualifyingPositions(query, cands, norm);
    assert i in Positions(scored);
    m :| 0 <= m < |scored| && scored[m].pos == i;
  }
}
