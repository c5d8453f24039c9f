/** The per-user vector store of app.py: the Document and Embedding tables, the owner-scoped fetch of
    `search_similar`, the ingestion loop of `upload`, `delete_document`, `clear_documents` and the
    listing of `documents`. */
module VectorStore {
  import opened Wrappers
  import opened Strings
  import opened Records
  import opened Chunker
  import opened FileTypes
  import opened Ranker

  /** The elements of `xs` that satisfy `p`, in their order: a `filter(...)` over a table. */
  function Filter<T(!new)>(p: T -> bool, xs: seq<T>): (r: seq<T>)
    ensures |r| <= |xs|
    ensures forall x :: x in r <==> x in xs && p(x)
  {
    if xs == [] then []
    else
      var n := |xs| - 1;
      assert forall x :: x in xs <==> x in xs[..n] || x == xs[n] by {
        assert xs == xs[..n] + [xs[n]];
      }
      Filter(p, xs[..n]) + (if p(xs[n]) then [xs[n]] else [])
  }

  lemma {:induction false} FilterAppend<T(!new)>(p: T -> bool, a: seq<T>, b: seq<T>)
    ensures Filter(p, a + b) == Filter(p, a) + Filter(p, b)
  {
    if b == [] {
      assert a + b == a;
    } else {
      var n := |b| - 1;
      assert (a + b)[..|a + b| - 1] == a + b[..n];
      FilterAppend(p, a, b[..n]);
    }
  }

  /** A filter that no element passes selects nothing. */
  lemma {:induction false} FilterNone<T(!new)>(p: T -> bool, xs: seq<T>)
    requires forall x :: x in xs ==> !p(x)
    ensures Filter(p, xs) == []
  {
    if xs != [] {
      var n := |xs| - 1;
      var front, last := xs[..n], xs[n];
      forall x | x in front
        ensures !p(x)
      {
        assert x in xs;
      }
      FilterNone(p, front);
      assert last in xs;
    }
  }

  /** Two filters that agree on every element of `xs` select the same rows. */
  lemma {:induction false} FilterSame<T(!new)>(p: T -> bool, q: T -> bool, xs: seq<T>)
    requires forall x :: x in xs ==> (p(x) <==> q(x))
    ensures Filter(p, xs) == Filter(q, xs)
  {
    if xs != [] {
      var n := |xs| - 1;
      var front, last := xs[..n], xs[n];
      forall x | x in front
        ensures p(x) <==> q(x)
      {
        assert x in xs;
      }
      FilterSame(p, q, front);
      assert last in xs;
      assert Filter(p, xs) == Filter(p, front) + (if p(last) then [last] else []);
      assert Filter(q, xs) == Filter(q, front) + (if q(last) then [last] else []);
    }
  }

  /** Filtering twice is filtering once by both conditions. */
  lemma {:induction false} FilterTwice<T(!new)>(p: T -> bool, q: T -> bool, r: T -> bool, xs: seq<T>)
    requires forall x :: x in xs ==> (p(x) && q(x) <==> r(x))
    ensures Filter(p, Filter(q, xs)) == Filter(r, xs)
  {
    if xs != [] {
      var n := |xs| - 1;
      var front, last := xs[..n], xs[n];
      forall x | x in front
        ensures p(x) && q(x) <==> r(x)
      {
        assert x in xs;
      }
      FilterTwice(p, q, r, front);
      assert last in xs;
      var kept := if q(last) then [last] else [];
      assert Filter(q, xs) == Filter(q, front) + kept;
      FilterAppend(p, Filter(q, front), kept);
      assert Filter(p, kept) == if p(last) && q(last) then [last] else [] by {
        if kept != [] {
          assert kept[..0] == [];
        }
      }
      assert Filter(r, xs) == Filter(r, front) + (if r(last) then [last] else []);
    }
  }

  // ----- The tables -----

  function Ids(docs: seq<Document>): set<nat> {
    set d | d in docs :: d.id
  }

  predicate DistinctIds(docs: seq<Document>) {
    forall i, j :: 0 <= i < j < |docs| ==> docs[i].id != docs[j].id
  }

  /** Every embedding row points at an existing document: no orphaned chunks. */
  predicate NoOrphans(docs: seq<Document>, embs: seq<Embedding>) {
    forall e :: e in embs ==> e.docId in Ids(docs)
  }

  predicate Consistent(docs: seq<Document>, embs: seq<Embedding>) {
    DistinctIds(docs) && NoOrphans(docs, embs)
  }

  /** A document with this id exists and belongs to `user`. */
  predicate OwnedBy(docs: seq<Document>, id: nat, user: string) {
    exists d :: d in docs && d.id == id && d.userUid == user
  }

  /** `Document.query.filter_by(user_uid=user).all()` (app.py:168, 216). */
  function DocsOf(docs: seq<Document>, user: string): seq<Document> {
    Filter((d: Document) => d.userUid == user, docs)
  }

  /** `Embedding.query.join(Document).filter(Document.user_uid == user).all()` (app.py:141):
      the user's chunks, in table order. */
  function FetchFor(docs: seq<Document>, embs: seq<Embedding>, user: string): seq<Embedding> {
    Filter((e: Embedding) => OwnedBy(docs, e.docId, user), embs)
  }

  /** With distinct ids, the document an id names has one owner: any other user's document has another id. */
  lemma OwnerUnique(docs: seq<Document>, id: nat, owner: string, d: Document)
    requires DistinctIds(docs) && OwnedBy(docs, id, owner)
    requires d in docs && d.userUid != owner
    ensures d.id != id
  {
    var o :| o in docs && o.id == id && o.userUid == owner;
    var i :| 0 <= i < |docs| && docs[i] == o;
    var j :| 0 <= j < |docs| && docs[j] == d;
    if i < j {
      assert docs[i].id != docs[j].id;
    } else {
      assert j < i;
      assert docs[j].id != docs[i].id;
    }
  }

  /** Only the user's chunks are fetched, and all of them. */
  lemma FetchIsScoped(docs: seq<Document>, embs: seq<Embedding>, user: string)
    ensures forall e :: e in FetchFor(docs, embs, user) <==> e in embs && OwnedBy(docs, e.docId, user)
  {
  }

  /** A search returns only chunks of the user's own documents (app.py:141-156). */
  lemma SearchIsScoped(docs: seq<Document>, embs: seq<Embedding>, user: string, query: Option<Vector>,
                       norm: Vector -> real, score: (Vector, Vector) -> real)
    ensures forall c :: c in SearchResult(query, FetchFor(docs, embs, user), norm, score) ==>
      exists e :: e in embs && OwnedBy(docs, e.docId, user) && e.chunk == c
  {
    var rows := FetchFor(docs, embs, user);
    var top := RankedTop(query, rows, norm, score);
    TopFromQualifying(query, rows, norm, score);
    forall c | c in SearchResult(query, rows, norm, score)
      ensures exists e :: e in embs && OwnedBy(docs, e.docId, user) && e.chunk == c
    {
      var k :| 0 <= k < |top| && ChunksOf(top)[k] == c;
      var e := rows[top[k].pos];
      assert e in rows;
    }
  }

  // ----- delete_document -----

  function WithoutDocument(docs: seq<Document>, id: nat): seq<Document> {
    Filter((d: Document) => d.id != id, docs)
  }

  function WithoutChunksOf(embs: seq<Embedding>, ids: set<nat>): seq<Embedding> {
    Filter((e: Embedding) => e.docId !in ids, embs)
  }

  /** Deleting one of `owner`'s documents leaves every other user's documents as they were. */
  lemma DeleteKeepsOtherDocuments(docs: seq<Document>, owner: string, id: nat, u: string)
    requires DistinctIds(docs) && OwnedBy(docs, id, owner) && u != owner
    ensures DocsOf(WithoutDocument(docs, id), u) == DocsOf(docs, u)
  {
    forall d | d in docs
      ensures (d.userUid == u && d.id != id) <==> d.userUid == u
    {
      if d.userUid == u {
        OwnerUnique(docs, id, owner, d);
      }
    }
    FilterTwice((d: Document) => d.userUid == u, (d: Document) => d.id != id, (d: Document) => d.userUid == u, docs);
  }

  /** Deleting one of `owner`'s documents leaves every other user's chunks as they were. */
  lemma DeleteKeepsOtherChunks(docs: seq<Document>, embs: seq<Embedding>, owner: string, id: nat, u: string)
    requires DistinctIds(docs) && OwnedBy(docs, id, owner) && u != owner
    ensures FetchFor(WithoutDocument(docs, id), WithoutChunksOf(embs, {id}), u) == FetchFor(docs, embs, u)
  {
    var docs' := WithoutDocument(docs, id);
    var ids := {id};
    forall e | e in embs
      ensures (OwnedBy(docs', e.docId, u) && e.docId !in ids) <==> OwnedBy(docs, e.docId, u)
    {
      if OwnedBy(docs, e.docId, u) {
        var d :| d in docs && d.id == e.docId && d.userUid == u;
        OwnerUnique(docs, id, owner, d);
        assert d in docs';
      }
    }
    FilterTwice((e: Embedding) => OwnedBy(docs', e.docId, u), (e: Embedding) => e.docId !in ids,
      (e: Embedding) => OwnedBy(docs, e.docId, u), embs);
  }

  /** After the delete the document and every chunk of it are gone, and no chunk is left orphaned. */
  lemma DeleteRemovesDocument(docs: seq<Document>, embs: seq<Embedding>, id: nat)
    requires NoOrphans(docs, embs)
    ensures id !in Ids(WithoutDocument(docs, id))
    ensures forall e :: e in WithoutChunksOf(embs, {id}) ==> e.docId != id
    ensures NoOrphans(WithoutDocument(docs, id), WithoutChunksOf(embs, {id}))
  {
    var docs' := WithoutDocument(docs, id);
    forall e | e in WithoutChunksOf(embs, {id})
      ensures e.docId in Ids(docs')
    {
      var d :| d in docs && d.id == e.docId;
      assert d in docs';
    }
  }

  // ----- clear_documents -----

  /** `[doc.id for doc in docs]` for the user's documents (app.py:216-217). */
  function IdsOf(docs: seq<Document>, user: string): set<nat> {
    set d | d in docs && d.userUid == user :: d.id
  }

  function WithoutOwner(docs: seq<Document>, user: string): seq<Document> {
    Filter((d: Document) => d.userUid != user, docs)
  }

  /** Clearing one user's documents leaves every other user's documents and chunks as they were. */
  lemma ClearKeepsOtherUsers(docs: seq<Document>, embs: seq<Embedding>, owner: string, u: string)
    requires DistinctIds(docs) && u != owner
    ensures DocsOf(WithoutOwner(docs, owner), u) == DocsOf(docs, u)
    ensures FetchFor(WithoutOwner(docs, owner), WithoutChunksOf(embs, IdsOf(docs, owner)), u) == FetchFor(docs, embs, u)
  {
    var docs' := WithoutOwner(docs, owner);
    var ids := IdsOf(docs, owner);
    FilterTwice((d: Document) => d.userUid == u, (d: Document) => d.userUid != owner, (d: Document) => d.userUid == u, docs);
    forall e | e in embs
      ensures (OwnedBy(docs', e.docId, u) && e.docId !in ids) <==> OwnedBy(docs, e.docId, u)
    {
      if OwnedBy(docs, e.docId, u) {
        var d :| d in docs && d.id == e.docId && d.userUid == u;
        assert d in docs';
        forall o | o in docs && o.userUid == owner
          ensures o.id != e.docId
        {
          OwnerUnique(docs, e.docId, u, o);
        }
      }
    }
    FilterTwice((e: Embedding) => OwnedBy(docs', e.docId, u), (e: Embedding) => e.docId !in ids,
      (e: Embedding) => OwnedBy(docs, e.docId, u), embs);
  }

  /** After clearing, the user has no documents and no chunks, and no chunk is left orphaned. */
  lemma ClearRemovesAll(docs: seq<Document>, embs: seq<Embedding>, owner: string)
    requires NoOrphans(docs, embs)
    ensures DocsOf(WithoutOwner(docs, owner), owner) == []
    ensures FetchFor(WithoutOwner(docs, owner), WithoutChunksOf(embs, IdsOf(docs, owner)), owner) == []
    ensures NoOrphans(WithoutOwner(docs, owner), WithoutChunksOf(embs, IdsOf(docs, owner)))
  {
    var docs' := WithoutOwner(docs, owner);
    var embs' := WithoutChunksOf(embs, IdsOf(docs, owner));
    forall e | e in embs'
      ensures e.docId in Ids(docs')
    {
      var d :| d in docs && d.id == e.docId;
      assert d.userUid != owner;
      assert d in docs';
    }
    forall e | e in embs'
      ensures !OwnedBy(docs', e.docId, owner)
    {
      forall d | d in docs' && d.id == e.docId
        ensures d.userUid != owner
      {
      }
    }
    FilterNone((e: Embedding) => OwnedBy(docs', e.docId, owner), embs');
    FilterNone((d: Document) => d.userUid == owner, docs');
  }

  // ----- upload -----

  /** What `upload` reports (app.py:270-305). */
  datatype UploadOutcome =
    | InvalidFile                                  // "Please select a valid file (PDF, DOCX, or TXT)"
    | NoText                                       // "Could not extract text from the file"
    | Uploaded(docId: nat, successCount: nat)      // a Document row was created; `successCount` may be 0

  /** The largest document id, 0 for an empty table. */
  function MaxId(docs: seq<Document>): (m: nat)
    ensures forall d :: d in docs ==> d.id <= m
    ensures docs == [] ==> m == 0
    ensures docs != [] ==> m in Ids(docs)
  {
    if docs == [] then 0
    else
      var m := MaxId(docs[..|docs| - 1]);
      var r := if docs[|docs| - 1].id > m then docs[|docs| - 1].id else m;
      MaxIdStep(docs, m, r);
      r
  }

  /** The step of `MaxId`: the larger of the last id and the maximum of the others is the maximum. */
  lemma MaxIdStep(docs: seq<Document>, m: nat, r: nat)
    requires docs != []
    requires var front := docs[..|docs| - 1];
      && (forall d :: d in front ==> d.id <= m)
      && (front == [] ==> m == 0)
      && (front != [] ==> m in Ids(front))
    requires r == if docs[|docs| - 1].id > m then docs[|docs| - 1].id else m
    ensures forall d :: d in docs ==> d.id <= r
    ensures r in Ids(docs)
  {
    var n := |docs| - 1;
    var front := docs[..n];
    assert docs == front + [docs[n]];
    if r == docs[n].id {
      assert docs[n] in docs;
    } else {
      assert front != [];
      var d :| d in front && d.id == m;
      assert d in docs;
    }
  }

  /** The id SQLite gives a new row of a table without AUTOINCREMENT: one more than the largest id,
      1 for an empty table. */
  function NextDocId(docs: seq<Document>): (id: nat)
    ensures id !in Ids(docs)
    ensures forall d :: d in docs ==> d.id < id
    ensures docs == [] ==> id == 1
    ensures docs != [] ==> id - 1 in Ids(docs)
  {
    MaxId(docs) + 1
  }

  /** A chunk is stored when it is not blank (`chunk.strip()` is non-empty) and its embedding is present
      and non-empty (app.py:292-294). */
  predicate Embeddable(chunk: string, embed: string -> Option<Vector>) {
    !AllSpace(chunk) && embed(chunk).Some? && |embed(chunk).value| > 0
  }

  /** The rows the loop of `upload` adds for `chunks` (app.py:291-297). */
  function Ingested(chunks: seq<string>, docId: nat, embed: string -> Option<Vector>): seq<Embedding> {
    if chunks == [] then []
    else
      var n := |chunks| - 1;
      var c := chunks[n];
      Ingested(chunks[..n], docId, embed) + (if Embeddable(c, embed) then [Embedding(docId, c, embed(c).value)] else [])
  }

  /** Every stored row belongs to the new document and holds one of its non-blank chunks with that chunk's
      embedding. */
  lemma {:induction false} IngestedRows(chunks: seq<string>, docId: nat, embed: string -> Option<Vector>)
    ensures forall e :: e in Ingested(chunks, docId, embed) ==>
      e.docId == docId && e.chunk in chunks && Embeddable(e.chunk, embed) && embed(e.chunk) == Some(e.vector)
  {
    if chunks != [] {
      var n := |chunks| - 1;
      IngestedRows(chunks[..n], docId, embed);
      assert forall x :: x in chunks[..n] ==> x in chunks;
    }
  }

  /** One more chunk adds its row exactly when it is embeddable. */
  lemma IngestedStep(chunks: seq<string>, i: nat, docId: nat, embed: string -> Option<Vector>)
    requires i < |chunks|
    ensures Ingested(chunks[..i + 1], docId, embed) == Ingested(chunks[..i], docId, embed) +
      (if Embeddable(chunks[i], embed) then [Embedding(docId, chunks[i], embed(chunks[i]).value)] else [])
  {
    assert chunks[..i + 1][..i] == chunks[..i];
  }

  function ChunkTexts(embs: seq<Embedding>): seq<string> {
    seq(|embs|, k requires 0 <= k < |embs| => embs[k].chunk)
  }

  /** Exactly the embeddable chunks are stored, in chunk order. */
  lemma {:induction false} IngestedChunks(chunks: seq<string>, docId: nat, embed: string -> Option<Vector>)
    ensures ChunkTexts(Ingested(chunks, docId, embed)) == Filter((c: string) => Embeddable(c, embed), chunks)
  {
    if chunks != [] {
      var n := |chunks| - 1;
      IngestedChunks(chunks[..n], docId, embed);
      var front := Ingested(chunks[..n], docId, embed);
      var last := if Embeddable(chunks[n], embed) then [Embedding(docId, chunks[n], embed(chunks[n]).value)] else [];
      assert ChunkTexts(front + last) == ChunkTexts(front) + ChunkTexts(last);
    }
  }

  ghost function EmbeddableIndices(chunks: seq<string>, embed: string -> Option<Vector>): set<nat> {
    set i: nat | i < |chunks| && Embeddable(chunks[i], embed)
  }

  /** `success_count` is the number of chunk positions whose chunk is embeddable. */
  lemma {:induction false} IngestedCount(chunks: seq<string>, docId: nat, embed: string -> Option<Vector>)
    ensures |Ingested(chunks, docId, embed)| == |EmbeddableIndices(chunks, embed)|
  {
    if chunks != [] {
      var n := |chunks| - 1;
      IngestedCount(chunks[..n], docId, embed);
      EmbeddableIndicesStep(chunks, embed);
      var c := chunks[n];
      assert Ingested(chunks, docId, embed) == Ingested(chunks[..n], docId, embed) +
        (if Embeddable(c, embed) then [Embedding(docId, c, embed(c).value)] else []);
    }
  }

  lemma EmbeddableIndicesStep(chunks: seq<string>, embed: string -> Option<Vector>)
    requires chunks != []
    ensures var n := |chunks| - 1;
      && n !in EmbeddableIndices(chunks[..n], embed)
      && EmbeddableIndices(chunks, embed) ==
           EmbeddableIndices(chunks[..n], embed) + (if Embeddable(chunks[n], embed) then {n} else {})
  {
    var n := |chunks| - 1;
    var all, front := EmbeddableIndices(chunks, embed), EmbeddableIndices(chunks[..n], embed);
    var added: set<nat> := if Embeddable(chunks[n], embed) then {n} else {};
    forall i: nat
      ensures i in all <==> i in front + added
    {
      if i < n {
        assert chunks[..n][i] == chunks[i];
      }
    }
  }

  /** A new document's id is not referenced by any existing chunk, so reusing a freed id is safe. */
  lemma NewIdUnreferenced(docs: seq<Document>, embs: seq<Embedding>)
    requires NoOrphans(docs, embs)
    ensures forall e :: e in embs ==> e.docId != NextDocId(docs)
  {
  }

  /** A row pointing at an existing document may be appended without orphaning anything. */
  lemma NoOrphansAppend(docs: seq<Document>, embs: seq<Embedding>, row: Embedding)
    requires NoOrphans(docs, embs) && row.docId in Ids(docs)
    ensures NoOrphans(docs, embs + [row])
  {
  }

  /** Adding a document under a fresh id, with chunks that point at it, keeps the tables consistent. */
  lemma UploadConsistent(docs: seq<Document>, embs: seq<Embedding>, doc: Document, added: seq<Embedding>)
    requires Consistent(docs, embs) && doc.id == NextDocId(docs)
    requires forall e :: e in added ==> e.docId == doc.id
    ensures Consistent(docs + [doc], embs + added)
  {
    var docs' := docs + [doc];
    forall i, j | 0 <= i < j < |docs'|
      ensures docs'[i].id != docs'[j].id
    {
      if j < |docs| {
        assert docs'[i] == docs[i] && docs'[j] == docs[j];
      } else {
        assert docs'[i] in docs;
      }
    }
    assert doc in docs';
    forall e | e in embs + added
      ensures e.docId in Ids(docs')
    {
      if e in embs {
        var d :| d in docs && d.id == e.docId;
        assert d in docs';
      }
    }
  }

  /** One user's upload leaves every other user's documents and chunks as they were. */
  lemma UploadKeepsOtherUsers(docs: seq<Document>, embs: seq<Embedding>, doc: Document, added: seq<Embedding>, u: string)
    requires doc.id == NextDocId(docs) && doc.userUid != u
    requires forall e :: e in added ==> e.docId == doc.id
    ensures DocsOf(docs + [doc], u) == DocsOf(docs, u)
    ensures FetchFor(docs + [doc], embs + added, u) == FetchFor(docs, embs, u)
  {
    var docs' := docs + [doc];
    FilterAppend((d: Document) => d.userUid == u, docs, [doc]);
    assert docs'[..|docs'| - 1] == docs;
    FilterAppend((e: Embedding) => OwnedBy(docs', e.docId, u), embs, added);
    forall e | e in embs
      ensures OwnedBy(docs', e.docId, u) <==> OwnedBy(docs, e.docId, u)
    {
      OwnedByAppend(docs, doc, e.docId, u);
    }
    FilterSame((e: Embedding) => OwnedBy(docs', e.docId, u), (e: Embedding) => OwnedBy(docs, e.docId, u), embs);
    forall d | d in docs
      ensures d.id != doc.id
    {
      assert d.id in Ids(docs);
    }
    forall e | e in added
      ensures !OwnedBy(docs', e.docId, u)
    {
      OwnedByAppend(docs, doc, e.docId, u);
    }
    FilterNone((e: Embedding) => OwnedBy(docs', e.docId, u), added);
  }

  /** Appending a document of another user changes nobody's ownership as seen by `u`. */
  lemma OwnedByAppend(docs: seq<Document>, doc: Document, id: nat, u: string)
    requires doc.userUid != u
    ensures OwnedBy(docs + [doc], id, u) <==> OwnedBy(docs, id, u)
  {
    if OwnedBy(docs + [doc], id, u) {
      var d :| d in docs + [doc] && d.id == id && d.userUid == u;
      assert d in docs;
    }
    if OwnedBy(docs, id, u) {
      var d :| d in docs && d.id == id && d.userUid == u;
      assert d in docs + [doc];
    }
  }

  // ----- documents listing -----

  /** `doc.content[:200] + "..." if len(doc.content) > 200 else doc.content` (app.py:177). */
  function Preview(content: string): string {
    if |content| > 200 then content[..200] + "..." else content
  }

  /** The preview is at most 203 characters, is the content itself when that fits in 200, and otherwise
      its first 200 characters followed by "..."; previewing a preview changes nothing. */
  lemma PreviewShape(content: string)
    ensures |Preview(content)| <= 203
    ensures |content| <= 200 ==> Preview(content) == content
    ensures |content| > 200 ==> content[..200] <= Preview(content) && Preview(content)[200..] == "..."
    ensures Preview(Preview(content)) == Preview(content)
  {
    if |content| > 200 {
      assert Preview(content)[..200] == content[..200];
    }
  }

  /** A row of the `documents` listing (app.py:173-178). */
  datatype DocumentSummary = DocumentSummary(id: nat, filename: string, chunkCount: nat, contentPreview: string)

  function Summary(doc: Document, embs: seq<Embedding>): DocumentSummary {
    DocumentSummary(doc.id, doc.filename, |Filter((e: Embedding) => e.docId == doc.id, embs)|, Preview(doc.content))
  }

  // ----- the database -----

  class Database {
    var documents: seq<Document>
    var embeddings: seq<Embedding>

    ghost predicate Valid()
      reads this
    {
      Consistent(documents, embeddings)
    }

    constructor ()
      ensures Valid() && documents == [] && embeddings == []
    {
      documents := [];
      embeddings := [];
    }

    function Fetch(user: string): seq<Embedding>
      reads this
    {
      FetchFor(documents, embeddings, user)
    }

    /** `search_similar(query, user)` (app.py:131-156), with the embedding service as the oracle `embed`. */
    method SearchSimilar(query: string, user: string, embed: string -> Option<Vector>,
                         norm: Vector -> real, score: (Vector, Vector) -> real) returns (chunks: seq<string>)
      ensures chunks == SearchResult(embed(query), Fetch(user), norm, score)
    {
      var queryEmbedding := embed(query);
      if queryEmbedding.None? || |queryEmbedding.value| == 0 {
        return [];
      }
      var q := queryEmbedding.value;
      var queryNorm := norm(q);
      if queryNorm == 0.0 {
        return [];
      }
      var scored: seq<Scored> := [];
      var rows := Fetch(user);
      for i := 0 to |rows|
        invariant scored == ScoreAll(q, rows[..i], norm, score)
      {
        assert rows[..i + 1][..i] == rows[..i];
        var vector := rows[i].vector;
        if |vector| != |q| {
          continue;
        }
        var vectorNorm := norm(vector);
        if vectorNorm == 0.0 {
          continue;
        }
        var similarity := score(q, vector);
        scored := scored + [Scored(similarity, i, rows[i].chunk)];
      }
      assert rows[..|rows|] == rows;
      var ranked := SortByRank(scored);
      chunks := ChunksOf(ranked[..Min(TopK, |ranked|)]);
    }

    /** `delete_document(doc_id)` (app.py:183-197) for the signed-in `user`. */
    method DeleteDocument(user: string, docId: nat) returns (found: bool)
      requires Valid()
      modifies this
      ensures Valid()
      ensures found <==> OwnedBy(old(documents), docId, user)
      ensures found ==> (documents == WithoutDocument(old(documents), docId)
                      && embeddings == WithoutChunksOf(old(embeddings), {docId}))
      ensures !found ==> documents == old(documents) && embeddings == old(embeddings)
      ensures forall u :: u != user ==> DocsOf(documents, u) == DocsOf(old(documents), u)
      ensures forall u :: u != user ==> Fetch(u) == old(Fetch(u))
    {
      found := OwnedBy(documents, docId, user);
      if !found {
        return;
      }
      ghost var docs, embs := documents, embeddings;
      DeleteRemovesDocument(docs, embs, docId);
      forall u | u != user
        ensures DocsOf(WithoutDocument(docs, docId), u) == DocsOf(docs, u)
        ensures FetchFor(WithoutDocument(docs, docId), WithoutChunksOf(embs, {docId}), u) == FetchFor(docs, embs, u)
      {
        DeleteKeepsOtherDocuments(docs, user, docId, u);
        DeleteKeepsOtherChunks(docs, embs, user, docId, u);
      }
      embeddings := WithoutChunksOf(embeddings, {docId});
      documents := WithoutDocument(documents, docId);
      assert DistinctIds(documents) by {
        WithoutKeepsDistinct(docs, (d: Document) => d.id != docId);
      }
    }

    /** `clear_documents()` (app.py:211-225) for the signed-in `user`. */
    method ClearDocuments(user: string)
      requires Valid()
      modifies this
      ensures Valid()
      ensures documents == WithoutOwner(old(documents), user)
      ensures embeddings == WithoutChunksOf(old(embeddings), IdsOf(old(documents), user))
      ensures DocsOf(documents, user) == [] && Fetch(user) == []
      ensures forall u :: u != user ==> DocsOf(documents, u) == DocsOf(old(documents), u)
      ensures forall u :: u != user ==> Fetch(u) == old(Fetch(u))
    {
      ghost var docs, embs := documents, embeddings;
      var ids := IdsOf(documents, user);
      ClearRemovesAll(docs, embs, user);
      forall u | u != user
        ensures DocsOf(WithoutOwner(docs, user), u) == DocsOf(docs, u)
        ensures FetchFor(WithoutOwner(docs, user), WithoutChunksOf(embs, ids), u) == FetchFor(docs, embs, u)
      {
        ClearKeepsOtherUsers(docs, embs, user, u);
      }
      embeddings := WithoutChunksOf(embeddings, ids);
      documents := WithoutOwner(documents, user);
      assert DistinctIds(documents) by {
        WithoutKeepsDistinct(docs, (d: Document) => d.userUid != user);
      }
    }

    /** `upload()` (app.py:265-307) for the signed-in `user`: `file` is the uploaded file's name (None when
        no file was sent), `storedName` its `secure_filename`, `extracted` what `extract_text` returned. */
    method Upload(user: string, file: Option<string>, storedName: string, extracted: string,
                  embed: string -> Option<Vector>) returns (outcome: UploadOutcome)
      requires Valid()
      modifies this
      ensures Valid()
      ensures (file.None? || !AllowedFile(file.value)) <==> outcome == InvalidFile
      ensures outcome == NoText <==> file.Some? && AllowedFile(file.value) && AllSpace(extracted)
      ensures !outcome.Uploaded? ==> documents == old(documents) && embeddings == old(embeddings)
      ensures outcome.Uploaded? ==>
        && outcome.docId == NextDocId(old(documents))
        && documents == old(documents) + [Document(outcome.docId, user, storedName, extracted)]
        && embeddings == old(embeddings) + Ingested(ChunkText(extracted), outcome.docId, embed)
        && outcome.successCount == |Ingested(ChunkText(extracted), outcome.docId, embed)|
      ensures forall u :: u != user ==> DocsOf(documents, u) == DocsOf(old(documents), u)
      ensures forall u :: u != user ==> Fetch(u) == old(Fetch(u))
    {
      if file.None? || !AllowedFile(file.value) {
        return InvalidFile;
      }
      if Strip(extracted) == [] {
        return NoText;
      }
      var doc := Document(NextDocId(documents), user, storedName, extracted);
      ghost var docs, embs := documents, embeddings;
      UploadConsistent(docs, embs, doc, []);
      assert embs + [] == embs;
      documents := documents + [doc];
      assert doc in documents;
      var chunks := ChunkText(extracted);
      var successCount := IngestChunks(doc.id, chunks, embed);
      ghost var added := Ingested(chunks, doc.id, embed);
      IngestedRows(chunks, doc.id, embed);
      forall u | u != user
        ensures DocsOf(docs + [doc], u) == DocsOf(docs, u)
        ensures FetchFor(docs + [doc], embs + added, u) == FetchFor(docs, embs, u)
      {
        UploadKeepsOtherUsers(docs, embs, doc, added, u);
      }
      outcome := Uploaded(doc.id, successCount);
    }

    /** The loop of `upload` (app.py:289-297): store a row for each embeddable chunk of document `docId`,
        which is already in the table, in chunk order, and count them. */
    method IngestChunks(docId: nat, chunks: seq<string>, embed: string -> Option<Vector>) returns (successCount: nat)
      requires Valid() && docId in Ids(documents)
      modifies this
      ensures Valid()
      ensures documents == old(documents)
      ensures embeddings == old(embeddings) + Ingested(chunks, docId, embed)
      ensures successCount == |Ingested(chunks, docId, embed)|
    {
      successCount := 0;
      for i := 0 to |chunks|
        invariant documents == old(documents) && Valid()
        invariant embeddings == old(embeddings) + Ingested(chunks[..i], docId, embed)
        invariant successCount == |Ingested(chunks[..i], docId, embed)|
      {
        IngestedStep(chunks, i, docId, embed);
        ghost var done := Ingested(chunks[..i], docId, embed);
        var chunk := chunks[i];
        // `chunk.strip()` is non-empty exactly when the chunk is not all whitespace (see `Strip`).
        if !AllSpace(chunk) {
          var vector := embed(chunk);
          if vector.Some? && |vector.value| > 0 {
            var row := Embedding(docId, chunk, vector.value);
            NoOrphansAppend(documents, embeddings, row);
            embeddings := embeddings + [row];
            successCount := successCount + 1;
            assert embeddings == old(embeddings) + (done + [row]);
          }
        }
      }
      assert chunks[..|chunks|] == chunks;
    }

    /** `documents()` (app.py:164-180): one summary row per document of `user`, in table order. */
    method ListDocuments(user: string) returns (rows: seq<DocumentSummary>)
      ensures |rows| == |DocsOf(documents, user)|
      ensures forall k :: 0 <= k < |rows| ==> rows[k] == Summary(DocsOf(documents, user)[k], embeddings)
    {
      var userDocs := DocsOf(documents, user);
      rows := [];
      for k := 0 to |userDocs|
        invariant |rows| == k
        invariant forall j :: 0 <= j < k ==> rows[j] == Summary(userDocs[j], embeddings)
      {
        var doc := userDocs[k];
        var chunkCount := |Filter((e: Embedding) => e.docId == doc.id, embeddings)|;
        rows := rows + [DocumentSummary(doc.id, doc.filename, chunkCount, Preview(doc.content))];
      }
    }
  }

  /** Removing rows keeps the remaining ids distinct. */
  lemma {:induction false} WithoutKeepsDistinct(docs: seq<Document>, keep: Document -> bool)
    requires DistinctIds(docs)
    ensures DistinctIds(Filter(keep, docs))
  {
    if docs != [] {
      var n := |docs| - 1;
      assert forall i, j :: 0 <= i < j < n ==> docs[..n][i].id != docs[..n][j].id;
      WithoutKeepsDistinct(docs[..n], keep);
      var front := Filter(keep, docs[..n]);
      forall d | d in front
        ensures d.id != docs[n].id
      {
        var i :| 0 <= i < n && docs[..n][i] == d;
        assert docs[i] == d;
      }
      if keep(docs[n]) {
        assert Filter(keep, docs) == front + [docs[n]];
        DistinctSnoc(front, docs[n]);
      } else {
        assert Filter(keep, docs) == front;
      }
    }
  }

  /** A row whose id no earlier row has may be appended without breaking distinctness. */
  lemma DistinctSnoc(docs: seq<Document>, d: Document)
    requires DistinctIds(docs)
    requires forall x :: x in docs ==> x.id != d.id
    ensures DistinctIds(docs + [d])
  {
    var all := docs + [d];
    forall i, j | 0 <= i < j < |all|
      ensures all[i].id != all[j].id
    {
      if j == |docs| {
        assert all[i] in docs;
      }
    }
  }
}
