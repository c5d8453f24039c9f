# Document Q&A chatbot: retrieval core

A Dafny model of the retrieval core of a Flask chatbot. Signed-in users upload PDF, DOCX or TXT files.
The server keeps each file's text as a `Document` row. It cuts the text into 800-character chunks and
stores one `Embedding` row per chunk that the embedding service could vectorise. In "rag" mode, a chat
message is answered from the three chunks of the user's own documents that are most similar to the
message. The browser escapes the user's own chat messages before inserting them into the page.

The model has these modules:

- `Strings`: Python's `str.strip()`, `"".join` and `sep.join`.
- `Chunker`: `chunk_text`.
- `FileTypes`: `allowed_file`.
- `HtmlEscape`: the browser-side `escapeHtml`.
- `Records`: the rows of the `Document` and `Embedding` tables.
- `Ranker`: the scoring, sorting and top-3 cut of `search_similar`.
- `VectorStore`: the two tables as a `Database` class, with these methods:
  - `SearchSimilar`: owner-scoped fetch and ranking.
  - `Upload`: the `upload` handler and its ingestion loop, `IngestChunks`.
  - `DeleteDocument`.
  - `ClearDocuments`.
  - `ListDocuments`: the `documents` listing with its content preview.
- `Chat`: the session mode switch of `set_mode`, and the prompt `chat` builds in each mode.

The embedding service enters as a function parameter `embed: string -> Option<Vector>`; `None` stands
for its failure. The vector norm and the cosine similarity enter as the parameters
`norm: Vector -> real` and `score: (Vector, Vector) -> real`. Every property below therefore holds
whatever these functions compute.

## Model

| member | source | states |
|---|---|---|
| Strings.Strip | app.py:52 | the result is empty exactly when the input is all whitespace; otherwise it starts and ends with a non-space character |
| Strings.StripCutsOnlySpace | app.py:52 | the result is a contiguous piece of the input, and only whitespace was cut off on either side |
| Strings.JoinContainsParts | app.py:328 | every part of `sep.join(parts)` occurs in the joined text |
| Strings.Join | app.py:328 | definition of `sep.join(parts)`; its property is in `Strings.JoinContainsParts` |
| Chunker.ChunkText | app.py:51-53 | definition of `chunk_text`; its properties are in `Chunker.ChunksCover`, `ChunkSizes`, `ChunkTextEmpty`, `ChunkEndsNotBlank` and `SlicesPrefix` |
| Chunker.ChunksCover | app.py:51-53 | the chunks, put back together, are exactly the stripped text: nothing is lost, duplicated or reordered |
| Chunker.ChunkSizes | app.py:51-53 | every chunk but the last has exactly 800 characters, and the last has 1 to 800 |
| Chunker.ChunkTextEmpty | app.py:51-53 | there are no chunks exactly when the text is all whitespace |
| Chunker.ChunkEndsNotBlank | app.py:51-53 | the first chunk starts, and the last chunk ends, with a non-space character |
| Chunker.SlicesPrefix | app.py:53 | the first k chunks together are the first k*800 characters of the stripped text |
| FileTypes.LastIndexOf | app.py:49 | returns nothing exactly when there is no dot; otherwise returns the position of a dot with no dot after it (where `rsplit(".", 1)` cuts) |
| FileTypes.AllowedFile | app.py:48-49 | definition of `allowed_file`; its properties are in `FileTypes.AllowedFileIff` and `AllowedFileIgnoresCase` |
| FileTypes.AllowedFileIff | app.py:48-49 | a name is accepted exactly when it has a dot, no dot follows that one, and the lowercased text after it is pdf, docx or txt |
| FileTypes.AllowedFileIgnoresCase | app.py:49 | a name is accepted exactly when its lowercased form is |
| HtmlEscape.EscapeHtml | static/scripts/script.js:80-87 | definition of `escapeHtml` as the chain of five global replacements; its properties are in the `HtmlEscape` lemmas below |
| HtmlEscape.EscapeChar | static/scripts/script.js:82-86 | each of & < > " ' becomes an entity; every other character stays as it is; an entity contains no markup character and no second `&` |
| HtmlEscape.EscapeIsPerCharacter | static/scripts/script.js:80-87 | the chain of five global replacements equals escaping each character on its own, because `&` is replaced first |
| HtmlEscape.EscapeHtmlHomomorphic | static/scripts/script.js:80-87 | escaping a concatenation is the concatenation of the escapings, and the empty string stays empty |
| HtmlEscape.EscapeHtmlPassThrough | static/scripts/script.js:80-87 | text without any of the five special characters is returned unchanged |
| HtmlEscape.EscapeHtmlNoMarkup | static/scripts/script.js:83-86 | the output contains no `<`, `>`, `"` or `'` |
| HtmlEscape.EscapeHtmlAmpersands | static/scripts/script.js:82 | every `&` of the output starts one of the five entities, so nothing is escaped twice |
| HtmlEscape.EscapeHtmlRoundTrip | static/scripts/script.js:80-87 | decoding the five entities gives back the original text, so escaping loses nothing |
| HtmlEscape.ReplaceAllAppend | static/scripts/script.js:81-86 | each global replacement of the chain distributes over concatenation |
| HtmlEscape.EscapeHtmlChar | static/scripts/script.js:81-86 | on one character the whole chain yields that character's entity: later replacements leave earlier entities alone |
| Ranker.ScoreAll | app.py:143-153 | every scored entry is a candidate of equal length and non-zero norm, carrying that candidate's chunk and score; entries appear in fetch order |
| Ranker.ScoreAllComplete | app.py:143-153 | the scored positions are exactly the qualifying candidates: none is skipped, none is invented |
| Ranker.ScoreAllCount | app.py:143-153 | there are as many scored entries as qualifying candidates |
| Ranker.SortByRank | app.py:155 | the sort is a permutation of the scored entries |
| Ranker.SortByRankRanked | app.py:155 | the sorted entries are in non-increasing score order, and entries with equal scores keep their fetch order (Python's sort is stable) |
| Ranker.RankedUnique | app.py:155 | two ranked arrangements of the same entries are equal, so any stable descending sort gives this one result |
| Ranker.RankedTop | app.py:131-156 | definition of the ranked entries `search_similar` keeps; its properties are in `Ranker.TopLength`, `TopFromQualifying`, `TopOrdered` and `TopIsBest` |
| Ranker.SearchResult | app.py:131-156 | definition of what `search_similar` returns: the chunks of `RankedTop`; its properties are in `Ranker.UnusableQueryFindsNothing` and `VectorStore.SearchIsScoped` |
| Ranker.UnusableQueryFindsNothing | app.py:132-138 | an absent, empty or zero-norm query embedding yields no chunks |
| Ranker.TopLength | app.py:156 | the result has min(3, number of qualifying candidates) chunks |
| Ranker.TopFromQualifying | app.py:143-156 | every returned entry is a distinct qualifying candidate, with that candidate's chunk and score |
| Ranker.TopOrdered | app.py:155-156 | the returned entries are in non-increasing score order, with ties in fetch order |
| Ranker.TopIsBest | app.py:155-156 | a qualifying candidate that was left out ranks below every returned one |
| VectorStore.Filter | app.py:141 | a row is selected exactly when it is in the table and satisfies the condition |
| VectorStore.FilterTwice | app.py:187 | filtering by one condition and then another equals filtering once by both |
| VectorStore.FetchFor | app.py:141 | definition of the joined fetch of a user's embeddings; its property is in `VectorStore.FetchIsScoped` |
| VectorStore.FetchIsScoped | app.py:141 | the fetch returns exactly the embeddings of the user's own documents |
| VectorStore.SearchIsScoped | app.py:141-156 | every chunk a search returns comes from one of the user's own documents |
| VectorStore.OwnerUnique | app.py:36-37 | with distinct ids, a document of another user never has the id of one of this user's documents |
| VectorStore.DeleteKeepsOtherDocuments | app.py:187-195 | deleting one of a user's documents leaves every other user's documents unchanged |
| VectorStore.DeleteKeepsOtherChunks | app.py:187-195 | deleting one of a user's documents leaves every other user's fetched chunks unchanged |
| VectorStore.DeleteRemovesDocument | app.py:192-194 | after the delete, neither the document nor any of its chunks remains, and no chunk is orphaned |
| VectorStore.ClearKeepsOtherUsers | app.py:216-222 | clearing a user's documents leaves every other user's documents and chunks unchanged |
| VectorStore.ClearRemovesAll | app.py:216-222 | after clearing, the user has no documents and no chunks, and no chunk is orphaned |
| VectorStore.MaxId | app.py:36 | the result is the largest document id: every id is at most it, and it is one of the ids, or 0 for an empty table |
| VectorStore.NextDocId | app.py:285-287 | the new id is one more than the largest id (1 for an empty table), so it exceeds every existing id and is not used by any existing document |
| VectorStore.NewIdUnreferenced | app.py:285-287 | no existing chunk points at the new document's id |
| VectorStore.Embeddable | app.py:292-294 | definition of when the loop stores a chunk: not blank, with a present and non-empty embedding; used by `VectorStore.IngestedChunks` and `IngestedCount` |
| VectorStore.Ingested | app.py:291-297 | definition of the rows the loop adds; its properties are in `VectorStore.IngestedRows`, `IngestedChunks` and `IngestedCount` |
| VectorStore.IngestedRows | app.py:291-297 | every stored row belongs to the new document, holds one of its non-blank chunks, and holds the embedding the service returned for that chunk |
| VectorStore.IngestedChunks | app.py:291-297 | exactly the embeddable chunks are stored, in chunk order |
| VectorStore.IngestedCount | app.py:290-297 | `success_count` equals the number of chunk positions whose chunk is embeddable |
| VectorStore.UploadConsistent | app.py:285-297 | adding the new document with chunks that point at it keeps ids distinct and leaves no chunk orphaned |
| VectorStore.UploadKeepsOtherUsers | app.py:284-297 | one user's upload leaves every other user's documents and fetched chunks unchanged |
| VectorStore.Preview | app.py:177 | definition of `content_preview`; its properties are in `VectorStore.PreviewShape` |
| VectorStore.PreviewShape | app.py:177 | the preview has at most 203 characters; content of up to 200 characters is its own preview; longer content gives its first 200 characters followed by "..."; previewing a preview changes nothing |
| VectorStore.Summary | app.py:173-178 | definition of one row of the `documents` listing; `VectorStore.Database.ListDocuments` returns one per document of the user |
| VectorStore.WithoutKeepsDistinct | app.py:192-194 | removing documents keeps the remaining ids distinct |
| VectorStore.Database.constructor | app.py:35-45 | the tables start empty and consistent |
| VectorStore.Database.SearchSimilar | app.py:131-156 | the method returns the top three chunks of the user's fetched rows, ranked as specified by `Ranker.SearchResult` |
| VectorStore.Database.DeleteDocument | app.py:183-197 | reports not-found and changes nothing unless the user owns a document with that id; otherwise removes that document and its chunks; keeps the tables consistent; leaves other users' documents and fetched chunks unchanged |
| VectorStore.Database.ClearDocuments | app.py:211-225 | removes all of the user's documents and their chunks; keeps the tables consistent; leaves other users' documents and fetched chunks unchanged |
| VectorStore.Database.Upload | app.py:265-307 | rejects a missing file or a disallowed extension, and whitespace-only extracted text, changing nothing; otherwise appends the document under a fresh id and exactly the ingested chunk rows, and reports their count; keeps the tables consistent; leaves other users' data unchanged |
| VectorStore.Database.IngestChunks | app.py:289-297 | for a document already in the table, the loop appends exactly the rows specified by `Ingested`, in chunk order, counts them, and keeps the tables consistent |
| VectorStore.Database.ListDocuments | app.py:168-178 | one summary per document of the user, in table order, each with the document's chunk count and content preview |
| Chat.NextMode | app.py:351-353 | an absent field selects "chat"; "chat" or "rag" is stored; any other value leaves the session's mode unchanged |
| Chat.NextModeKeepsValid | app.py:351-353 | a session's mode stays absent or valid, and repeating the same request changes nothing further |
| Chat.Session.SetMode | app.py:349-354 | the session's mode becomes `NextMode` of the request, and the mode read back afterwards is "chat" or "rag" |
| Chat.BuildPrompt | app.py:325-333 | definition of the prompt in each mode; its properties are in `Chat.PlainChatSendsMessage`, `PromptAsksQuestion` and `PromptCarriesContext` |
| Chat.PlainChatSendsMessage | app.py:332-333 | outside "rag" mode the message itself is the prompt passed to `ask_gemini` |
| Chat.PromptAsksQuestion | app.py:325-333 | in every mode the user's message is part of the prompt |
| Chat.PromptCarriesContext | app.py:327-328 | in "rag" mode with retrieved chunks, every chunk is part of the prompt, and the prompt ends with "\n\nQuestion: " and the message |
| Chat.ChatPrompt | app.py:318-333 | a blank message yields the empty-message error; otherwise the prompt is built from the stripped message and, in "rag" mode only, from the search result for it |

## Left out

- Flask routing, login through the identity provider, sign-up, logout, flash messages, redirects and
  templates are not modelled. The signed-in user is a parameter of each operation.
- The `Message` table, `clear_history` and the storing of chat messages are not modelled. The call to
  the language model and `clean_ai_response` are not modelled either. `Chat.ChatPrompt` stops at the
  prompt it passes to `ask_gemini`. `ask_gemini` wraps that prompt in its own formatting template
  (app.py:98-101) before the network call, and that wrapping is not modelled.
- `get_embedding` and the language-model client are network calls. The embedding service is the
  parameter `embed`. Within one operation it is taken to answer the same text the same way.
- Floating point is not modelled. `np.linalg.norm` is the parameter `norm` and the cosine similarity
  is the parameter `score`. NaN scores, which would break the sort order, are not modelled.
- `extract_text` (PDF, DOCX and text readers), `secure_filename`, saving the upload and removing it
  afterwards are file-system work. `Database.Upload` takes the extracted text and the stored name as
  parameters.
- Database transactions, the flush and the commit are not modelled. Each method's effect is taken as
  atomic.
- The `id` column of the `Embedding` table is not modelled, because nothing in the core reads it.
- The order of `.all()` results is taken to be insertion order, which SQLite returns for these
  queries in practice. Ties between equal scores are then broken by that order.
- Document ids follow SQLite's rowid rule: one more than the largest id in the table. Rowid
  exhaustion at 2^63 - 1 is not modelled.
- FileTypes.Lower: covers `str.lower()` for ASCII letters only. No character outside ASCII lowercases
  to a letter of "pdf", "docx" or "txt", so the model gives Python's verdict on every file name.
- Strings.IsSpace follows Python's `str.isspace()` for the whitespace code points. Characters
  outside the Basic Multilingual Plane are not whitespace in Python either.
