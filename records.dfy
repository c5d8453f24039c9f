/** Rows of the two tables the retrieval core reads and writes. */
module Records {

  /** An embedding vector; its entries are the floats the embedding service returns. */
  type Vector = seq<real>

  /** A row of the `Document` table (app.py:35-39). */
  datatype Document = Document(id: nat, userUid: string, filename: string, content: string)

  /** A row of the `Embedding` table (app.py:41-45): a chunk of a document's text and its vector.
      The row's own `id` column is not modelled, since nothing in the core reads it. */
  datatype Embedding = Embedding(docId: nat, chunk: string, vector: Vector)
}
