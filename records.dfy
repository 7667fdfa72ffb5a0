/** Records shared by every stage of the pipeline: a chunk of text, its
    metadata and its optional embedding, as stored in chunks.json. */
module Records {

  datatype Option<T> = None | Some(value: T)

  /** An embedding vector. The provider returns floating-point numbers; the
      model keeps the components abstract as integers. */
  type Vector = seq<int>

  /** The `year` metadata field: the integer parsed from the filename, or
      the literal 'unknown'. */
  datatype Year = Year(value: nat) | Unknown

  datatype Metadata = Metadata(source: string, year: Year, chunkIndex: nat)

  /** A chunk record. Freshly ingested chunks carry no `embedding` field,
      which is `None` here. */
  datatype Chunk = Chunk(content: string, metadata: Metadata, embedding: Option<Vector>)

  function Min(a: int, b: int): int
  {
    if a <= b then a else b
  }

  function Max(a: int, b: int): int
  {
    if a <= b then b else a
  }

  /** `chunks.map(chunk => chunk.content)` */
  function Texts(cs: seq<Chunk>): seq<string>
  {
    seq(|cs|, i requires 0 <= i < |cs| => cs[i].content)
  }
}
