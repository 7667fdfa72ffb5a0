# pgvector-assignment retrieval core, modelled in Dafny

This project models the retrieval pipeline of a small question-answering
agent over Warren Buffett's shareholder letters. It covers:

- **Chunking** (`Chunker`, built on `Windows`). `chunkText(text, size,
  overlap)` runs a `start` cursor over the text. At each step it emits
  `text.slice(start, min(start + size, |text|))` and then advances by
  `size - overlap`. The three ingestion scripts each carry an identical copy
  of this function, and the model has one function for all three: the
  `while` loop as the method `ChunkText`, proved equal to the
  specification function `Chunks`. The defaults are 512 characters and 50
  characters of overlap.
- **Tagging** (`Years`, `Ingest`). Each chunk record gets three tags:
  - `source` is the PDF's filename;
  - `year` is the leftmost run of four ASCII digits in that name, read as
    a decimal number, or `'unknown'` when the name has none;
  - `chunkIndex` is the chunk's position in its file.

  `ingestMastra.js` appends the records of every file, in file order, to
  one list; the method `IngestFiles` does the same.
- **Batch embedding** (`Embedder`). `precomputeChunkEmbeddings` cuts the
  chunk array into contiguous batches of `batchSize` (default 50) and sends
  each batch's texts to the embedding provider in one call.
  - When the call succeeds, the idx-th returned vector is written into the
    batch's idx-th chunk, in place in the shared array.
  - When the call fails, the error is caught and the loop moves on.
  - At the end the whole array is written back to `chunks.json`.

  The model is a class `ChunkStore` with an `array<Chunk>` field and a
  `persisted` field for the file contents. The loop is the method
  `EmbedInPlace`, proved equal to the specification function `EmbedAll`.
- **Search** (`Retriever`). `searchChunks` keeps the chunks that carry an
  embedding, attaches each one's score against the query vector, sorts by
  score (highest first, stable) and keeps the first `topK` (default 5).
- **Context** (`Context`). `runAgent` renders every result as
  `[year] content` and joins the renderings with a blank line.

The embedding provider is an abstract function parameter. It takes the
batch number and the batch's texts, and returns either a failure or a
sequence of vectors. The similarity score is also an abstract function, from
two vectors to an integer. The query's embedding is an input of the search.

Code and description differ in a few places; the model follows the code:

- **No guard on overlap.** Nothing in the code rejects `overlap >= size`.
  With such values and a non-empty text, the cursor never moves forward
  and the loop never ends. `ChunkText` therefore requires `overlap < size`,
  which is the loop's own termination condition.
- **No size check.** The code does not reject a negative or zero `size`.
  The model allows it: `Slice` follows `String.prototype.slice` for the
  negative end such a call produces.
- **Short or long answers.** The code does not check that a provider answer
  has one vector per text. An answer with fewer vectors fills only the
  first chunks of the batch. An answer with more vectors fills the whole
  batch and then throws inside `forEach`; the surrounding `catch` swallows
  the error. `Written` and `WriteBack` cover both cases.
- **Negative topK.** `topK` behaves as `slice(0, topK)` does, so a negative
  value counts back from the end (`Take`).

## Model

| member | source | states |
|---|---|---|
| Chunker.ChunkText | ingestPDFs.js:12-21 | The cursor loop ends whenever overlap < size. The chunks it pushes are exactly `Chunks(text, size, overlap)`, so the same inputs always give the same chunks. |
| Chunker.ChunkShape | documentIngest.js:18-22 | Chunk k is the slice from k*(size-overlap) to min(k*(size-overlap)+size, \|text\|). The number of chunks is the least n with n*(size-overlap) >= \|text\|. An empty text gives no chunks, and a non-empty one gives at least one. |
| Chunker.ChunkLengths | documentIngest.js:19-21 | With a positive size, every chunk is non-empty and has at most `size` characters. |
| Chunker.LastChunkEnds | ingestMastra.js:11-14 | With 0 <= overlap < size, the last chunk starts at (n-1)*(size-overlap) and ends exactly at \|text\|. |
| Chunker.ChunksCover | documentIngest.js:20-22 | With 0 <= overlap < size, every character of the text lies in some chunk k, at offset p - k*(size-overlap). |
| Chunker.ConsecutiveChunksOverlap | ingestMastra.js:12-14 | When chunk k has the full `size` characters, its last `overlap` characters are the first `overlap` characters of chunk k+1. |
| Chunker.StitchChunks | ingestPDFs.js:14-19 | Round trip: joining the chunks back together, with the shared overlap dropped from every chunk after the first, gives back the original text. |
| Chunker.TwentyFiveCharacters | ingestMastra.js:8-17 | Worked example: 25 characters with size 10 and overlap 5 give 5 chunks, and the last one is the final 5 characters. |
| Years.FirstFourDigits | documentIngest.js:50 | The search returns the leftmost position at or after `from` where four digits begin, or nothing when no such position exists. |
| Years.ExtractYear | documentIngest.js:50-51 | The tag is `unknown` exactly when the filename has no run of four digits. Otherwise it is the decimal value, below 10000, of the leftmost such run. |
| Years.ExtractYearLeftmost | ingestMastra.js:30-31 | Converse: if position i starts the leftmost run of four digits, the tag is the value of the four digits at i. |
| Years.YearInsideLongerRun | ingestMastra.js:30-31 | The match can sit inside a longer digit run: "letter12345.pdf" is tagged 1234. |
| Ingest.TagChunks | documentIngest.js:55-58 | The records keep the chunk texts in order and carry no embedding. Record i has the file's source and year and chunkIndex i, so the indices are 0..n-1 and strictly increasing. |
| Ingest.IngestFiles | ingestMastra.js:25-41 | The loop over the files leaves `allChunks` equal to the per-file record lists concatenated in file order (`Ingested`). |
| Ingest.IngestedLayout | ingestMastra.js:41 | The total length is the sum of the per-file chunk counts. Record i of file k sits at position Offset(files, k) + i. |
| Ingest.IngestedSources | ingestMastra.js:36-41 | Every record's source is the name of one of the input files. |
| Ingest.ChunkIndicesIncrease | ingestMastra.js:25-41 | When no filename repeats, the chunk indices of each source rise strictly along the combined list, so (source, chunkIndex) never repeats. |
| Windows.WindowsPartition | agent.js:24-25 | The batches [i, min(i+batchSize, n)) for i = 0, batchSize, 2*batchSize, ... partition the array. They are contiguous, the first starts at 0 and the last ends at n. Every batch is non-empty, and all but the last have exactly batchSize chunks. An empty array has no batches. |
| Embedder.Written | agent.js:34-36 | A chunk keeps its content and metadata. It is unchanged when the call failed or the answer has no vector for its offset; otherwise it receives the vector at its offset. |
| Embedder.WriteBatch | agent.js:34-36 | The forEach writes vector idx into position lo+idx, for every idx that both the answer and the batch have, and changes nothing else in the array. |
| Embedder.EmbedBatchFrame | agent.js:25-36 | One batch changes only embeddings, and only at positions inside its own range. |
| Embedder.RunBatch | agent.js:25-41 | One loop iteration: the texts of [lo, hi) go to the provider. On success the array becomes the written-back batch, and on failure it stays as it was. |
| Embedder.EmbedInPlace | agent.js:24-42 | The in-place batch loop leaves the array equal to `EmbedAll` of its old contents. |
| Embedder.BatchIsolation | agent.js:28-41 | Batch k is [k*batchSize, min(k*batchSize+batchSize, n)). In the final array, a batch whose call failed keeps its chunks exactly as they were, and a batch whose call succeeded has vector idx at its chunk idx. Each outcome depends only on that batch's own call, so a failure does not stop later batches. |
| Embedder.EmbedAllPreserves | agent.js:22-42 | The embedder keeps the array's length, its order, and every chunk's content and metadata. |
| Embedder.ChunkStore.constructor | agent.js:14 | The store holds the chunks loaded from chunks.json, and the file holds the same list. |
| Embedder.ChunkStore.PrecomputeEmbeddings | agent.js:22-46 | The array object stays the same, and its contents become `EmbedAll` of the old contents. Afterwards the file holds exactly the final array. |
| Retriever.Candidates | agent.js:56-61 | Exactly the chunks that carry an embedding are scored, one result per embedded chunk. Each result is a store chunk with an embedding and its score against the query, and every embedded chunk appears among the results. |
| Retriever.CandidatesAppend | agent.js:57-61 | Filtering and scoring work chunk by chunk, so they distribute over concatenation of stores. |
| Retriever.NoEmbeddingsNoResults | agent.js:57 | A store with no embedded chunk gives no candidates and no results. |
| Retriever.InsertDesc | agent.js:64 | Insertion adds exactly one element (multiset). For every score, the new element is placed before the elements of equal score. |
| Retriever.SortDesc | agent.js:64 | The sort is a permutation (multiset), and for every score it keeps the elements of that score in their original order (stable). |
| Retriever.SortDescSorted | agent.js:64 | The sorted sequence has non-increasing scores. |
| Retriever.Take | agent.js:64 | `slice(0, k)` is a prefix whose length is min(k, n) for k >= 0, and max(n+k, 0) otherwise. |
| Retriever.SearchResults | agent.js:56-64 | The results number min(topK, number of embedded chunks) when topK >= 0, and come in non-increasing score order. Each is an original embedded chunk extended with its own score. |
| Retriever.SearchTopK | agent.js:64 | Every candidate left out scores no higher than any returned result. |
| Retriever.SearchStable | agent.js:64 | For every score, the results with that score are the first candidates with that score, in store order. |
| Retriever.RankingExample | agent.js:64 | Worked example: scores 90, 50, 95, 90 with topK 2 give the 95, then the earlier of the two 90s. |
| Context.NatToString | agent.js:70 | The year renders as a non-empty digit string with no leading zero, whose decimal value is the year. |
| Context.NatToStringOfDecimal | agent.js:70 | Converse round trip: a digit string with no leading zero is the rendering of its own value. |
| Context.RenderShape | agent.js:70 | A rendering is "[", the year text, "] ", then the content. The year can be read back from between the brackets, and an unknown year renders as "unknown". |
| Context.JoinSplit | agent.js:70 | `join` separates at every boundary: the first i parts joined, the separator, then the rest joined. |
| Context.JoinLength | agent.js:70 | The joined length is the sum of the part lengths plus one separator per gap, with no trailing separator. |
| Context.ComposeContextShape | agent.js:70 | The context is empty without results and the sole rendering with one result. With more, it is the first rendering, a blank line, and the context of the rest (equivalently, the context of all but the last, a blank line, and the last rendering). |

## Left out

- PDF text extraction with `pdf-parse` is a foreign library. Each file's extracted text is an input (`SourceFile.text`).
- The file system is I/O and is left out: the folder-exists and empty-folder checks, `readdirSync` with the `.pdf` filter, `mkdirSync`, and reading and writing `chunks.json` with JSON. The list of files is an input. Reading the store is the `ChunkStore` constructor, and writing it is the `persisted` field.
- The OpenAI embedding and chat calls, the API key, the timeout and the temperature are network calls. The embedding provider is a function parameter, and the chat completion and its fixed fallback answer are not modelled.
- The query's own embedding call in `searchChunks`, including the error it raises when that call fails, is not modelled; the query vector is an input.
- `cosineSimilarity` uses floating-point arithmetic, `Math.sqrt` and division, and gives NaN for a zero vector, which leaves the sort comparator's behaviour undefined. The score is an abstract integer-valued function.
- The `MDocument` class of `documentIngest.js` is a foreign class. Its records are modelled as the same plain `Chunk` values that `ingestMastra.js` builds.
- The outer file loop of `documentIngest.js` and `ingestPDFs.js` is not modelled separately: their per-file `try`/`catch` only guards the PDF parsing. The ingestMastra.js loop is modelled (`IngestFiles`).
- Async/await ordering, console logging, the system-prompt text, the user message built from the context, `runTest`, and `testFiles.js` (a folder listing) are not modelled.
- String lengths count Dafny characters. JavaScript counts UTF-16 code units, which differ on characters outside the Basic Multilingual Plane.
- Chunker.ChunkText: requires overlap < size. With overlap >= size and a non-empty text, the JavaScript loop never terminates, and nothing of it is modelled.
- Embedder.EmbedInPlace: requires batchSize > 0. With batchSize <= 0 and a non-empty store, the JavaScript loop never terminates; with an empty store the whole run writes the file unchanged, and that case is not modelled.
- Embedder.ChunkStore.PrecomputeEmbeddings: requires batchSize > 0, for the same reason as `EmbedInPlace`.
- The chunk objects are values. JavaScript's `slice` shares the chunk objects between the batch and the array; the model writes into the array directly, which gives the same final state.
