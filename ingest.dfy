/** Ingestion: every PDF file's text is chunked and each chunk becomes a
    record tagged with the file's name, the year in that name and the chunk's
    position (documentIngest.js and ingestMastra.js build the same records,
    the first through the MDocument class, the second as plain objects);
    ingestMastra.js then appends the records of every file, in file order,
    to one list. */
module Ingest {
  import opened Records
  import opened Chunker
  import opened Years

  /** A PDF file with the text its extraction produced. */
  datatype SourceFile = SourceFile(name: string, text: string)

  /** `chunks.map((chunk, index) => ({ content: chunk,
      metadata: { source, year, chunkIndex: index } }))`. Tagging keeps the
      chunk texts, in order, and adds no embedding; every record carries the
      file's source and year, and the chunk indices are 0, 1, ..., n - 1. */
  function TagChunks(pieces: seq<string>, source: string, year: Year): (r: seq<Chunk>)
    ensures Texts(r) == pieces
    ensures forall i :: 0 <= i < |r| ==>
      r[i].metadata.source == source && r[i].metadata.year == year && r[i].metadata.chunkIndex == i
    ensures forall i, j :: 0 <= i < j < |r| ==> r[i].metadata.chunkIndex < r[j].metadata.chunkIndex
    ensures forall c :: c in r ==> c.embedding.None?
  {
    seq(|pieces|, i requires 0 <= i < |pieces| => Chunk(pieces[i], Metadata(source, year, i), None))
  }

  /** The records of one file, with the default chunk size and overlap. */
  function FileChunks(f: SourceFile): seq<Chunk>
  {
    TagChunks(Chunks(f.text, ChunkSize, ChunkOverlap), f.name, ExtractYear(f.name))
  }

  /** `allChunks.push(...docChunks)` for every file, in file order. */
  function Ingested(files: seq<SourceFile>): seq<Chunk>
  {
    if files == [] then [] else Ingested(files[..|files| - 1]) + FileChunks(files[|files| - 1])
  }

  /** The loop of ingestMastra.js over the PDF files. */
  method IngestFiles(files: seq<SourceFile>) returns (all: seq<Chunk>)
    ensures all == Ingested(files)
  {
    all := [];
    for k := 0 to |files|
      invariant all == Ingested(files[..k])
    {
      var file := files[k];
      var year := ExtractYear(file.name);
      var chunks := ChunkText(file.text, ChunkSize, ChunkOverlap);
      var docChunks := TagChunks(chunks, file.name, year);
      assert files[..k + 1][..k] == files[..k];
      all := all + docChunks;
    }
    assert files[..|files|] == files;
  }

  /** Total number of records: the per-file chunk counts added up. */
  function TotalChunks(files: seq<SourceFile>): nat
  {
    if files == [] then 0
    else TotalChunks(files[..|files| - 1]) + |Chunks(files[|files| - 1].text, ChunkSize, ChunkOverlap)|
  }

  /** Sum of per-file counts of the files before file k: where file k's
      records start. */
  function Offset(files: seq<SourceFile>, k: nat): nat
    requires k <= |files|
  {
    TotalChunks(files[..k])
  }

  lemma {:induction false} IngestedLength(files: seq<SourceFile>)
    ensures |Ingested(files)| == TotalChunks(files)
  {
    if files != [] {
      IngestedLength(files[..|files| - 1]);
    }
  }

  lemma {:induction false} OffsetBound(files: seq<SourceFile>, k: nat)
    requires k < |files|
    ensures Offset(files, k) + |FileChunks(files[k])| <= |Ingested(files)|
  {
    var init := files[..|files| - 1];
    assert Ingested(files) == Ingested(init) + FileChunks(files[|files| - 1]);
    IngestedLength(init);
    if k < |files| - 1 {
      OffsetBound(init, k);
      assert files[..k] == init[..k];
      assert files[k] == init[k];
    } else {
      assert files[..k] == init;
    }
  }

  lemma {:induction false} IngestedAt(files: seq<SourceFile>, k: nat, i: nat)
    requires k < |files| && i < |FileChunks(files[k])|
    ensures Offset(files, k) + i < |Ingested(files)|
    ensures Ingested(files)[Offset(files, k) + i] == FileChunks(files[k])[i]
  {
    var init, last := files[..|files| - 1], files[|files| - 1];
    assert Ingested(files) == Ingested(init) + FileChunks(last);
    IngestedLength(init);
    if k < |files| - 1 {
      IngestedAt(init, k, i);
      assert files[..k] == init[..k];
      assert files[k] == init[k];
    } else {
      assert files[..k] == init;
    }
  }

  /** The list is the per-file lists concatenated in file order: its length is
      the sum of the per-file counts, and file k's i-th record sits at
      Offset(files, k) + i. */
  lemma {:induction false} IngestedLayout(files: seq<SourceFile>)
    ensures |Ingested(files)| == TotalChunks(files)
    ensures forall k :: 0 <= k < |files| ==> Offset(files, k) + |FileChunks(files[k])| <= |Ingested(files)|
    ensures forall k, i :: 0 <= k < |files| && 0 <= i < |FileChunks(files[k])| ==>
      Ingested(files)[Offset(files, k) + i] == FileChunks(files[k])[i]
  {
    IngestedLength(files);
    forall k | 0 <= k < |files|
      ensures Offset(files, k) + |FileChunks(files[k])| <= |Ingested(files)|
    {
      OffsetBound(files, k);
    }
    forall k, i | 0 <= k < |files| && 0 <= i < |FileChunks(files[k])|
      ensures Ingested(files)[Offset(files, k) + i] == FileChunks(files[k])[i]
    {
      IngestedAt(files, k, i);
    }
  }

  /** Every record's source is the name of one of the files. */
  lemma {:induction false} IngestedSources(files: seq<SourceFile>)
    ensures forall c :: c in Ingested(files) ==> exists k :: 0 <= k < |files| && c.metadata.source == files[k].name
  {
    if files != [] {
      var init, last := files[..|files| - 1], files[|files| - 1];
      IngestedSources(init);
      forall c | c in Ingested(files)
        ensures exists k :: 0 <= k < |files| && c.metadata.source == files[k].name
      {
        if c in Ingested(init) {
          var k :| 0 <= k < |init| && c.metadata.source == init[k].name;
          assert files[k] == init[k];
        } else {
          assert c in FileChunks(last);
          assert c.metadata.source == files[|files| - 1].name;
        }
      }
    }
  }

  predicate DistinctNames(files: seq<SourceFile>)
  {
    forall i, j :: 0 <= i < j < |files| ==> files[i].name != files[j].name
  }

  /** Within each source document, chunk indices rise strictly with the
      position in the list. */
  predicate IndicesIncrease(all: seq<Chunk>)
  {
    forall p, q :: 0 <= p < q < |all| && all[p].metadata.source == all[q].metadata.source ==>
      all[p].metadata.chunkIndex < all[q].metadata.chunkIndex
  }

  /** Per source document the chunk indices rise strictly with the position
      in the list (so they are unique), given that the folder listing names
      every file once. */
  lemma {:induction false} ChunkIndicesIncrease(files: seq<SourceFile>)
    requires DistinctNames(files)
    ensures IndicesIncrease(Ingested(files))
  {
    if files != [] {
      var init, last := files[..|files| - 1], files[|files| - 1];
      var all, front, back := Ingested(files), Ingested(init), FileChunks(last);
      assert DistinctNames(init) by {
        forall i, j | 0 <= i < j < |init| ensures init[i].name != init[j].name {
          assert init[i] == files[i] && init[j] == files[j];
        }
      }
      ChunkIndicesIncrease(init);
      IngestedSources(init);
      assert all == front + back;
      forall p, q | 0 <= p < q < |all|
        ensures all[p].metadata.source == all[q].metadata.source ==>
          all[p].metadata.chunkIndex < all[q].metadata.chunkIndex
      {
        if q < |front| {
          assert all[p] == front[p] && all[q] == front[q];
        } else if p >= |front| {
          assert all[p] == back[p - |front|] && all[q] == back[q - |front|];
          assert back[p - |front|].metadata.chunkIndex == p - |front|;
          assert back[q - |front|].metadata.chunkIndex == q - |front|;
        } else {
          assert all[p] == front[p] && all[p] in front;
          var k :| 0 <= k < |init| && all[p].metadata.source == init[k].name;
          assert init[k] == files[k];
          assert all[q] == back[q - |front|];
          assert all[p].metadata.source != all[q].metadata.source;
        }
      }
    }
  }
}
