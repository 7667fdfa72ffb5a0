/** `chunkText(text, size, overlap)`: split a string into chunks of at most
    `size` characters, each starting `size - overlap` characters after the
    previous one. The ingestion scripts documentIngest.js, ingestMastra.js and
    ingestPDFs.js each carry an identical copy; this module is all three. */
module Chunker {
  import opened Records
  import opened Windows

  /** The defaults of documentIngest.js and ingestPDFs.js (512 and 50);
      ingestMastra.js writes the same numbers as literals. */
  const ChunkSize := 512
  const ChunkOverlap := 50

  /** `text.slice(lo, hi)` for 0 <= lo <= |text| and hi <= |text|: a
      negative end counts back from the end of the text (it arises only when
      `size` is negative), and the slice is empty when the end is not past
      the start. */
  function Slice(text: string, lo: nat, hi: int): (r: string)
    requires lo <= |text| && hi <= |text|
  {
    var end := if hi < 0 then Max(|text| + hi, 0) else hi;
    if end <= lo then [] else text[lo..end]
  }

  /** The chunk sequence, one slice per window the cursor visits. With a
      positive size every window [lo, hi) has lo < hi and its slice is the
      plain subsequence; otherwise each slice follows `text.slice`. */
  function Chunks(text: string, size: int, overlap: int): (cs: seq<string>)
    requires overlap < size
  {
    var ws := AllWindows(|text|, size, size - overlap);
    if size > 0 then seq(|ws|, k requires 0 <= k < |ws| => text[ws[k].lo..ws[k].hi])
    else seq(|ws|, k requires 0 <= k < |ws| => Slice(text, ws[k].lo, ws[k].hi))
  }

  /** With a positive size, chunk k is the text of window k, which is not
      empty. */
  lemma ChunkIsSlice(text: string, size: int, overlap: int, cs: seq<string>, k: nat)
    requires 0 < size && overlap < size && cs == Chunks(text, size, overlap) && k < |cs|
    ensures var w := AllWindows(|text|, size, size - overlap)[k];
      w.lo < w.hi <= |text| && cs[k] == text[w.lo..w.hi]
  {
  }

  /** The JavaScript loop. It needs overlap < size: otherwise the cursor never
      advances and the loop does not end on a non-empty text. */
  method ChunkText(text: string, size: int, overlap: int) returns (chunks: seq<string>)
    requires overlap < size
    ensures chunks == Chunks(text, size, overlap)
  {
    ghost var ws := AllWindows(|text|, size, size - overlap);
    ghost var cs := Chunks(text, size, overlap);
    ghost var rest := ws;
    chunks := [];
    var start: nat := 0;
    while start < |text|
      invariant |chunks| <= |ws| == |cs|
      invariant rest == WindowsFrom(|text|, size, size - overlap, start)
      invariant rest == ws[|chunks|..]
      invariant chunks == cs[..|chunks|]
      decreases |text| - start
    {
      var end := Min(start + size, |text|);
      ChunkTextStep(text, size, overlap, start, chunks, rest);
      chunks := chunks + [Slice(text, start, end)];
      rest := rest[1..];
      start := start + (size - overlap);
    }
    assert cs[..|cs|] == cs;
  }

  /** One iteration of the loop keeps its invariant: the chunk it appends is
      the next chunk of Chunks, and the cursor moves to the next window. */
  lemma ChunkTextStep(text: string, size: int, overlap: int, start: nat, chunks: seq<string>, rest: seq<Window>)
    requires overlap < size && start < |text|
    requires |chunks| <= |AllWindows(|text|, size, size - overlap)|
    requires rest == WindowsFrom(|text|, size, size - overlap, start)
    requires rest == AllWindows(|text|, size, size - overlap)[|chunks|..]
    requires chunks == Chunks(text, size, overlap)[..|chunks|]
    ensures var ws, cs := AllWindows(|text|, size, size - overlap), Chunks(text, size, overlap);
      var next := chunks + [Slice(text, start, Min(start + size, |text|))];
      && |next| <= |ws|
      && rest[1..] == WindowsFrom(|text|, size, size - overlap, start + (size - overlap))
      && rest[1..] == ws[|next|..]
      && next == cs[..|next|]
  {
    var ws, cs := AllWindows(|text|, size, size - overlap), Chunks(text, size, overlap);
    var k := |chunks|;
    WindowsFromUnfold(|text|, size, size - overlap, start);
    assert ws[k] == rest[0] && ws[k + 1..] == rest[1..];
    ChunkIsWindowSlice(text, size, overlap, k);
    assert cs[..k + 1] == cs[..k] + [cs[k]];
  }

  /** Chunk k is `text.slice` over window k. */
  lemma ChunkIsWindowSlice(text: string, size: int, overlap: int, k: nat)
    requires overlap < size && k < |Chunks(text, size, overlap)|
    ensures var w := AllWindows(|text|, size, size - overlap)[k];
      Chunks(text, size, overlap)[k] == Slice(text, w.lo, w.hi)
  {
  }

  /** Closed form: chunk k is the slice from k * (size - overlap) to
      min(k * (size - overlap) + size, |text|); the number of chunks is the
      least n with n * (size - overlap) >= |text|, and an empty text has none. */
  lemma ChunkShape(text: string, size: int, overlap: int, cs: seq<string>)
    requires overlap < size && cs == Chunks(text, size, overlap)
    ensures |text| == 0 <==> |cs| == 0
    ensures |cs| * (size - overlap) >= |text|
    ensures |cs| > 0 ==> (|cs| - 1) * (size - overlap) < |text|
    ensures forall k :: 0 <= k < |cs| ==>
      k * (size - overlap) < |text| &&
      cs[k] == Slice(text, k * (size - overlap), Min(k * (size - overlap) + size, |text|))
  {
    var step := size - overlap;
    var ws := AllWindows(|text|, size, step);
    WindowCount(|text|, size, step);
    assert |cs| == |ws|;
    forall k | 0 <= k < |cs|
      ensures k * step < |text| && cs[k] == Slice(text, k * step, Min(k * step + size, |text|))
    {
      WindowStart(|text|, size, step, k);
      ChunkIsWindowSlice(text, size, overlap, k);
    }
  }

  /** With a positive size, every chunk has between 1 and `size` characters. */
  lemma ChunkLengths(text: string, size: int, overlap: int, cs: seq<string>)
    requires overlap < size && 0 < size && cs == Chunks(text, size, overlap)
    ensures forall k :: 0 <= k < |cs| ==> 0 < |cs[k]| <= size
  {
    var ws := AllWindows(|text|, size, size - overlap);
    assert forall k :: 0 <= k < |cs| ==> cs[k] == Slice(text, ws[k].lo, ws[k].hi);
  }

  /** With 0 <= overlap < size, the last chunk ends exactly at |text|. */
  lemma LastChunkEnds(text: string, size: int, overlap: int, cs: seq<string>)
    requires 0 <= overlap < size && cs == Chunks(text, size, overlap)
    ensures |cs| > 0 ==> (|cs| - 1) * (size - overlap) + |cs[|cs| - 1]| == |text|
  {
    ChunkShape(text, size, overlap, cs);
    LastWindowEnds(|text|, size, size - overlap);
    WindowsFromShape(|text|, size, size - overlap, 0);
  }

  /** With 0 <= overlap < size, every character of the text is inside some
      chunk, at the offset that chunk's start predicts. */
  lemma ChunksCover(text: string, size: int, overlap: int, cs: seq<string>, p: nat)
    requires 0 <= overlap < size && cs == Chunks(text, size, overlap)
    requires p < |text|
    ensures exists k :: 0 <= k < |cs| && k * (size - overlap) <= p < k * (size - overlap) + |cs[k]|
                        && cs[k][p - k * (size - overlap)] == text[p]
  {
    var step := size - overlap;
    var ws := AllWindows(|text|, size, step);
    WindowsFromCover(|text|, size, step, 0, p);
    var k :| 0 <= k < |ws| && InWindow(ws[k], p);
    WindowStart(|text|, size, step, k);
    ChunkIsSlice(text, size, overlap, cs, k);
  }

  /** Consecutive chunks overlap: when chunk k has the full `size`
      characters, its last `overlap` characters are the first `overlap`
      characters of chunk k + 1. */
  lemma ConsecutiveChunksOverlap(text: string, size: int, overlap: int, cs: seq<string>, k: nat)
    requires 0 <= overlap < size && cs == Chunks(text, size, overlap)
    requires k + 1 < |cs| && |cs[k]| == size
    ensures overlap <= |cs[k + 1]|
    ensures cs[k][size - overlap..] == cs[k + 1][..overlap]
  {
    var step := size - overlap;
    var ws := AllWindows(|text|, size, step);
    NextWindow(|text|, size, step, 0, k);
    var lo, end, hi := ws[k].lo, ws[k].hi, ws[k + 1].hi;
    assert cs[k] == Slice(text, lo, end) && cs[k + 1] == Slice(text, lo + step, hi);
    FullSlice(text, lo, end, size);
    SharedSlice(text, lo, step, size, hi);
  }

  /** A slice ending at min(lo + size, |text|) has `size` characters only when
      it ends at lo + size. */
  lemma FullSlice(text: string, lo: nat, end: int, size: int)
    requires 0 < size && lo < |text| && end == Min(lo + size, |text|)
    requires |Slice(text, lo, end)| == size
    ensures end == lo + size
  {
  }

  lemma SharedSlice(text: string, lo: nat, step: nat, size: nat, hi: int)
    requires 0 < step <= size && lo + size <= hi <= |text|
    ensures Slice(text, lo + step, hi)[..size - step] == Slice(text, lo, lo + size)[step..]
  {
    assert Slice(text, lo, lo + size) == text[lo..lo + size];
    assert Slice(text, lo + step, hi) == text[lo + step..hi];
  }

  /** `s` without its first `k` characters (all of them if it is shorter). */
  function Drop(s: string, k: nat): string
  {
    if k <= |s| then s[k..] else []
  }

  /** Joins chunks back together, dropping from each chunk after the first
      the `overlap` characters it shares with its predecessor. */
  function Stitch(cs: seq<string>, overlap: nat): string
  {
    if |cs| == 0 then []
    else if |cs| == 1 then cs[0]
    else Stitch(cs[..|cs| - 1], overlap) + Drop(cs[|cs| - 1], overlap)
  }

  lemma StitchSnoc(cs: seq<string>, m: nat, overlap: nat)
    requires 2 <= m <= |cs|
    ensures Stitch(cs[..m], overlap) == Stitch(cs[..m - 1], overlap) + Drop(cs[m - 1], overlap)
  {
    assert cs[..m][..m - 1] == cs[..m - 1];
  }

  /** What chunk m - 1 adds once its overlap with chunk m - 2 is dropped: the
      text from where chunk m - 2 ends to where chunk m - 1 ends. */
  lemma DropOverlap(text: string, size: int, overlap: nat, cs: seq<string>, m: nat)
    requires overlap < size && cs == Chunks(text, size, overlap)
    requires 2 <= m <= |cs|
    ensures var ws := AllWindows(|text|, size, size - overlap);
      ws[m - 2].hi <= ws[m - 1].hi && Drop(cs[m - 1], overlap) == text[ws[m - 2].hi..ws[m - 1].hi]
  {
    var ws := AllWindows(|text|, size, size - overlap);
    NextWindow(|text|, size, size - overlap, 0, m - 2);
    var lo, prevEnd, end := ws[m - 1].lo, ws[m - 2].hi, ws[m - 1].hi;
    assert prevEnd == Min(lo + overlap, |text|);
    ChunkIsSlice(text, size, overlap, cs, m - 1);
    DropSlice(text, lo, end, overlap);
  }

  lemma DropSlice(text: string, lo: nat, end: nat, overlap: nat)
    requires lo <= end <= |text| && (end == |text| || lo + overlap <= end)
    ensures Min(lo + overlap, |text|) <= end
    ensures Drop(text[lo..end], overlap) == text[Min(lo + overlap, |text|)..end]
  {
  }

  lemma {:induction false} StitchPrefix(text: string, size: int, overlap: nat, cs: seq<string>, m: nat)
    requires overlap < size && cs == Chunks(text, size, overlap)
    requires 1 <= m <= |cs|
    ensures Stitch(cs[..m], overlap) == text[..AllWindows(|text|, size, size - overlap)[m - 1].hi]
  {
    var ws := AllWindows(|text|, size, size - overlap);
    if m == 1 {
      assert cs[..1] == [cs[0]];
      ChunkIsSlice(text, size, overlap, cs, 0);
      WindowStart(|text|, size, size - overlap, 0);
    } else {
      StitchPrefix(text, size, overlap, cs, m - 1);
      StitchSnoc(cs, m, overlap);
      DropOverlap(text, size, overlap, cs, m);
      var prevEnd, end := ws[m - 2].hi, ws[m - 1].hi;
      assert text[..prevEnd] + text[prevEnd..end] == text[..end];
    }
  }

  /** Round trip: stitching the chunks back together, overlaps removed,
      gives the original text. */
  lemma StitchChunks(text: string, size: int, overlap: nat)
    requires overlap < size
    ensures Stitch(Chunks(text, size, overlap), overlap) == text
  {
    var cs := Chunks(text, size, overlap);
    ChunkShape(text, size, overlap, cs);
    if |cs| > 0 {
      StitchPrefix(text, size, overlap, cs, |cs|);
      LastWindowEnds(|text|, size, size - overlap);
      assert cs[..|cs|] == cs;
    }
  }

  /** A 25-character text with size 10 and overlap 5 gives chunks at offsets
      0, 5, 10, 15 and 20; the last one has 5 characters. */
  lemma TwentyFiveCharacters(text: string)
    requires |text| == 25
    ensures |Chunks(text, 10, 5)| == 5
    ensures Chunks(text, 10, 5)[4] == text[20..]
  {
    var cs := Chunks(text, 10, 5);
    ChunkShape(text, 10, 5, cs);
  }
}
