/** `precomputeChunkEmbeddings(batchSize)` of agent.js: the chunk array is cut
    into contiguous batches of `batchSize` chunks; each batch's texts go to the
    embedding provider in one call; when the call succeeds the returned
    vectors are written into the batch's chunks in place, and when it fails
    the batch is skipped and the loop goes on with the next one. Afterwards
    the whole array is written back to chunks.json. */
module Embedder {
  import opened Records
  import opened Windows

  /** The embedding provider, which the model leaves abstract: given the
      batch number and the batch's texts it either fails (None) or answers
      with a sequence of vectors. */
  type Provider = (nat, seq<string>) -> Option<seq<Vector>>

  /** The default batch size of `precomputeChunkEmbeddings`. */
  const DefaultBatchSize := 50

  /** `res.data.forEach((item, idx) => { batch[idx].embedding = item.embedding })`
      for the batch [lo, hi): the idx-th vector goes to position lo + idx, for
      every idx that both the answer and the batch have. (An answer longer
      than the batch makes the forEach throw once the batch is fully written;
      the catch that follows changes nothing, so the state is the same.) */
  function WriteBack(s: seq<Chunk>, lo: nat, hi: nat, vs: seq<Vector>): (r: seq<Chunk>)
    requires lo <= hi <= |s|
  {
    seq(|s|, j requires 0 <= j < |s| =>
      if lo <= j < hi && j - lo < |vs| then s[j].(embedding := Some(vs[j - lo])) else s[j])
  }

  predicate WithinBounds(ws: seq<Window>, n: nat)
  {
    forall k :: 0 <= k < |ws| ==> ws[k].lo <= ws[k].hi <= n
  }

  /** The batch windows never overlap, and come in increasing order. */
  predicate Ordered(ws: seq<Window>)
  {
    forall k, l :: 0 <= k < l < |ws| ==> ws[k].hi <= ws[l].lo
  }

  /** The provider's answer for batch number b over window w. */
  function Answer(s: seq<Chunk>, w: Window, b: nat, embed: Provider): Option<seq<Vector>>
    requires w.lo <= w.hi <= |s|
  {
    embed(b, Texts(s[w.lo..w.hi]))
  }

  /** What the chunk at offset idx of a batch becomes given the batch's
      answer: unchanged when the call failed or the answer has no vector for
      it, and otherwise given the idx-th vector. */
  function Written(c: Chunk, ans: Option<seq<Vector>>, idx: nat): (r: Chunk)
    ensures r.content == c.content && r.metadata == c.metadata
    ensures ans.None? ==> r == c
    ensures ans.Some? && idx < |ans.value| ==> r.embedding == Some(ans.value[idx])
    ensures ans.Some? && idx >= |ans.value| ==> r == c
  {
    match ans
    case None => c
    case Some(vs) => if idx < |vs| then c.(embedding := Some(vs[idx])) else c
  }

  /** One iteration of the batch loop, for batch number b over window w. */
  function EmbedBatch(s: seq<Chunk>, w: Window, b: nat, embed: Provider): (r: seq<Chunk>)
    requires w.lo <= w.hi <= |s|
    ensures |r| == |s|
  {
    var ans := Answer(s, w, b, embed);
    seq(|s|, j requires 0 <= j < |s| => if w.lo <= j < w.hi then Written(s[j], ans, j - w.lo) else s[j])
  }

  /** A batch writes only embeddings, and only inside its window. */
  lemma EmbedBatchFrame(s: seq<Chunk>, w: Window, b: nat, embed: Provider)
    requires w.lo <= w.hi <= |s|
    ensures forall j :: 0 <= j < |s| ==>
      EmbedBatch(s, w, b, embed)[j].content == s[j].content && EmbedBatch(s, w, b, embed)[j].metadata == s[j].metadata
    ensures forall j :: 0 <= j < |s| && !(w.lo <= j < w.hi) ==> EmbedBatch(s, w, b, embed)[j] == s[j]
  {
  }

  /** The batches ws, numbered from b on, one after the other. */
  function EmbedBatches(s: seq<Chunk>, ws: seq<Window>, b: nat, embed: Provider): (r: seq<Chunk>)
    requires WithinBounds(ws, |s|)
    ensures |r| == |s|
    decreases |ws|
  {
    if ws == [] then s
    else EmbedBatches(EmbedBatch(s, ws[0], b, embed), ws[1..], b + 1, embed)
  }

  lemma {:induction false} EmbedBatchesPreserves(s: seq<Chunk>, ws: seq<Window>, b: nat, embed: Provider)
    requires WithinBounds(ws, |s|)
    ensures forall j :: 0 <= j < |s| ==>
      EmbedBatches(s, ws, b, embed)[j].content == s[j].content && EmbedBatches(s, ws, b, embed)[j].metadata == s[j].metadata
    decreases |ws|
  {
    if ws != [] {
      var s' := EmbedBatch(s, ws[0], b, embed);
      EmbedBatchFrame(s, ws[0], b, embed);
      EmbedBatchesStep(s, ws, b, embed);
      EmbedBatchesPreserves(s', ws[1..], b + 1, embed);
    }
  }

  lemma EmbedBatchesStep(s: seq<Chunk>, ws: seq<Window>, b: nat, embed: Provider)
    requires WithinBounds(ws, |s|) && ws != []
    ensures WithinBounds(ws[1..], |s|)
    ensures EmbedBatches(s, ws, b, embed) == EmbedBatches(EmbedBatch(s, ws[0], b, embed), ws[1..], b + 1, embed)
  {
  }

  lemma BatchWindowsBounded(n: nat, size: nat)
    requires size > 0
    ensures WithinBounds(AllWindows(n, size, size), n)
  {
  }

  /** The whole run: the array after the batch loop. */
  function EmbedAll(s: seq<Chunk>, batchSize: nat, embed: Provider): seq<Chunk>
    requires batchSize > 0
  {
    BatchWindowsBounded(|s|, batchSize);
    EmbedBatches(s, AllWindows(|s|, batchSize, batchSize), 0, embed)
  }

  /** What chunk j of batch b over window w becomes: unchanged when the call
      fails or the answer has no vector for it, otherwise given its vector. */
  function BatchResult(s: seq<Chunk>, w: Window, b: nat, embed: Provider, j: nat): Chunk
    requires w.lo <= j < w.hi <= |s|
  {
    Written(s[j], Answer(s, w, b, embed), j - w.lo)
  }

  lemma {:induction false} WindowsOrdered(n: nat, size: nat, start: nat)
    requires size > 0
    ensures Ordered(WindowsFrom(n, size, size, start))
    decreases n - start
  {
    var ws := WindowsFrom(n, size, size, start);
    if start < n {
      var rest := WindowsFrom(n, size, size, start + size);
      WindowsOrdered(n, size, start + size);
      assert ws == [Window(start, Min(start + size, n))] + rest;
      forall k, l | 0 <= k < l < |ws| ensures ws[k].hi <= ws[l].lo {
        assert ws[l] == rest[l - 1];
        if k > 0 {
          assert ws[k] == rest[k - 1];
        }
      }
    }
  }

  /** A position outside every window of ws keeps its chunk. */
  lemma {:induction false} EmbedBatchesOutside(s: seq<Chunk>, ws: seq<Window>, b: nat, embed: Provider, j: nat)
    requires WithinBounds(ws, |s|) && j < |s|
    requires forall k :: 0 <= k < |ws| ==> !(ws[k].lo <= j < ws[k].hi)
    ensures EmbedBatches(s, ws, b, embed)[j] == s[j]
    decreases |ws|
  {
    if ws != [] {
      var s' := EmbedBatch(s, ws[0], b, embed);
      var rest := ws[1..];
      forall l | 0 <= l < |rest| ensures rest[l].lo <= rest[l].hi <= |s| && !(rest[l].lo <= j < rest[l].hi) {
        assert rest[l] == ws[l + 1];
      }
      EmbedBatchFrame(s, ws[0], b, embed);
      EmbedBatchesOutside(s', rest, b + 1, embed, j);
    }
  }

  lemma OrderedTail(ws: seq<Window>, n: nat)
    requires ws != [] && Ordered(ws) && WithinBounds(ws, n)
    ensures Ordered(ws[1..]) && WithinBounds(ws[1..], n)
    ensures forall l :: 0 < l < |ws| ==> ws[0].hi <= ws[l].lo
  {
    var rest := ws[1..];
    forall k, l | 0 <= k < l < |rest| ensures rest[k].hi <= rest[l].lo {
      assert rest[k] == ws[k + 1] && rest[l] == ws[l + 1];
    }
  }

  /** A later batch over window v sees the same chunks whether or not the
      batch over the earlier window w ran before it. */
  lemma BatchResultAfter(s: seq<Chunk>, w: Window, b: nat, embed: Provider, v: Window, c: nat, j: nat)
    requires w.lo <= w.hi <= v.lo <= j < v.hi <= |s|
    ensures BatchResult(EmbedBatch(s, w, b, embed), v, c, embed, j) == BatchResult(s, v, c, embed, j)
  {
    var s' := EmbedBatch(s, w, b, embed);
    EmbedBatchFrame(s, w, b, embed);
    assert s'[v.lo..v.hi] == s[v.lo..v.hi];
  }

  /** A position inside the first window is settled by the first batch when
      the later windows start after it. */
  lemma FirstBatchFinal(s: seq<Chunk>, ws: seq<Window>, b: nat, embed: Provider, j: nat)
    requires WithinBounds(ws, |s|)
    requires ws != [] && ws[0].lo <= j < ws[0].hi
    requires forall l :: 0 < l < |ws| ==> ws[0].hi <= ws[l].lo
    ensures EmbedBatches(s, ws, b, embed)[j] == BatchResult(s, ws[0], b, embed, j)
  {
    var s' := EmbedBatch(s, ws[0], b, embed);
    var rest := ws[1..];
    EmbedBatchesStep(s, ws, b, embed);
    forall l | 0 <= l < |rest| ensures !(rest[l].lo <= j < rest[l].hi) {
      assert rest[l] == ws[l + 1];
    }
    EmbedBatchesOutside(s', rest, b + 1, embed, j);
  }

  /** A position inside window k of ws ends up as batch b + k alone decides,
      as if the batch were run on the original chunks, when the windows
      before k end before it and the windows after k start after it. */
  lemma {:induction false} EmbedBatchesAt(s: seq<Chunk>, ws: seq<Window>, b: nat, embed: Provider, k: nat, j: nat)
    requires WithinBounds(ws, |s|)
    requires k < |ws| && ws[k].lo <= j < ws[k].hi
    requires forall l :: 0 <= l < k ==> ws[l].hi <= ws[k].lo
    requires forall l :: k < l < |ws| ==> ws[k].hi <= ws[l].lo
    ensures EmbedBatches(s, ws, b, embed)[j] == BatchResult(s, ws[k], b + k, embed, j)
    decreases |ws|
  {
    if k == 0 {
      FirstBatchFinal(s, ws, b, embed, j);
    } else {
      var s' := EmbedBatch(s, ws[0], b, embed);
      var rest := ws[1..];
      EmbedBatchesStep(s, ws, b, embed);
      ApartTail(ws, k);
      EmbedBatchesAt(s', rest, b + 1, embed, k - 1, j);
      BatchResultAfter(s, ws[0], b, embed, ws[k], b + k, j);
    }
  }

  lemma ApartTail(ws: seq<Window>, k: nat)
    requires 0 < k < |ws|
    requires forall l :: 0 <= l < k ==> ws[l].hi <= ws[k].lo
    requires forall l :: k < l < |ws| ==> ws[k].hi <= ws[l].lo
    ensures ws[1..][k - 1] == ws[k] && ws[0].hi <= ws[k].lo
    ensures forall l :: 0 <= l < k - 1 ==> ws[1..][l].hi <= ws[1..][k - 1].lo
    ensures forall l :: k - 1 < l < |ws| - 1 ==> ws[1..][k - 1].hi <= ws[1..][l].lo
  {
    var rest := ws[1..];
    forall l | 0 <= l < k - 1 ensures rest[l].hi <= rest[k - 1].lo {
      assert rest[l] == ws[l + 1];
    }
    forall l | k - 1 < l < |rest| ensures rest[k - 1].hi <= rest[l].lo {
      assert rest[l] == ws[l + 1];
    }
  }

  /** Batch isolation: batch k covers [k * batchSize, min((k + 1) * batchSize, n));
      if its call fails none of its chunks change, and if it succeeds the
      chunk at offset idx receives the idx-th vector of the answer. What a
      batch does depends on no other batch, so a failed batch does not stop
      the later ones. */
  lemma BatchIsolation(s: seq<Chunk>, batchSize: nat, embed: Provider, k: nat)
    requires batchSize > 0 && k < |AllWindows(|s|, batchSize, batchSize)|
    ensures var w := AllWindows(|s|, batchSize, batchSize)[k];
      && w == Window(k * batchSize, Min(k * batchSize + batchSize, |s|))
      && w.lo < w.hi <= |s|
      && match embed(k, Texts(s[w.lo..w.hi]))
         case None => forall j :: w.lo <= j < w.hi ==> EmbedAll(s, batchSize, embed)[j] == s[j]
         case Some(vs) => forall j :: w.lo <= j < w.hi ==>
           EmbedAll(s, batchSize, embed)[j] == if j - w.lo < |vs| then s[j].(embedding := Some(vs[j - w.lo])) else s[j]
  {
    var ws := AllWindows(|s|, batchSize, batchSize);
    var w := ws[k];
    BatchWindow(|s|, batchSize, k);
    BatchWindowsApart(|s|, batchSize, k);
    BatchWindowsBounded(|s|, batchSize);
    forall j | w.lo <= j < w.hi
      ensures EmbedAll(s, batchSize, embed)[j] == BatchResult(s, w, k, embed, j)
    {
      EmbedBatchesAt(s, ws, 0, embed, k, j);
    }
  }

  /** Batch k covers [k * size, min(k * size + size, n)), which is not empty. */
  lemma BatchWindow(n: nat, size: nat, k: nat)
    requires size > 0 && k < |AllWindows(n, size, size)|
    ensures var w := AllWindows(n, size, size)[k];
      w == Window(k * size, Min(k * size + size, n)) && w.lo < w.hi <= n
  {
    WindowsFromShape(n, size, size, 0);
  }

  /** The batches before k end before batch k starts, and the batches after
      k start after it ends. */
  lemma BatchWindowsApart(n: nat, size: nat, k: nat)
    requires size > 0 && k < |AllWindows(n, size, size)|
    ensures var ws := AllWindows(n, size, size);
      && (forall l :: 0 <= l < k ==> ws[l].hi <= ws[k].lo)
      && (forall l :: k < l < |ws| ==> ws[k].hi <= ws[l].lo)
  {
    WindowsOrdered(n, size, 0);
  }

  /** The embedder changes nothing but embeddings: the length, the order and
      every chunk's content and metadata stay as they were. */
  lemma EmbedAllPreserves(s: seq<Chunk>, batchSize: nat, embed: Provider)
    requires batchSize > 0
    ensures |EmbedAll(s, batchSize, embed)| == |s|
    ensures Texts(EmbedAll(s, batchSize, embed)) == Texts(s)
    ensures forall j :: 0 <= j < |s| ==> EmbedAll(s, batchSize, embed)[j].metadata == s[j].metadata
  {
    BatchWindowsBounded(|s|, batchSize);
    EmbedBatchesPreserves(s, AllWindows(|s|, batchSize, batchSize), 0, embed);
  }

  /** The `forEach` over the provider's answer, writing into the batch
      [lo, hi) of the shared array. */
  method WriteBatch(a: array<Chunk>, lo: nat, hi: nat, vs: seq<Vector>)
    requires lo <= hi <= a.Length
    modifies a
    ensures a[..] == WriteBack(old(a[..]), lo, hi, vs)
  {
    ghost var before := a[..];
    var idx := 0;
    while idx < |vs| && idx < hi - lo
      invariant 0 <= idx <= hi - lo && idx <= |vs|
      invariant a[..] == WriteBack(before, lo, hi, vs[..idx])
    {
      a[lo + idx] := a[lo + idx].(embedding := Some(vs[idx]));
      idx := idx + 1;
    }
    assert WriteBack(before, lo, hi, vs[..idx]) == WriteBack(before, lo, hi, vs);
  }

  /** One iteration of the batch loop: the provider call for batch b over
      [lo, hi), and on success the write-back; a failure is caught and
      leaves the array alone. */
  method RunBatch(a: array<Chunk>, lo: nat, hi: nat, b: nat, embed: Provider)
    requires lo <= hi <= a.Length
    modifies a
    ensures a[..] == EmbedBatch(old(a[..]), Window(lo, hi), b, embed)
  {
    ghost var before := a[..];
    var texts := Texts(a[lo..hi]);
    var res := embed(b, texts);
    if res.Some? {
      WriteBatch(a, lo, hi, res.value);
    }
    assert forall j :: 0 <= j < a.Length ==> a[..][j] == EmbedBatch(before, Window(lo, hi), b, embed)[j];
  }

  /** The batch loop of `precomputeChunkEmbeddings` over the shared array:
      batch b covers [i, min(i + batchSize, n)) with i = b * batchSize. */
  method EmbedInPlace(a: array<Chunk>, batchSize: int, embed: Provider)
    requires batchSize > 0
    modifies a
    ensures a[..] == EmbedAll(old(a[..]), batchSize, embed)
  {
    var n := a.Length;
    BatchWindowsBounded(n, batchSize);
    ghost var rest := AllWindows(n, batchSize, batchSize);
    var i: nat := 0;
    var b: nat := 0;
    while i < n
      invariant rest == WindowsFrom(n, batchSize, batchSize, i)
      invariant WithinBounds(rest, n)
      invariant EmbedBatches(a[..], rest, b, embed) == EmbedAll(old(a[..]), batchSize, embed)
      decreases n - i
    {
      var hi := Min(i + batchSize, n);
      WindowsFromUnfold(n, batchSize, batchSize, i);
      EmbedBatchesStep(a[..], rest, b, embed);
      RunBatch(a, i, hi, b, embed);
      rest := rest[1..];
      i := i + batchSize;
      b := b + 1;
    }
  }

  /** The embedding store: the chunk array loaded from chunks.json, and what
      was last written to that file. */
  class ChunkStore {
    var chunks: array<Chunk>
    var persisted: seq<Chunk>

    /** `JSON.parse(fs.readFileSync(chunksFile))` */
    constructor (loaded: seq<Chunk>)
      ensures fresh(chunks) && chunks[..] == loaded && persisted == loaded
    {
      chunks := new Chunk[|loaded|](i requires 0 <= i < |loaded| => loaded[i]);
      persisted := loaded;
    }

    /** The batch loop, then `fs.writeFileSync(chunksFile, JSON.stringify(allChunks))`. */
    method PrecomputeEmbeddings(batchSize: int, embed: Provider)
      requires batchSize > 0
      modifies this, chunks
      ensures chunks == old(chunks)
      ensures chunks[..] == EmbedAll(old(chunks[..]), batchSize, embed)
      ensures persisted == chunks[..]
    {
      EmbedInPlace(chunks, batchSize, embed);
      persisted := chunks[..];
    }
  }
}
