/** `searchChunks(query, topK)` of agent.js: keep the chunks that carry an
    embedding, attach each one's similarity score to the query, sort by
    score, highest first (`Array.prototype.sort` is stable, so equal scores
    keep store order), and keep the first `topK`. */
module Retriever {
  import opened Records

  /** The similarity of the query vector to a chunk's vector, which the model
      leaves abstract (agent.js uses floating-point cosine similarity). */
  type Scorer = (Vector, Vector) -> int

  /** The default `topK` of `searchChunks`. */
  const DefaultTopK := 5

  /** `{ ...chunk, score }`: a chunk extended with its score. */
  datatype Scored = Scored(chunk: Chunk, score: int)

  function CountEmbedded(store: seq<Chunk>): nat
  {
    if store == [] then 0 else (if store[0].embedding.Some? then 1 else 0) + CountEmbedded(store[1..])
  }

  /** `.filter(c => c.embedding).map(chunk => ({ ...chunk, score }))`, in store
      order. */
  function Candidates(store: seq<Chunk>, q: Vector, score: Scorer): (r: seq<Scored>)
    ensures |r| == CountEmbedded(store)
    ensures forall i :: 0 <= i < |r| ==>
      r[i].chunk in store && r[i].chunk.embedding.Some? && r[i].score == score(q, r[i].chunk.embedding.value)
    ensures forall c :: c in store && c.embedding.Some? ==> Scored(c, score(q, c.embedding.value)) in r
  {
    if store == [] then []
    else
      var rest := Candidates(store[1..], q, score);
      var c := store[0];
      assert forall d :: d in store[1..] ==> d in store;
      if c.embedding.Some? then [Scored(c, score(q, c.embedding.value))] + rest else rest
  }

  /** Filtering and scoring work chunk by chunk: the candidates of two stores
      one after the other are the two candidate lists one after the other. */
  lemma {:induction false} CandidatesAppend(a: seq<Chunk>, b: seq<Chunk>, q: Vector, score: Scorer)
    ensures Candidates(a + b, q, score) == Candidates(a, q, score) + Candidates(b, q, score)
  {
    if a != [] {
      assert (a + b)[0] == a[0] && (a + b)[1..] == a[1..] + b;
      CandidatesAppend(a[1..], b, q, score);
      var head := if a[0].embedding.Some? then [Scored(a[0], score(q, a[0].embedding.value))] else [];
      assert Candidates(a, q, score) == head + Candidates(a[1..], q, score);
      assert Candidates(a + b, q, score) == head + Candidates(a[1..] + b, q, score);
    } else {
      assert a + b == b;
    }
  }

  /** Scores never increase along the sequence. */
  predicate Sorted(s: seq<Scored>)
  {
    forall i, j :: 0 <= i < j < |s| ==> s[i].score >= s[j].score
  }

  /** The elements of score v, in their order in s. */
  function WithScore(s: seq<Scored>, v: int): seq<Scored>
  {
    if s == [] then [] else (if s[0].score == v then [s[0]] else []) + WithScore(s[1..], v)
  }

  /** Inserts x just before the first element whose score is at most x's, so
      x goes ahead of the elements of equal score. */
  function InsertDesc(x: Scored, t: seq<Scored>): (r: seq<Scored>)
    ensures |r| == |t| + 1
    ensures multiset(r) == multiset(t) + multiset{x}
    ensures forall v :: WithScore(r, v) == if x.score == v then [x] + WithScore(t, v) else WithScore(t, v)
  {
    if t == [] then [x]
    else if t[0].score <= x.score then [x] + t
    else
      var r := [t[0]] + InsertDesc(x, t[1..]);
      assert t == [t[0]] + t[1..];
      assert r[1..] == InsertDesc(x, t[1..]);
      r
  }

  /** Every element of InsertDesc(x, t) is x or an element of t. */
  lemma InsertDescElements(x: Scored, t: seq<Scored>, j: nat)
    requires j < |InsertDesc(x, t)|
    ensures InsertDesc(x, t)[j] == x || InsertDesc(x, t)[j] in t
  {
    var r := InsertDesc(x, t);
    assert r[j] in multiset(r);
  }

  lemma SortedTail(t: seq<Scored>)
    requires Sorted(t) && t != []
    ensures Sorted(t[1..]) && forall j :: 0 <= j < |t| ==> t[0].score >= t[j].score
  {
    var tail := t[1..];
    forall i, j | 0 <= i < j < |tail| ensures tail[i].score >= tail[j].score {
      assert tail[i] == t[i + 1] && tail[j] == t[j + 1];
    }
  }

  lemma {:induction false} InsertDescSorted(x: Scored, t: seq<Scored>)
    requires Sorted(t)
    ensures Sorted(InsertDesc(x, t))
  {
    if t != [] && t[0].score > x.score {
      var tail := t[1..];
      var rest := InsertDesc(x, tail);
      SortedTail(t);
      InsertDescSorted(x, tail);
      forall j | 0 <= j < |rest| ensures t[0].score >= rest[j].score {
        InsertDescElements(x, tail, j);
      }
      ConsSorted(t[0], rest);
    }
  }

  lemma ConsSorted(h: Scored, rest: seq<Scored>)
    requires Sorted(rest) && forall j :: 0 <= j < |rest| ==> h.score >= rest[j].score
    ensures Sorted([h] + rest)
  {
    var r := [h] + rest;
    forall i, j | 0 <= i < j < |r| ensures r[i].score >= r[j].score {
      if i > 0 {
        assert r[i] == rest[i - 1];
      }
      assert r[j] == rest[j - 1];
    }
  }

  /** Insertion sort on the scores, highest first; the reference for `sort`
      with the comparator `(a, b) => b.score - a.score`. */
  function SortDesc(s: seq<Scored>): (r: seq<Scored>)
    ensures |r| == |s|
    ensures multiset(r) == multiset(s)
    ensures forall v :: WithScore(r, v) == WithScore(s, v)
  {
    if s == [] then []
    else
      assert s == [s[0]] + s[1..];
      InsertDesc(s[0], SortDesc(s[1..]))
  }

  lemma {:induction false} SortDescSorted(s: seq<Scored>)
    ensures Sorted(SortDesc(s))
  {
    if s != [] {
      SortDescSorted(s[1..]);
      InsertDescSorted(s[0], SortDesc(s[1..]));
    }
  }

  /** `s.slice(0, k)`: a negative k counts back from the end. */
  function Take(s: seq<Scored>, k: int): (r: seq<Scored>)
    ensures r <= s
    ensures |r| == if k >= 0 then Min(k, |s|) else Max(|s| + k, 0)
  {
    if k >= 0 then s[..Min(k, |s|)] else s[..Max(|s| + k, 0)]
  }

  /** The whole pipeline, for the query's vector q. */
  function SearchChunks(store: seq<Chunk>, q: Vector, topK: int, score: Scorer): seq<Scored>
  {
    Take(SortDesc(Candidates(store, q, score)), topK)
  }

  /** The results are original chunks that carry an embedding, each with its
      score; there are min(topK, number of embedded chunks) of them when topK
      is not negative, and they come highest score first. */
  lemma SearchResults(store: seq<Chunk>, q: Vector, topK: int, score: Scorer)
    ensures var r := SearchChunks(store, q, topK, score);
      && |r| == (if topK >= 0 then Min(topK, CountEmbedded(store)) else Max(CountEmbedded(store) + topK, 0))
      && Sorted(r)
      && (forall i :: 0 <= i < |r| ==>
            r[i].chunk in store && r[i].chunk.embedding.Some? && r[i].score == score(q, r[i].chunk.embedding.value))
  {
    var c := Candidates(store, q, score);
    var sorted := SortDesc(c);
    var r := SearchChunks(store, q, topK, score);
    SortDescSorted(c);
    forall i | 0 <= i < |r|
      ensures r[i].chunk in store && r[i].chunk.embedding.Some? && r[i].score == score(q, r[i].chunk.embedding.value)
    {
      assert r[i] == sorted[i];
      assert sorted[i] in multiset(c);
      var l :| 0 <= l < |c| && c[l] == sorted[i];
    }
  }

  /** In a sorted sequence, whatever lies beyond a prefix scores no higher
      than anything in the prefix. */
  lemma SortedPrefixDominates(sorted: seq<Scored>, r: seq<Scored>, x: Scored, y: Scored)
    requires Sorted(sorted) && r <= sorted
    requires x in multiset(sorted) - multiset(r) && y in r
    ensures y.score >= x.score
  {
    var tail := sorted[|r|..];
    assert sorted == r + tail;
    assert x in multiset(tail);
    var l :| 0 <= l < |tail| && tail[l] == x;
    var i :| 0 <= i < |r| && r[i] == y;
    assert sorted[i] == y && sorted[|r| + l] == x;
  }

  /** Top-K: every candidate left out scores no higher than any result. */
  lemma SearchTopK(store: seq<Chunk>, q: Vector, topK: int, score: Scorer)
    ensures var r := SearchChunks(store, q, topK, score);
      forall x, y :: x in multiset(Candidates(store, q, score)) - multiset(r) && y in r ==> y.score >= x.score
  {
    var c := Candidates(store, q, score);
    var sorted := SortDesc(c);
    var r := SearchChunks(store, q, topK, score);
    SortDescSorted(c);
    forall x, y | x in multiset(c) - multiset(r) && y in r
      ensures y.score >= x.score
    {
      SortedPrefixDominates(sorted, r, x, y);
    }
  }

  lemma {:induction false} WithScorePrefix(p: seq<Scored>, s: seq<Scored>, v: int)
    requires p <= s
    ensures WithScore(p, v) <= WithScore(s, v)
  {
    if p != [] {
      assert p[1..] <= s[1..];
      WithScorePrefix(p[1..], s[1..], v);
    }
  }

  /** Stability: for each score, the results of that score are the first
      candidates of that score, in store order. */
  lemma SearchStable(store: seq<Chunk>, q: Vector, topK: int, score: Scorer, v: int)
    ensures WithScore(SearchChunks(store, q, topK, score), v) <= WithScore(Candidates(store, q, score), v)
  {
    var c := Candidates(store, q, score);
    WithScorePrefix(SearchChunks(store, q, topK, score), SortDesc(c), v);
  }

  /** Only embedded chunks are ranked: a store whose chunks carry no
      embedding gives no results. */
  lemma {:induction false} NoEmbeddingsNoResults(store: seq<Chunk>, q: Vector, topK: int, score: Scorer)
    requires forall c :: c in store ==> c.embedding.None?
    ensures Candidates(store, q, score) == [] && SearchChunks(store, q, topK, score) == []
  {
    if store != [] {
      assert forall c :: c in store[1..] ==> c in store;
      NoEmbeddingsNoResults(store[1..], q, topK, score);
    }
  }

  /** Scores 90, 50, 95 and 90 with topK = 2: the 95 first, then the earlier
      of the two 90s. */
  lemma RankingExample(a: Chunk, b: Chunk, c: Chunk, d: Chunk)
    ensures Take(SortDesc([Scored(a, 90), Scored(b, 50), Scored(c, 95), Scored(d, 90)]), 2)
         == [Scored(c, 95), Scored(a, 90)]
  {
    var s := [Scored(a, 90), Scored(b, 50), Scored(c, 95), Scored(d, 90)];
    assert s[1..][1..][1..] == [Scored(d, 90)];
    assert SortDesc(s[1..][1..]) == [Scored(c, 95), Scored(d, 90)];
    var t := [Scored(c, 95), Scored(d, 90)];
    assert t[1..] == [Scored(d, 90)] && [Scored(d, 90)][1..] == [];
    assert InsertDesc(Scored(b, 50), [Scored(d, 90)]) == [Scored(d, 90), Scored(b, 50)];
    assert InsertDesc(Scored(b, 50), t) == [Scored(c, 95), Scored(d, 90), Scored(b, 50)];
    assert SortDesc(s[1..]) == [Scored(c, 95), Scored(d, 90), Scored(b, 50)];
    var u := [Scored(c, 95), Scored(d, 90), Scored(b, 50)];
    assert InsertDesc(Scored(a, 90), u[1..]) == [Scored(a, 90)] + u[1..];
  }
}
