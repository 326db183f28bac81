/**
 * The ingestion example: sentence chunking on the Chinese full stop, a
 * placeholder embedding, and loading the chunks of each document into an
 * in-memory vector store.
 */
module Ingest {
  import opened Wrappers
  import opened Text
  import opened JsonValues
  import opened VectorStore

  const FullStop: string := "。"

  const DefaultMaxLen: int := 500

  /** `[s.strip() for s in parts if s.strip()]`. */
  function StrippedNonEmpty(parts: seq<string>): (r: seq<string>)
    ensures forall k | 0 <= k < |r| :: r[k] != ""
    decreases |parts|
  {
    if parts == [] then []
    else
      var last := Strip(parts[|parts| - 1]);
      StrippedNonEmpty(parts[..|parts| - 1]) + (if last != "" then [last] else [])
  }

  /** The sentences `simple_chunk` packs: the stripped, non-blank pieces between full stops. */
  function Sentences(text: string): (r: seq<string>)
    ensures forall k | 0 <= k < |r| :: r[k] != ""
  {
    StrippedNonEmpty(Split(text, FullStop[0]))
  }

  // ---------------------------------------------------------------- greedy packing into groups of sentences

  /** The chunks closed so far, and the sentences of the chunk being built. */
  datatype Packing = Packing(closed: seq<seq<string>>, open: seq<string>)

  /**
   * The packing after the first `n` sentences: a sentence joins the open
   * chunk while the chunk's length plus the sentence's stays within
   * `maxLen`; otherwise the open chunk is closed and the sentence starts
   * the next one.
   */
  function Pack(sents: seq<string>, maxLen: int, n: nat): Packing
    requires n <= |sents|
  {
    if n == 0 then Packing([], [])
    else
      var p := Pack(sents, maxLen, n - 1);
      var s := sents[n - 1];
      if |Join(p.open, FullStop)| + |s| > maxLen then
        Packing(if p.open != [] then p.closed + [p.open] else p.closed, [s])
      else Packing(p.closed, p.open + [s])
  }

  /** Every chunk of the packing, as its list of sentences. */
  function Groups(sents: seq<string>, maxLen: int): seq<seq<string>> {
    var p := Pack(sents, maxLen, |sents|);
    if p.open != [] then p.closed + [p.open] else p.closed
  }

  /** Each group of sentences written as one chunk. */
  function JoinEach(groups: seq<seq<string>>): (r: seq<string>)
    ensures |r| == |groups|
    ensures forall k | 0 <= k < |groups| :: r[k] == Join(groups[k], FullStop)
  {
    seq(|groups|, k requires 0 <= k < |groups| => Join(groups[k], FullStop))
  }

  /** What `simple_chunk(text, maxLen)` returns. */
  function ChunksOf(text: string, maxLen: int): seq<string> {
    JoinEach(Groups(Sentences(text), maxLen))
  }

  function Flatten(groups: seq<seq<string>>): seq<string>
    decreases |groups|
  {
    if groups == [] then [] else Flatten(groups[..|groups| - 1]) + groups[|groups| - 1]
  }

  lemma JoinNonEmpty(g: seq<string>)
    requires g != [] && g[0] != ""
    ensures Join(g, FullStop) != ""
  {
  }

  /** The closed groups are not empty, and the open one is empty only before the first sentence. */
  lemma {:induction false} PackShape(sents: seq<string>, maxLen: int, n: nat)
    requires n <= |sents|
    ensures var p := Pack(sents, maxLen, n);
      (p.open == [] <==> n == 0) && forall k | 0 <= k < |p.closed| :: p.closed[k] != []
  {
    if n > 0 {
      PackShape(sents, maxLen, n - 1);
    }
  }

  /** The groups hold the sentences read so far, in order. */
  lemma {:induction false} PackFlatten(sents: seq<string>, maxLen: int, n: nat)
    requires n <= |sents|
    ensures var p := Pack(sents, maxLen, n); Flatten(p.closed) + p.open == sents[..n]
  {
    if n > 0 {
      PackFlatten(sents, maxLen, n - 1);
      var p := Pack(sents, maxLen, n - 1);
      var s := sents[n - 1];
      assert sents[..n] == sents[..n - 1] + [s];
      if |Join(p.open, FullStop)| + |s| > maxLen && p.open != [] {
        var c := p.closed + [p.open];
        assert c[..|c| - 1] == p.closed;
      }
    }
  }

  /** A group of two or more sentences fits in `maxLen` plus the separator. */
  lemma {:induction false} PackBound(sents: seq<string>, maxLen: int, n: nat)
    requires n <= |sents|
    ensures var p := Pack(sents, maxLen, n);
      && (|p.open| >= 2 ==> |Join(p.open, FullStop)| <= maxLen + 1)
      && forall k | 0 <= k < |p.closed| :: |p.closed[k]| >= 2 ==> |Join(p.closed[k], FullStop)| <= maxLen + 1
  {
    if n > 0 {
      PackBound(sents, maxLen, n - 1);
      PackShape(sents, maxLen, n - 1);
      var p := Pack(sents, maxLen, n - 1);
      var s := sents[n - 1];
      if |Join(p.open, FullStop)| + |s| <= maxLen && p.open != [] {
        JoinSingle(p.open, s, FullStop);
      }
    }
  }

  /** The first sentence of each group would not have fitted after the group before it. */
  predicate Greedy(groups: seq<seq<string>>, maxLen: int) {
    forall k | 0 < k < |groups| :: groups[k] != [] && |Join(groups[k - 1], FullStop)| + |groups[k][0]| > maxLen
  }

  /** Packing is greedy, counting the open group after the closed ones. */
  lemma {:induction false} PackGreedy(sents: seq<string>, maxLen: int, n: nat)
    requires n <= |sents|
    ensures var p := Pack(sents, maxLen, n);
      Greedy(p.closed, maxLen) && (p.closed != [] && p.open != [] ==> |Join(p.closed[|p.closed| - 1], FullStop)| + |p.open[0]| > maxLen)
  {
    if n > 0 {
      PackGreedy(sents, maxLen, n - 1);
      PackShape(sents, maxLen, n - 1);
      var p := Pack(sents, maxLen, n - 1);
      var s := sents[n - 1];
      if |Join(p.open, FullStop)| + |s| > maxLen {
        if p.open != [] {
          GreedyExtend(p.closed, p.open, maxLen);
        }
      } else {
        assert Pack(sents, maxLen, n).closed == p.closed;
        assert p.open != [] ==> (p.open + [s])[0] == p.open[0];
      }
    }
  }

  lemma GreedyExtend(groups: seq<seq<string>>, g: seq<string>, maxLen: int)
    requires Greedy(groups, maxLen) && g != []
    requires groups != [] ==> |Join(groups[|groups| - 1], FullStop)| + |g[0]| > maxLen
    ensures Greedy(groups + [g], maxLen)
  {
    var r := groups + [g];
    forall k | 0 < k < |r|
      ensures r[k] != [] && |Join(r[k - 1], FullStop)| + |r[k][0]| > maxLen
    {
      assert r[k - 1] == groups[k - 1];
      if k < |groups| {
        assert r[k] == groups[k];
      }
    }
  }

  lemma {:induction false} JoinFlatten(groups: seq<seq<string>>)
    requires forall k | 0 <= k < |groups| :: groups[k] != []
    ensures Join(JoinEach(groups), FullStop) == Join(Flatten(groups), FullStop)
    decreases |groups|
  {
    if |groups| > 1 {
      var init := groups[..|groups| - 1];
      var last := groups[|groups| - 1];
      JoinFlatten(init);
      assert JoinEach(groups) == JoinEach(init) + [Join(last, FullStop)];
      JoinSingle(JoinEach(init), Join(last, FullStop), FullStop);
      FlattenNonEmpty(init);
      JoinAppend(Flatten(init), last, FullStop);
    } else if |groups| == 1 {
      assert groups[..0] == [];
      assert Flatten(groups) == groups[0];
      assert JoinEach(groups) == [Join(groups[0], FullStop)];
    }
  }

  lemma {:induction false} FlattenNonEmpty(groups: seq<seq<string>>)
    requires groups != [] && forall k | 0 <= k < |groups| :: groups[k] != []
    ensures Flatten(groups) != []
    decreases |groups|
  {
  }

  // ---------------------------------------------------------------- properties of the chunks

  /** No chunk is empty. */
  lemma ChunksNonEmpty(text: string, maxLen: int)
    ensures forall k | 0 <= k < |ChunksOf(text, maxLen)| :: ChunksOf(text, maxLen)[k] != ""
  {
    var sents := Sentences(text);
    var groups := Groups(sents, maxLen);
    PackShape(sents, maxLen, |sents|);
    PackFlatten(sents, maxLen, |sents|);
    forall k | 0 <= k < |groups|
      ensures Join(groups[k], FullStop) != ""
    {
      GroupMember(sents, maxLen, k, 0);
      JoinNonEmpty(groups[k]);
    }
  }

  /** Every sentence in a group is one of the sentences. */
  lemma GroupMember(sents: seq<string>, maxLen: int, k: nat, j: nat)
    requires k < |Groups(sents, maxLen)|
    ensures Groups(sents, maxLen)[k] != []
    ensures j < |Groups(sents, maxLen)[k]| ==> Groups(sents, maxLen)[k][j] in sents
  {
    var groups := Groups(sents, maxLen);
    var p := Pack(sents, maxLen, |sents|);
    PackShape(sents, maxLen, |sents|);
    PackFlatten(sents, maxLen, |sents|);
    assert Flatten(groups) == sents by {
      if p.open != [] {
        assert groups[..|groups| - 1] == p.closed;
      }
    }
    if j < |groups[k]| {
      FlattenMember(groups, k, j);
    }
  }

  lemma {:induction false} FlattenMember(groups: seq<seq<string>>, k: nat, j: nat)
    requires k < |groups| && j < |groups[k]|
    ensures groups[k][j] in Flatten(groups)
    decreases |groups|
  {
    if k < |groups| - 1 {
      FlattenMember(groups[..|groups| - 1], k, j);
    }
  }

  /** Text without any non-blank sentence gives no chunks. */
  lemma ChunksNoSentences(text: string, maxLen: int)
    requires Sentences(text) == []
    ensures ChunksOf(text, maxLen) == []
  {
  }

  /** Joining the chunks with the full stop gives the sentences joined the same way: nothing is lost or reordered. */
  lemma ChunksJoin(text: string, maxLen: int)
    ensures Join(ChunksOf(text, maxLen), FullStop) == Join(Sentences(text), FullStop)
  {
    var sents := Sentences(text);
    var groups := Groups(sents, maxLen);
    var p := Pack(sents, maxLen, |sents|);
    PackShape(sents, maxLen, |sents|);
    PackFlatten(sents, maxLen, |sents|);
    assert sents[..|sents|] == sents;
    if p.open != [] {
      assert groups[..|groups| - 1] == p.closed;
    }
    JoinFlatten(groups);
  }

  /** A chunk of two or more sentences is at most `maxLen + 1` long. */
  lemma ChunksBound(text: string, maxLen: int, k: nat)
    requires k < |Groups(Sentences(text), maxLen)| && |Groups(Sentences(text), maxLen)[k]| >= 2
    ensures |ChunksOf(text, maxLen)[k]| <= maxLen + 1
  {
    var sents := Sentences(text);
    PackBound(sents, maxLen, |sents|);
  }

  /** A sentence longer than `maxLen` forms a chunk of its own, unsplit. */
  lemma LongSentenceAlone(text: string, maxLen: int, k: nat, j: nat)
    requires k < |Groups(Sentences(text), maxLen)| && j < |Groups(Sentences(text), maxLen)[k]|
    requires |Groups(Sentences(text), maxLen)[k][j]| > maxLen
    ensures Groups(Sentences(text), maxLen)[k] == [Groups(Sentences(text), maxLen)[k][j]]
    ensures ChunksOf(text, maxLen)[k] == Groups(Sentences(text), maxLen)[k][j]
  {
    var g := Groups(Sentences(text), maxLen)[k];
    if |g| >= 2 {
      ChunksBound(text, maxLen, k);
      JoinLong(g, FullStop, j);
      assert false;
    }
  }

  /** Adjacent chunks: the first sentence of the later one did not fit after the earlier one. */
  lemma ChunksGreedy(text: string, maxLen: int)
    ensures Greedy(Groups(Sentences(text), maxLen), maxLen)
  {
    var sents := Sentences(text);
    var p := Pack(sents, maxLen, |sents|);
    PackGreedy(sents, maxLen, |sents|);
    PackShape(sents, maxLen, |sents|);
    if p.open != [] {
      GreedyExtend(p.closed, p.open, maxLen);
    }
  }

  // ---------------------------------------------------------------- the loop of simple_chunk

  /** `simple_chunk`: the loop over the sentences with the chunk under construction in `cur`. */
  method SimpleChunk(text: string, maxLen: int) returns (chunks: seq<string>)
    ensures chunks == ChunksOf(text, maxLen)
  {
    var sents := Sentences(text);
    chunks := [];
    var cur := "";
    for i := 0 to |sents|
      invariant chunks == JoinEach(Pack(sents, maxLen, i).closed)
      invariant cur == Join(Pack(sents, maxLen, i).open, FullStop)
      invariant cur == "" <==> Pack(sents, maxLen, i).open == []
    {
      var s := sents[i];
      var p := Pack(sents, maxLen, i);
      PackShape(sents, maxLen, i);
      if |cur| + |s| > maxLen {
        if cur != "" {
          chunks := chunks + [cur];
        }
        cur := s;
      } else {
        if cur != "" {
          JoinSingle(p.open, s, FullStop);
          cur := cur + FullStop + s;
        } else {
          cur := s;
        }
      }
      assert Pack(sents, maxLen, i + 1).open != [];
      GroupHead(sents, maxLen, i + 1);
    }
    assert Pack(sents, maxLen, |sents|).open != [] ==> JoinEach(Groups(sents, maxLen)) == chunks + [cur];
    if cur != "" {
      chunks := chunks + [cur];
    }
  }

  /** The open group after a sentence starts with a sentence, so its text is not empty. */
  lemma GroupHead(sents: seq<string>, maxLen: int, n: nat)
    requires 0 < n <= |sents| && forall k | 0 <= k < |sents| :: sents[k] != ""
    ensures Pack(sents, maxLen, n).open != [] && Join(Pack(sents, maxLen, n).open, FullStop) != ""
  {
    PackShape(sents, maxLen, n);
    PackFlatten(sents, maxLen, n);
    var p := Pack(sents, maxLen, n);
    var f := Flatten(p.closed);
    assert (f + p.open)[|f|] == p.open[0];
    assert sents[..n][|f|] == p.open[0];
    JoinNonEmpty(p.open);
  }

  // ---------------------------------------------------------------- the placeholder embedding

  /** The sum of the code points of `text`. */
  function CodeSum(text: string): nat
    decreases |text|
  {
    if text == [] then 0 else CodeSum(text[..|text| - 1]) + text[|text| - 1] as nat
  }

  /** `fake_embed`: eight equal components, the code-point sum modulo 100. */
  function FakeEmbed(text: string): (r: seq<real>)
    ensures |r| == 8
    ensures forall k | 0 <= k < 8 :: r[k] == (CodeSum(text) % 100) as real
    ensures forall k | 0 <= k < 8 :: 0.0 <= r[k] < 100.0
  {
    seq(8, _ => (CodeSum(text) % 100) as real)
  }

  // ---------------------------------------------------------------- loading the documents

  /** `f'doc{i}_chunk{j}'`. */
  function ChunkId(i: nat, j: nat): string {
    "doc" + NatToString(i) + "_chunk" + NatToString(j)
  }

  /** `{'source': f'doc{i}', 'text': chunk}`. */
  function ChunkMetadata(i: nat, chunk: string): Dict {
    map["source" := JString("doc" + NatToString(i)), "text" := JString(chunk)]
  }

  /** The entries for document `i`, one per chunk in chunk order. */
  function DocEntries(i: nat, chunks: seq<string>): (r: seq<Entry>)
    ensures |r| == |chunks|
    ensures forall j | 0 <= j < |chunks| :: r[j] == Entry(ChunkId(i, j), FakeEmbed(chunks[j]), ChunkMetadata(i, chunks[j]))
  {
    seq(|chunks|, j requires 0 <= j < |chunks| => Entry(ChunkId(i, j), FakeEmbed(chunks[j]), ChunkMetadata(i, chunks[j])))
  }

  /** The chunks of every document, in document order. */
  function ChunkedDocs(docs: seq<string>): (r: seq<seq<string>>)
    ensures |r| == |docs|
    decreases |docs|
  {
    if docs == [] then [] else ChunkedDocs(docs[..|docs| - 1]) + [ChunksOf(docs[|docs| - 1], DefaultMaxLen)]
  }

  /**
   * Equality as a predicate over any type: the solver then compares two lists
   * of chunks as values, without unfolding the chunking of every element.
   */
  predicate Same<T(==)>(a: T, b: T) {
    a == b
  }

  /** Entry `i` of the chunked documents is the chunking of document `i`. */
  lemma {:induction false} ChunkedDoc(docs: seq<string>, i: nat)
    requires i < |docs|
    ensures Same(ChunkedDocs(docs)[i], ChunksOf(docs[i], DefaultMaxLen))
    decreases |docs|
  {
    var init := docs[..|docs| - 1];
    if i < |init| {
      ChunkedDoc(init, i);
      assert docs[i] == init[i];
    }
  }

  /** The store contents after the first `n` documents, given the chunks of each. */
  function Ingested(chunked: seq<seq<string>>, n: nat): seq<Entry>
    requires n <= |chunked|
  {
    if n == 0 then [] else Ingested(chunked, n - 1) + DocEntries(n - 1, chunked[n - 1])
  }

  /** `chunked` lists the chunks `simple_chunk` makes of each document. */
  predicate ChunkingOf(docs: seq<string>, chunked: seq<seq<string>>) {
    Same(chunked, ChunkedDocs(docs))
  }

  /** `ingest_example`: a new store loaded with the chunks of every document, document by document. */
  method IngestExample(docs: seq<string>) returns (vs: InMemoryVectorStore)
    ensures fresh(vs)
    ensures vs.store == Ingested(ChunkedDocs(docs), |docs|)
  {
    vs := new InMemoryVectorStore();
    IngestAll(vs, docs, ChunkedDocs(docs));
  }

  /** The loop of `ingest_example`, over a store that starts empty. */
  method IngestAll(vs: InMemoryVectorStore, docs: seq<string>, ghost chunked: seq<seq<string>>)
    requires vs.store == [] && ChunkingOf(docs, chunked)
    modifies vs
    ensures vs.store == Ingested(chunked, |docs|)
  {
    for i := 0 to |docs|
      invariant vs.store == Ingested(chunked, i)
    {
      IngestDoc(vs, docs, i, chunked);
    }
  }

  /** One pass of the loop: document `i` is chunked, its lists are built and upserted after the earlier documents. */
  method IngestDoc(vs: InMemoryVectorStore, docs: seq<string>, i: nat, ghost chunked: seq<seq<string>>)
    requires i < |docs| && ChunkingOf(docs, chunked) && vs.store == Ingested(chunked, i)
    modifies vs
    ensures vs.store == Ingested(chunked, i + 1)
  {
    var chunks := SimpleChunk(docs[i], DefaultMaxLen);
    var embeddings, metadatas, ids := DocLists(i, chunks);
    var _ := vs.Upsert(embeddings, metadatas, ids);
    IngestedStep(docs, chunked, i);
  }

  /** The entries of document `i` follow those of the documents before it. */
  lemma IngestedStep(docs: seq<string>, chunked: seq<seq<string>>, i: nat)
    requires ChunkingOf(docs, chunked) && i < |docs|
    ensures Ingested(chunked, i + 1) == Ingested(chunked, i) + DocEntries(i, ChunksOf(docs[i], DefaultMaxLen))
  {
    ChunkedDoc(docs, i);
  }

  /** The embeddings, metadata and ids `ingest_example` lists for document `i`. */
  method DocLists(i: nat, chunks: seq<string>) returns (embeddings: seq<seq<real>>, metadatas: seq<Dict>, ids: seq<string>)
    ensures Entries(embeddings, metadatas, ids, Appendable(embeddings, metadatas, ids)) == DocEntries(i, chunks)
  {
    embeddings := seq(|chunks|, j requires 0 <= j < |chunks| => FakeEmbed(chunks[j]));
    metadatas := seq(|chunks|, j requires 0 <= j < |chunks| => ChunkMetadata(i, chunks[j]));
    ids := seq(|chunks|, j requires 0 <= j < |chunks| => ChunkId(i, j));
    UpsertedDoc(i, chunks, embeddings, metadatas, ids);
  }

  /** The three lists built for one document make `upsert` append exactly that document's entries. */
  lemma UpsertedDoc(i: nat, chunks: seq<string>, embeddings: seq<seq<real>>, metadatas: seq<Dict>, ids: seq<string>)
    requires |embeddings| == |metadatas| == |ids| == |chunks|
    requires forall j | 0 <= j < |chunks| :: embeddings[j] == FakeEmbed(chunks[j])
    requires forall j | 0 <= j < |chunks| :: metadatas[j] == ChunkMetadata(i, chunks[j])
    requires forall j | 0 <= j < |chunks| :: ids[j] == ChunkId(i, j)
    ensures Entries(embeddings, metadatas, ids, Appendable(embeddings, metadatas, ids)) == DocEntries(i, chunks)
  {
  }

  lemma {:induction false} IngestedPrefix(chunked: seq<seq<string>>, i: nat, n: nat)
    requires i <= n <= |chunked|
    ensures |Ingested(chunked, i)| <= |Ingested(chunked, n)|
    ensures Ingested(chunked, i) == Ingested(chunked, n)[..|Ingested(chunked, i)|]
    decreases n - i
  {
    if i < n {
      IngestedPrefix(chunked, i, n - 1);
      var a := Ingested(chunked, n - 1);
      var b := DocEntries(n - 1, chunked[n - 1]);
      assert Ingested(chunked, n) == a + b;
      var c := Ingested(chunked, i);
      assert c == a[..|c|];
      PrefixOfAppend(a, b, |c|);
    }
  }

  lemma PrefixOfAppend<T>(a: seq<T>, b: seq<T>, k: nat)
    requires k <= |a|
    ensures (a + b)[..k] == a[..k]
  {
  }

  /** Chunk `j` of document `i` sits after the entries of the earlier documents, with its id and metadata. */
  lemma IngestedEntry(chunked: seq<seq<string>>, i: nat, j: nat)
    requires i < |chunked| && j < |chunked[i]|
    ensures var at := |Ingested(chunked, i)| + j;
      at < |Ingested(chunked, |chunked|)|
      && Ingested(chunked, |chunked|)[at] == Entry(ChunkId(i, j), FakeEmbed(chunked[i][j]), ChunkMetadata(i, chunked[i][j]))
  {
    IngestedPrefix(chunked, i + 1, |chunked|);
    var a, b := Ingested(chunked, i), DocEntries(i, chunked[i]);
    assert Ingested(chunked, i + 1) == a + b;
    assert (a + b)[|a| + j] == b[j];
  }
}
