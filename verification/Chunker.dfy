/** Cutting documents into overlapping chunks for retrieval. */
module Chunker {
  import opened Text

  const CHUNK_SIZE := 800
  const OVERLAP := 120

  datatype Meta = Label(text: string) | Index(n: nat)

  /** The text is held as its runes. */
  datatype Document = Document(
    id: string, tenant: string, kb: string, title: string, text: string, metadata: map<string, Meta>)

  datatype Chunk = Chunk(id: string, docId: string, kb: string, text: string, metadata: map<string, Meta>)

  /** `newChunk` */
  function NewChunk(d: Document, index: nat, text: string): Chunk {
    var metadata := d.metadata["title" := Label(d.title)]["chunk_index" := Index(index)];
    Chunk(d.id + "_chunk_" + Itoa(index), d.id, d.kb, text, metadata)
  }

  /** Where chunk i ends. */
  ghost function Reach(d: Document, i: nat): nat {
    if 680 * i + 800 < |d.text| then 680 * i + 800 else |d.text|
  }

  /** Chunk i covers the text from 680 * i on, for 800 characters or to the end, under its own id and number. */
  ghost predicate CoversFrom(d: Document, i: nat, chunk: Chunk) {
    && 680 * i <= |d.text|
    && chunk.text == d.text[680 * i..Reach(d, i)]
    && chunk.id == d.id + "_chunk_" + Itoa(i) && chunk.docId == d.id && chunk.kb == d.kb
    && chunk.metadata == d.metadata + map["title" := Label(d.title), "chunk_index" := Index(i)]
  }

  ghost predicate Covers(d: Document, chunks: seq<Chunk>) {
    forall i :: 0 <= i < |chunks| ==> CoversFrom(d, i, chunks[i])
  }

  /** All chunks but the last are full, and the last one reaches the end of the text. */
  ghost predicate Complete(d: Document, chunks: seq<Chunk>) {
    if d.text == "" then chunks == []
    else
      && chunks != []
      && (forall i :: 0 <= i < |chunks| - 1 ==> 680 * i + 800 < |d.text|)
      && 680 * (|chunks| - 1) + 800 >= |d.text|
  }

  /** `ChunkDocument` */
  method ChunkDocument(d: Document) returns (chunks: seq<Chunk>)
    ensures Covers(d, chunks) && Complete(d, chunks)
    ensures Joined(chunks) == d.text
  {
    hide NewChunk, Joined, CoversFrom;
    var text := d.text;
    if |text| == 0 {
      ChunksJoin(d, []);
      return [];
    }
    if |text| <= CHUNK_SIZE {
      chunks := [NewChunk(d, 0, text)];
      assert text[0..|text|] == text;
      ChunkCovers(d, 0, |text|);
      ChunksJoin(d, chunks);
      return;
    }
    chunks := [];
    var start, index := 0, 0;
    while start < |text|
      invariant 0 <= start && start == 680 * index && |chunks| == index && Covers(d, chunks)
      invariant forall i :: 0 <= i < index ==> 680 * i + 800 < |text|
      invariant start < |text|
      decreases |text| - start
    {
      var end := start + CHUNK_SIZE;
      if end > |text| { end := |text|; }
      ChunkCovers(d, index, end);
      chunks := chunks + [NewChunk(d, index, text[start..end])];
      if end == |text| { break; }
      start := end - OVERLAP;
      if start < 0 { start := end; }
      index := index + 1;
    }
    ChunksJoin(d, chunks);
  }

  lemma ChunkCovers(d: Document, i: nat, end: nat)
    requires 680 * i <= end == Reach(d, i)
    ensures CoversFrom(d, i, NewChunk(d, i, d.text[680 * i..end]))
  {
  }

  /** The text read back: the first chunk, then every later one without the overlap. */
  ghost function Joined(chunks: seq<Chunk>): string {
    if chunks == [] then ""
    else if |chunks| == 1 then chunks[0].text
    else
      var last := chunks[|chunks| - 1].text;
      Joined(chunks[..|chunks| - 1]) + if |last| >= 120 then last[120..] else ""
  }

  /** The first n chunks give back the text as far as the n-th one reaches. */
  lemma {:induction false} PrefixJoins(d: Document, chunks: seq<Chunk>, n: nat)
    requires Covers(d, chunks) && Complete(d, chunks) && 1 <= n <= |chunks|
    ensures Joined(chunks[..n]) == d.text[..Reach(d, n - 1)]
  {
    hide Complete, Covers;
    ChunkReaches(d, chunks, n - 1);
    if n == 1 {
      assert chunks[..1] == [chunks[0]];
    } else {
      PrefixJoins(d, chunks, n - 1);
      assert chunks[..n][..n - 1] == chunks[..n - 1];
      ChunkReaches(d, chunks, n - 2);
      TailJoins(d.text, 680 * (n - 1), Reach(d, n - 1));
    }
  }

  /** A text up to the end of the overlap, and what follows the overlap. */
  lemma TailJoins(t: string, from: nat, end: nat)
    requires from + 120 <= end <= |t|
    ensures t[..from + 120] + t[from..end][120..] == t[..end]
  {
  }

  lemma ChunkReaches(d: Document, chunks: seq<Chunk>, i: nat)
    requires Covers(d, chunks) && Complete(d, chunks) && i < |chunks|
    ensures 680 * i <= |d.text| && chunks[i].text == d.text[680 * i..Reach(d, i)]
    ensures i < |chunks| - 1 ==> 680 * i + 800 < |d.text|
  {
  }

  /** Chunking loses nothing and repeats nothing but the overlap. */
  lemma ChunksJoin(d: Document, chunks: seq<Chunk>)
    requires Covers(d, chunks) && Complete(d, chunks)
    ensures Joined(chunks) == d.text
  {
    if d.text != "" {
      PrefixJoins(d, chunks, |chunks|);
      assert chunks[..|chunks|] == chunks;
    }
  }

  /** The two clauses leave no choice: they fix the number of chunks, and so every chunk. */
  lemma ChunksAreDetermined(d: Document, a: seq<Chunk>, b: seq<Chunk>)
    requires Covers(d, a) && Complete(d, a) && Covers(d, b) && Complete(d, b)
    ensures a == b
  {
  }

  /** Chunk IDs of one document are all different. */
  lemma ChunkIdsDiffer(d: Document, chunks: seq<Chunk>, i: nat, j: nat)
    requires Covers(d, chunks) && i < |chunks| && j < |chunks| && chunks[i].id == chunks[j].id
    ensures i == j
  {
    var head := d.id + "_chunk_";
    assert chunks[i].id[|head|..] == Itoa(i) && chunks[j].id[|head|..] == Itoa(j);
    ItoaInjective(i, j);
  }
}
