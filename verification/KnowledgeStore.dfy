/**
 The in-memory knowledge store: documents and their chunks per knowledge base, kept in step
 under re-indexing, and searched by score.
 */
module KnowledgeStores {
  import opened Chunker
  import opened Sequences
  import opened Sorting
  import opened Text

  datatype BucketKey = BucketKey(tenant: string, kb: string)

  datatype DocKey = DocKey(bucket: BucketKey, doc: string)

  datatype Base = Base(
    id: string, tenant: string, name: string, status: string, version: string,
    documentCount: nat, chunkCount: nat)

  const ZERO_BASE := Base("", "", "", "", "", 0, 0)
  const ENABLED := "enabled"
  const DISABLED := "disabled"

  function BucketOf(d: Document): BucketKey { BucketKey(d.tenant, d.kb) }

  function KeyOf(d: Document): DocKey { DocKey(BucketOf(d), d.id) }

  // ---------- what a history of indexing calls amounts to ----------

  datatype Entry = Entry(document: Document, chunks: seq<Chunk>)

  /** Without the chunks of one document. */
  function Others(chunks: seq<Chunk>, docId: string): seq<Chunk> {
    if chunks == [] then []
    else Others(chunks[..|chunks| - 1], docId) + if chunks[|chunks| - 1].docId != docId then [chunks[|chunks| - 1]] else []
  }

  /** The bucket after the calls, one at a time: drop the document's chunks, append the new ones. */
  ghost function Replay(log: seq<Entry>, b: BucketKey): seq<Chunk> {
    if log == [] then []
    else
      var before, e := Replay(log[..|log| - 1], b), log[|log| - 1];
      if BucketOf(e.document) == b then Others(before, e.document.id) + e.chunks else before
  }

  /** No later call indexed the same document. */
  ghost predicate Current(log: seq<Entry>, i: int) {
    0 <= i < |log| && forall j :: i < j < |log| ==> KeyOf(log[j].document) != KeyOf(log[i].document)
  }

  /** The chunks of the bucket's current documents among calls from..to, in the order they were last indexed. */
  ghost function CurrentChunks(log: seq<Entry>, b: BucketKey, n: nat): seq<Chunk>
    requires n <= |log|
  {
    if n == 0 then [] else CurrentChunks(log, b, n - 1) + Share(log, b, n - 1)
  }

  /** Every call passed chunks of the document it indexed. */
  ghost predicate OwnChunks(log: seq<Entry>) {
    forall i, c :: 0 <= i < |log| && c in log[i].chunks ==> c.docId == log[i].document.id
  }

  /** The chunks of the other documents, in order. */
  lemma {:induction false} OthersInOrder(chunks: seq<Chunk>, docId: string)
    ensures GivenBy(chunks, Others(chunks, docId), (c: Chunk, d: Chunk) => c == d && c.docId != docId)
  {
    var gives := (c: Chunk, d: Chunk) => c == d && c.docId != docId;
    if chunks == [] {
      NothingGiven(gives);
    } else {
      var front, c := chunks[..|chunks| - 1], chunks[|chunks| - 1];
      OthersInOrder(front, docId);
      assert chunks == front + [c];
      if gives(c, c) {
        OneMoreGiven(front, Others(front, docId), gives, c, c);
      } else {
        NoneMoreGiven(front, Others(front, docId), gives, c);
        assert Others(chunks, docId) == Others(front, docId);
      }
    }
  }

  lemma {:induction false} OthersConcat(a: seq<Chunk>, b: seq<Chunk>, docId: string)
    ensures Others(a + b, docId) == Others(a, docId) + Others(b, docId)
  {
    if b == [] {
      assert a + b == a;
    } else {
      assert (a + b)[..|a + b| - 1] == a + b[..|b| - 1];
      OthersConcat(a, b[..|b| - 1], docId);
    }
  }

  lemma {:induction false} OthersKeepsAll(chunks: seq<Chunk>, docId: string)
    requires forall c :: c in chunks ==> c.docId != docId
    ensures Others(chunks, docId) == chunks
  {
    if chunks != [] { OthersKeepsAll(chunks[..|chunks| - 1], docId); }
  }

  lemma {:induction false} OthersKeepsNone(chunks: seq<Chunk>, docId: string)
    requires forall c :: c in chunks ==> c.docId == docId
    ensures Others(chunks, docId) == []
  {
    if chunks != [] { OthersKeepsNone(chunks[..|chunks| - 1], docId); }
  }

  /** What call n contributes to the bucket, if nothing later replaces it. */
  ghost function Share(log: seq<Entry>, b: BucketKey, n: nat): seq<Chunk>
    requires n < |log|
  {
    if BucketOf(log[n].document) == b && Current(log, n) then log[n].chunks else []
  }

  lemma ShareSuperseded(log: seq<Entry>, e: Entry, b: BucketKey, n: nat)
    requires n < |log| && OwnChunks(log)
    ensures Share(log + [e], b, n)
         == if BucketOf(e.document) == b then Others(Share(log, b, n), e.document.id) else Share(log, b, n)
  {
    hide Others;
    var more, mine := log + [e], log[n];
    assert more[n] == mine && more[|log|] == e;
    assert Current(more, n) <==> Current(log, n) && KeyOf(mine.document) != KeyOf(e.document) by {
      if Current(more, n) { assert forall j :: n < j < |log| ==> log[j] == more[j]; }
    }
    OthersKeepsNone([], e.document.id);
    if BucketOf(e.document) == b == BucketOf(mine.document) {
      if mine.document.id == e.document.id {
        OthersKeepsNone(mine.chunks, e.document.id);
      } else {
        OthersKeepsAll(mine.chunks, e.document.id);
      }
    }
  }

  /** One more call in the bucket supersedes the document's earlier one and nothing else. */
  lemma {:induction false} Superseded(log: seq<Entry>, e: Entry, b: BucketKey, n: nat)
    requires n <= |log| && OwnChunks(log)
    ensures CurrentChunks(log + [e], b, n)
         == if BucketOf(e.document) == b then Others(CurrentChunks(log, b, n), e.document.id) else CurrentChunks(log, b, n)
  {
    hide Share, OwnChunks, Others;
    if n == 0 {
      OthersKeepsNone([], e.document.id);
    } else {
      Superseded(log, e, b, n - 1);
      ShareSuperseded(log, e, b, n - 1);
      OthersConcat(CurrentChunks(log, b, n - 1), Share(log, b, n - 1), e.document.id);
    }
  }

  /** After any calls, a bucket is its current documents' chunks, in the order they were last indexed. */
  lemma {:induction false} BucketIsCurrentChunks(log: seq<Entry>, b: BucketKey)
    requires OwnChunks(log)
    ensures Replay(log, b) == CurrentChunks(log, b, |log|)
  {
    if log != [] {
      var front, e := log[..|log| - 1], log[|log| - 1];
      assert log == front + [e];
      BucketIsCurrentChunks(front, b);
      Superseded(front, e, b, |front|);
      assert Current(log, |front|);
    }
  }

  /** The documents after the calls. */
  ghost function LatestDocuments(log: seq<Entry>): map<DocKey, Document> {
    if log == [] then map[]
    else
      var d := log[|log| - 1].document;
      LatestDocuments(log[..|log| - 1])[KeyOf(d) := d]
  }

  function DocumentsIn(documents: map<DocKey, Document>, b: BucketKey): set<DocKey> {
    set k | k in documents && k.bucket == b
  }

  // ---------- searching ----------

  datatype Hit = Hit(chunk: Chunk, score: nat)

  function HigherScore(x: Hit, y: Hit): bool { x.score > y.score }

  /** The candidates that pass the filter with a positive score. */
  function Scored(candidates: seq<Chunk>, matches: Chunk -> bool, score: Chunk -> nat): (hits: seq<Hit>) {
    if candidates == [] then []
    else
      var c := candidates[|candidates| - 1];
      Scored(candidates[..|candidates| - 1], matches, score) + if matches(c) && score(c) > 0 then [Hit(c, score(c))] else []
  }

  lemma {:induction false} ScoredExactly(candidates: seq<Chunk>, matches: Chunk -> bool, score: Chunk -> nat, h: Hit)
    ensures h in Scored(candidates, matches, score)
       <==> h.chunk in candidates && matches(h.chunk) && score(h.chunk) > 0 && h.score == score(h.chunk)
  {
    if candidates != [] {
      ScoredExactly(candidates[..|candidates| - 1], matches, score, h);
      assert candidates == candidates[..|candidates| - 1] + [candidates[|candidates| - 1]];
    }
  }

  /** The hits are those of the candidates that pass the filter with a positive score, in order. */
  lemma {:induction false} ScoredInOrder(candidates: seq<Chunk>, matches: Chunk -> bool, score: Chunk -> nat)
    ensures GivenBy(candidates, Scored(candidates, matches, score), (c: Chunk, h: Hit) =>
                      h == Hit(c, score(c)) && matches(c) && score(c) > 0)
  {
    var gives := (c: Chunk, h: Hit) => h == Hit(c, score(c)) && matches(c) && score(c) > 0;
    if candidates == [] {
      NothingGiven(gives);
    } else {
      var front, c := candidates[..|candidates| - 1], candidates[|candidates| - 1];
      ScoredInOrder(front, matches, score);
      assert candidates == front + [c];
      if gives(c, Hit(c, score(c))) {
        OneMoreGiven(front, Scored(front, matches, score), gives, c, Hit(c, score(c)));
      } else {
        NoneMoreGiven(front, Scored(front, matches, score), gives, c);
        assert Scored(candidates, matches, score) == Scored(front, matches, score);
      }
    }
  }

  lemma HigherScoreIsWeakOrder()
    ensures WeakOrder(HigherScore)
  {
  }

  /** The k best: scores fall, ties keep their order, and nothing left out beats anything listed. */
  ghost predicate Best(hits: seq<Hit>, result: seq<Hit>, topK: int) {
    && |result| == (if 0 < topK < |hits| then topK else |hits|)
    && (forall i, j :: 0 <= i < j < |result| ==> result[i].score >= result[j].score)
    && exists rest: seq<Hit> ::
         && multiset(result + rest) == multiset(hits)
         && (forall x, y :: x in result && y in rest ==> x.score >= y.score)
         && (forall k :: Alike(result + rest, k, HigherScore) == Alike(hits, k, HigherScore))
  }

  lemma CutIsBest(hits: seq<Hit>, topK: int)
    ensures var ranked := StableSort(hits, HigherScore);
            Best(hits, if 0 < topK < |ranked| then ranked[..topK] else ranked, topK)
  {
    hide StableSort, Alike;
    HigherScoreIsWeakOrder();
    StableSortSorts(hits, HigherScore);
    var ranked := StableSort(hits, HigherScore);
    var k := if 0 < topK < |ranked| then topK else |ranked|;
    var result, rest := ranked[..k], ranked[k..];
    assert result + rest == ranked;
    assert k == |ranked| ==> result == ranked;
    forall x, y | x in result && y in rest ensures x.score >= y.score {
      var i :| 0 <= i < k && ranked[i] == x;
      var j :| 0 <= j < |rest| && rest[j] == y;
      assert ranked[k + j] == y;
    }
  }

  // ---------- the store ----------

  /** Buckets and documents are what the calls amount to, and every knowledge base counts them right. */
  ghost predicate Consistent(bases: map<BucketKey, Base>, documents: map<DocKey, Document>,
                             chunks: map<BucketKey, seq<Chunk>>, log: seq<Entry>)
  {
    && documents == LatestDocuments(log)
    && (forall b :: b in chunks ==> b in bases && chunks[b] == Replay(log, b))
    && (forall b :: b !in chunks ==> Replay(log, b) == [] && DocumentsIn(documents, b) == {})
    && (forall b :: b in bases ==>
          bases[b].documentCount == |DocumentsIn(documents, b)| && bases[b].chunkCount == |Replay(log, b)|)
  }

  lemma ConsistentGrows(bases: map<BucketKey, Base>, documents: map<DocKey, Document>, chunks: map<BucketKey,
                        seq<Chunk>>, log: seq<Entry>,
                        e: Entry, after: map<BucketKey, Base>, filtered: seq<Chunk>)
    requires Consistent(bases, documents, chunks, log)
    requires var key := BucketOf(e.document);
             && filtered == Others(if key in chunks then chunks[key] else [], e.document.id) + e.chunks
             && after.Keys == bases.Keys + {key}
             && (forall b :: b in bases && b != key ==> after[b] == bases[b])
             && after[key].documentCount == |DocumentsIn(documents[KeyOf(e.document) := e.document], key)|
             && after[key].chunkCount == |filtered|
    ensures Consistent(after, documents[KeyOf(e.document) := e.document], chunks[BucketOf(e.document) := filtered], log + [e])
    ensures filtered == Others(Replay(log, BucketOf(e.document)), e.document.id) + e.chunks
  {
    hide Replay, LatestDocuments, DocumentsIn, Others;
    ReplayStep(log, e);
    DocumentsStep(documents, e.document);
  }

  class MemoryStore {
    var bases: map<BucketKey, Base>
    var documents: map<DocKey, Document>
    var chunks: map<BucketKey, seq<Chunk>>
    /** The indexing calls so far. */
    ghost var log: seq<Entry>

    ghost predicate Valid()
      reads this
    {
      Consistent(bases, documents, chunks, log)
    }

    constructor ()
      ensures Valid() && log == [] && bases == map[]
    {
      bases, documents, chunks, log := map[], map[], map[], [];
    }

    /** `SaveKnowledgeBase`: the caller's counts are ignored, the stored ones stay. */
    method SaveKnowledgeBase(base: Base)
      requires Valid()
      modifies `bases
      ensures Valid()
      ensures var key := BucketKey(base.tenant, base.id);
              bases == old(bases)[key := base.(documentCount := |DocumentsIn(documents, key)|, chunkCount := |Replay(log, key)|)]
    {
      hide Replay, LatestDocuments;
      var key := BucketKey(base.tenant, base.id);
      var current := if key in bases then bases[key] else ZERO_BASE;
      bases := bases[key := base.(documentCount := current.documentCount, chunkCount := current.chunkCount)];
    }

    /** `IndexDocument`: the counts of the knowledge base agree with its documents and chunks afterwards. */
    method IndexDocument(document: Document, newChunks: seq<Chunk>)
      requires Valid()
      modifies this
      ensures Valid() && log == old(log) + [Entry(document, newChunks)]
      ensures var b := BucketOf(document);
              b in chunks && chunks[b] == Others(old(Replay(log, BucketOf(document))), document.id) + newChunks
      ensures documents == old(documents)[KeyOf(document) := document]
      ensures forall b :: b != BucketOf(document) ==>
                (b in bases <==> b in old(bases)) && (b in bases ==> bases[b] == old(bases[b]))
                && (b in chunks <==> b in old(chunks)) && (b in chunks ==> chunks[b] == old(chunks[b]))
    {
      hide Replay, Consistent, DocumentsIn, Others;
      var key := BucketOf(document);
      documents := documents[KeyOf(document) := document];
      var existing := if key in chunks then chunks[key] else [];
      var filtered := FilterOthers(existing, document.id);
      filtered := filtered + newChunks;
      chunks := chunks[key := filtered];
      UpsertStats(document, filtered);
      ConsistentGrows(old(bases), old(documents), old(chunks), log, Entry(document, newChunks), bases, filtered);
      log := log + [Entry(document, newChunks)];
    }

    /** `upsertKnowledgeBaseStatsLocked`: an unknown knowledge base is created, enabled. */
    method UpsertStats(document: Document, bucketChunks: seq<Chunk>)
      modifies `bases
      ensures var key := BucketOf(document);
              && bases.Keys == old(bases).Keys + {key}
              && (forall b :: b in old(bases) && b != key ==> bases[b] == old(bases)[b])
              && bases[key].documentCount == |DocumentsIn(documents, key)| && bases[key].chunkCount == |bucketChunks|
              && bases[key] == (if key in old(bases) && TrimSpace(old(bases)[key].id) != ""
                                then old(bases)[key].(
                                  status := if old(bases)[key].status != "" then old(bases)[key].status else "enabled",
                                  documentCount := bases[key].documentCount, chunkCount := bases[key].chunkCount)
                                else Base(document.kb, document.tenant, document.kb, "enabled", "v1",
                                          bases[key].documentCount, bases[key].chunkCount))
    {
      TrimSpaceTrims("");
      var key := BucketOf(document);
      var base := if key in bases then bases[key] else ZERO_BASE;
      if TrimSpace(base.id) == "" {
        base := base.(id := document.kb, tenant := document.tenant, name := document.kb, status := ENABLED, version := "v1");
      }
      if base.status == "" { base := base.(status := ENABLED); }
      base := base.(documentCount := |DocumentsIn(documents, key)|, chunkCount := |bucketChunks|);
      bases := bases[key := base];
    }

    method FilterOthers(existing: seq<Chunk>, docId: string) returns (filtered: seq<Chunk>)
      ensures filtered == Others(existing, docId)
    {
      filtered := [];
      var i := 0;
      while i < |existing|
        invariant 0 <= i <= |existing| && filtered == Others(existing[..i], docId)
      {
        assert existing[..i + 1][..i] == existing[..i];
        if existing[i].docId != docId { filtered := filtered + [existing[i]]; }
        i := i + 1;
      }
      assert existing[..i] == existing;
    }

    /** The chunks of the listed buckets that are not disabled, in the order listed. */
    ghost function Candidates(keys: seq<BucketKey>): seq<Chunk>
      reads this
    {
      if keys == [] then []
      else
        var b := keys[|keys| - 1];
        Candidates(keys[..|keys| - 1])
        + if (b in bases && bases[b].status == "disabled") || b !in chunks then [] else chunks[b]
    }

    method CandidateChunks(keys: seq<BucketKey>) returns (candidates: seq<Chunk>)
      ensures candidates == Candidates(keys)
    {
      candidates := [];
      var i := 0;
      while i < |keys|
        invariant 0 <= i <= |keys| && candidates == Candidates(keys[..i])
      {
        var b := keys[i];
        assert keys[..i + 1][..i] == keys[..i];
        if b in bases && bases[b].status == DISABLED {
        } else if b in chunks {
          candidates := candidates + chunks[b];
        }
        i := i + 1;
      }
      assert keys[..i] == keys;
    }

    /**
     `Search` over the listed buckets; without a list these are the tenant's buckets in
     whatever order the map yields them.
     */
    method Search(keys: seq<BucketKey>, matches: Chunk -> bool, score: Chunk -> nat, topK: int) returns (hits: seq<Hit>)
      ensures Best(Scored(Candidates(keys), matches, score), hits, topK)
    {
      hide StableSort, Best, Candidates;
      var candidates := CandidateChunks(keys);
      var scored := [];
      var i := 0;
      while i < |candidates|
        invariant 0 <= i <= |candidates| && scored == Scored(candidates[..i], matches, score)
      {
        var c := candidates[i];
        assert candidates[..i + 1][..i] == candidates[..i];
        if matches(c) && score(c) > 0 { scored := scored + [Hit(c, score(c))]; }
        i := i + 1;
      }
      assert candidates[..i] == candidates;
      CutIsBest(scored, topK);
      hits := StableSort(scored, HigherScore);
      if topK > 0 && |hits| > topK { hits := hits[..topK]; }
    }
  }

  lemma DocumentsStep(documents: map<DocKey, Document>, d: Document)
    ensures forall b :: b != BucketOf(d) ==> DocumentsIn(documents[KeyOf(d) := d], b) == DocumentsIn(documents, b)
  {
  }

  lemma ReplayStep(log: seq<Entry>, e: Entry)
    ensures forall b :: Replay(log + [e], b)
                     == if BucketOf(e.document) == b then Others(Replay(log, b), e.document.id) + e.chunks else Replay(log, b)
    ensures LatestDocuments(log + [e]) == LatestDocuments(log)[KeyOf(e.document) := e.document]
  {
  }

  lemma OwnChunksGrow(log: seq<Entry>, d: Document, chunks: seq<Chunk>)
    requires OwnChunks(log) && Covers(d, chunks)
    ensures OwnChunks(log + [Entry(d, chunks)])
  {
    forall c | c in chunks ensures c.docId == d.id {
      var i :| 0 <= i < |chunks| && chunks[i] == c;
      assert CoversFrom(d, i, chunks[i]);
    }
  }

  /** Indexing through the chunker: afterwards the document's text can be read back from its chunks in the bucket. */
  method IndexText(store: MemoryStore, document: Document) returns (count: nat)
    requires store.Valid() && OwnChunks(store.log)
    modifies store
    ensures store.Valid() && OwnChunks(store.log)
    ensures BucketOf(document) in store.chunks
    ensures store.chunks[BucketOf(document)] == CurrentChunks(store.log, BucketOf(document), |store.log|)
    ensures var all := store.chunks[BucketOf(document)];
            && count <= |all|
            && Joined(all[|all| - count..]) == document.text
            && all[..|all| - count] == Others(old(Replay(store.log, BucketOf(document))), document.id)
  {
    hide Replay, Others, CurrentChunks, Joined, Complete, Covers, OwnChunks;
    var chunks := ChunkDocument(document);
    OwnChunksGrow(store.log, document, chunks);
    store.IndexDocument(document, chunks);
    BucketIsCurrentChunks(store.log, BucketOf(document));
    var all := store.chunks[BucketOf(document)];
    assert all[|all| - |chunks|..] == chunks;
    return |chunks|;
  }
}
