/** The pipeline (src/rag.py): ingesting one file into a collection, with retried
    embedding and content-derived ids, and answering a question from the passages
    retrieved for it. What the outside world does (the file's content, the services, the
    hash function) is a parameter. */
module Rag {
  import opened Wrappers
  import opened PyStr
  import opened Paths
  import Chunking
  import Embeddings
  import opened Store
  import Prompt
  import Llm

  // ----- _embed_with_retry -----

  /** The embedding service across attempts: `service(a)(j)` is the reply to request `j`
      of attempt `a`. */
  type Service = nat -> nat -> Embeddings.Reply

  function Pow2(n: nat): (r: nat)
    ensures r >= 1
  {
    if n == 0 then 1 else 2 * Pow2(n - 1)
  }

  /** The pauses `time.sleep(2 ** a)` after failed attempts `0 .. m - 1`. */
  function Backoff(m: nat): (s: seq<nat>)
    ensures |s| == m
  {
    seq(m, a requires 0 <= a < m => Pow2(a))
  }

  predicate AttemptSucceeds(chunks: seq<string>, service: Service, a: nat) {
    Embeddings.EmbedAll(chunks, service(a)).Ok?
  }

  /** The first attempt from `a` on, below `n`, whose `embed_texts` call succeeds; `n`
      when none does. */
  function FirstSuccess(chunks: seq<string>, service: Service, n: nat, a: nat): (k: nat)
    requires a <= n
    ensures a <= k <= n
    ensures forall b :: a <= b < k ==> !AttemptSucceeds(chunks, service, b)
    ensures k < n ==> AttemptSucceeds(chunks, service, k)
    decreases n - a
  {
    if a == n || AttemptSucceeds(chunks, service, a) then a else FirstSuccess(chunks, service, n, a + 1)
  }

  /** What `_embed_with_retry(chunks, max_retries)` returns: `None` when no attempt is
      made, the vectors of the first successful attempt, or `[]` when every attempt fails. */
  function Retried(chunks: seq<string>, maxRetries: int, service: Service): Option<seq<Embeddings.Vector>> {
    if maxRetries <= 0 then
      None
    else
      var k := FirstSuccess(chunks, service, maxRetries, 0);
      if k < maxRetries then Some(Embeddings.EmbedAll(chunks, service(k)).value) else Some([])
  }

  /** The pauses taken: one after each failed attempt except the last. */
  function Pauses(chunks: seq<string>, maxRetries: int, service: Service): seq<nat> {
    if maxRetries <= 0 then
      []
    else
      var k := FirstSuccess(chunks, service, maxRetries, 0);
      Backoff(if k < maxRetries then k else maxRetries - 1)
  }

  /** The number of `embed_texts` calls: up to and including the first success, all of
      them when none succeeds. */
  function Attempts(chunks: seq<string>, maxRetries: int, service: Service): nat {
    if maxRetries <= 0 then
      0
    else
      var k := FirstSuccess(chunks, service, maxRetries, 0);
      if k < maxRetries then k + 1 else maxRetries
  }

  /** `_embed_with_retry`: `pauses` records the argument of each `time.sleep`, and
      `attempts` counts the calls of `embed_texts`. */
  method EmbedWithRetry(chunks: seq<string>, maxRetries: int, service: Service)
    returns (result: Option<seq<Embeddings.Vector>>, pauses: seq<nat>, attempts: nat)
    ensures result == Retried(chunks, maxRetries, service)
    ensures pauses == Pauses(chunks, maxRetries, service)
    ensures attempts == Attempts(chunks, maxRetries, service)
  {
    pauses, attempts := [], 0;
    if maxRetries <= 0 {
      return None, pauses, attempts;  // `range(max_retries)` is empty: the function falls off its end
    }
    for attempt := 0 to maxRetries - 1
      invariant pauses == Backoff(attempt) && attempts == attempt
      invariant FirstSuccess(chunks, service, maxRetries, 0) == FirstSuccess(chunks, service, maxRetries, attempt)
    {
      var vectors, _ := Embeddings.EmbedTexts(chunks, service(attempt));
      attempts := attempts + 1;
      if vectors.Ok? {
        return Some(vectors.value), pauses, attempts;
      }
      pauses := pauses + [Pow2(attempt)];
      assert pauses == Backoff(attempt + 1);
    }
    // The last attempt gives up instead of pausing.
    var vectors, _ := Embeddings.EmbedTexts(chunks, service(maxRetries - 1));
    attempts := attempts + 1;
    if vectors.Ok? {
      return Some(vectors.value), pauses, attempts;
    }
    return Some([]), pauses, attempts;
  }

  /** Between two consecutive attempts there is exactly one pause, and there are at
      most `max_retries` attempts, at least one when any is allowed. */
  lemma PauseBetweenAttempts(chunks: seq<string>, maxRetries: int, service: Service)
    requires maxRetries >= 1
    ensures 1 <= Attempts(chunks, maxRetries, service) <= maxRetries
    ensures Attempts(chunks, maxRetries, service) == |Pauses(chunks, maxRetries, service)| + 1
  {
  }

  /** A first attempt that succeeds is used at once, without a pause. */
  lemma RetryFirstAttempt(chunks: seq<string>, maxRetries: int, service: Service)
    requires maxRetries >= 1 && AttemptSucceeds(chunks, service, 0)
    ensures Retried(chunks, maxRetries, service) == Some(Embeddings.EmbedAll(chunks, service(0)).value)
    ensures Pauses(chunks, maxRetries, service) == []
    ensures Attempts(chunks, maxRetries, service) == 1
  {
  }

  /** When every attempt fails, the result is `[]` after `max_retries - 1` pauses of
      1, 2, 4, ... seconds; the default three attempts pause for 1 and 2 seconds. */
  lemma RetryExhausted(chunks: seq<string>, maxRetries: int, service: Service)
    requires maxRetries >= 1
    requires forall a :: 0 <= a < maxRetries ==> !AttemptSucceeds(chunks, service, a)
    ensures Retried(chunks, maxRetries, service) == Some([])
    ensures Attempts(chunks, maxRetries, service) == maxRetries
    ensures Pauses(chunks, maxRetries, service) == Backoff(maxRetries - 1)
    ensures maxRetries == 3 ==> Pauses(chunks, maxRetries, service) == [1, 2]
  {
    assert FirstSuccess(chunks, service, maxRetries, 0) == maxRetries;
    if maxRetries == 3 {
      assert Pow2(1) == 2;
    }
  }

  /** For a non-empty list of chunks the result is falsy (`None` or `[]`) exactly when
      no attempt is made or all of them fail; otherwise it holds one vector per chunk. */
  lemma RetriedFalsy(chunks: seq<string>, maxRetries: int, service: Service)
    requires chunks != []
    ensures var r := Retried(chunks, maxRetries, service);
      (r.None? || r.value == []) <==>
        (maxRetries <= 0 || forall a :: 0 <= a < maxRetries ==> !AttemptSucceeds(chunks, service, a))
    ensures var r := Retried(chunks, maxRetries, service);
      r.Some? && r.value != [] ==> |r.value| == |chunks|
  {
    if maxRetries > 0 {
      var k := FirstSuccess(chunks, service, maxRetries, 0);
      if k < maxRetries {
        Embeddings.SuccessVectors(chunks, service(k), 0);
      }
    }
  }

  // ----- ids and metadata -----

  /** `str(hash(chunk))[-8:]`: the last eight characters of the hash's decimal form
      (all of it when shorter). */
  function HashTail(h: int): string {
    var s := IntToString(h);
    PySlice(s, -8, |s|)
  }

  lemma HashTailSpec(h: int)
    ensures var s, t := IntToString(h), HashTail(h);
      && |t| <= 8 && |t| <= |s| && t == s[|s| - |t|..]
      && (|s| >= 8 ==> |t| == 8)
  {
    NegativeTailSlice(IntToString(h), 8);
  }

  /** `f"{path.stem}_{i:03d}_{chunk_hash}"`. */
  function ChunkId(stem: string, i: nat, h: int): string {
    stem + "_" + ZeroPad(i, 3) + "_" + HashTail(h)
  }

  /** The ids of the chunks of a file, by position. */
  function ChunkIds(stem: string, chunks: seq<string>, hash: string -> int): (ids: seq<string>)
    ensures |ids| == |chunks|
    ensures forall i :: 0 <= i < |chunks| ==> ids[i] == ChunkId(stem, i, hash(chunks[i]))
  {
    seq(|chunks|, i requires 0 <= i < |chunks| => ChunkId(stem, i, hash(chunks[i])))
  }

  /** The metadata stored with chunk `i` of `total`. */
  function ChunkMetadata(path: string, i: nat, total: nat): Metadata {
    map["source" := MStr(Name(path)), "chunk" := MInt(i + 1), "total_chunks" := MInt(total), "file_path" := MStr(path)]
  }

  function ChunkMetadatas(path: string, total: nat): (ms: seq<Metadata>)
    ensures |ms| == total
    ensures forall i :: 0 <= i < total ==> ms[i] == ChunkMetadata(path, i, total)
  {
    seq(total, i requires 0 <= i < total => ChunkMetadata(path, i, total))
  }

  /** The `for i, chunk in enumerate(chunks)` loop building `ids` and `metadatas`. */
  method ChunkKeys(path: string, chunks: seq<string>, hash: string -> int)
    returns (ids: seq<string>, metadatas: seq<Metadata>)
    ensures ids == ChunkIds(Stem(Name(path)), chunks, hash)
    ensures metadatas == ChunkMetadatas(path, |chunks|)
  {
    var stem := Stem(Name(path));
    ids, metadatas := [], [];
    for i := 0 to |chunks|
      invariant |ids| == i && forall j :: 0 <= j < i ==> ids[j] == ChunkId(stem, j, hash(chunks[j]))
      invariant |metadatas| == i && forall j :: 0 <= j < i ==> metadatas[j] == ChunkMetadata(path, j, |chunks|)
    {
      ids, metadatas := AppendChunkKeys(ids, metadatas, stem, path, chunks, hash, i);
    }
    var spec := ChunkIds(stem, chunks, hash);
    assert |ids| == |spec| && forall j :: 0 <= j < |ids| ==> ids[j] == spec[j];
  }

  /** One turn of that loop: the id and the metadata of chunk `i` appended. */
  method AppendChunkKeys(ids: seq<string>, metadatas: seq<Metadata>, stem: string, path: string,
                         chunks: seq<string>, hash: string -> int, i: nat)
    returns (ids': seq<string>, metadatas': seq<Metadata>)
    requires i < |chunks|
    requires |ids| == i && forall j :: 0 <= j < i ==> ids[j] == ChunkId(stem, j, hash(chunks[j]))
    requires |metadatas| == i && forall j :: 0 <= j < i ==> metadatas[j] == ChunkMetadata(path, j, |chunks|)
    ensures |ids'| == i + 1 && forall j :: 0 <= j < i + 1 ==> ids'[j] == ChunkId(stem, j, hash(chunks[j]))
    ensures |metadatas'| == i + 1 && forall j :: 0 <= j < i + 1 ==> metadatas'[j] == ChunkMetadata(path, j, |chunks|)
  {
    var chunkHash := HashTail(hash(chunks[i]));
    ids' := ids + [stem + "_" + ZeroPad(i, 3) + "_" + chunkHash];
    metadatas' := metadatas + [ChunkMetadata(path, i, |chunks|)];
  }

  /** Two chunks of one file never share an id, whatever their hashes: the zero-padded
      index is a run of digits ended by the `_` before the hash. */
  lemma DistinctChunkIds(stem: string, i: nat, j: nat, hi: int, hj: int)
    requires i != j
    ensures ChunkId(stem, i, hi) != ChunkId(stem, j, hj)
  {
    ZeroPadSpec(i, 3);
    ZeroPadSpec(j, 3);
    var a, b := ZeroPad(i, 3), ZeroPad(j, 3);
    var p, s, t := stem + "_", "_" + HashTail(hi), "_" + HashTail(hj);
    assert ChunkId(stem, i, hi) == p + a + s;
    assert ChunkId(stem, j, hj) == p + b + t;
    if a == b {
      ZeroPadInjective(i, j, 3);
    } else if |a| == |b| {
      var d :| 0 <= d < |a| && a[d] != b[d];
      DiffersAt(p, a, s, b, t, d);
    } else if |a| < |b| {
      DiffersAt(p, a, s, b, t, |a|);
    } else {
      DiffersAt(p, a, s, b, t, |b|);
    }
  }

  /** Two strings that share a prefix and then differ, at `d` past it, are different;
      the pieces after the digit runs start with `_`, which is not a digit. */
  lemma DiffersAt(p: string, a: string, s: string, b: string, t: string, d: nat)
    requires AllDigits(a) && AllDigits(b) && s != [] && t != [] && s[0] == '_' && t[0] == '_'
    requires d <= |a| && d <= |b| && (d == |a| || d == |b| || a[d] != b[d]) && (d == |a| ==> d < |b|) && (d == |b| ==> d < |a|)
    ensures p + a + s != p + b + t
  {
    var x, y := p + a + s, p + b + t;
    var e := |p| + d;
    assert e < |x| && e < |y|;
    if d == |a| {
      assert x[e] == '_' && y[e] == b[d];
    } else if d == |b| {
      assert y[e] == '_' && x[e] == a[d];
    } else {
      assert x[e] == a[d] && y[e] == b[d];
    }
  }

  /** All ids of one file are pairwise distinct. */
  lemma ChunkIdsDistinct(stem: string, chunks: seq<string>, hash: string -> int)
    ensures var ids := ChunkIds(stem, chunks, hash);
      forall i, j :: 0 <= i < j < |ids| ==> ids[i] != ids[j]
  {
    var ids := ChunkIds(stem, chunks, hash);
    forall i, j | 0 <= i < j < |ids|
      ensures ids[i] != ids[j]
    {
      DistinctChunkIds(stem, i, j, hash(chunks[i]), hash(chunks[j]));
    }
  }

  // ----- ingest_path -----

  /** What one `ingest_path` call meets outside the model. */
  datatype World = World(
    content: string,                // what reading the file gives: its text, or the text extracted from a PDF
    tokens: Chunking.Tokenization,  // the sentence tokenizer's answer for `content`
    service: Service,               // the embedding service
    hash: string -> int,            // Python's `hash` for strings in this process
    fault: Option<string>)          // the exception `collection.add` raises, if any

  /** How `ingest_path` ended: each early `return 0`, the caught store failure, or
      success. */
  datatype Stage = Skipped | NoText | NoChunks | NoEmbeddings | StoreFailed(error: StoreError) | Added

  /** The source has no bound on the fallback's steps; the model asks for one when the
      fallback can run. */
  predicate CanChunk(path: string, w: World, maxChars: int, overlap: int) {
    KindOf(path) != Unsupported && !Blank(w.content) && w.tokens.None? ==>
      Chunking.FallbackTerminates(w.content, maxChars, overlap)
  }

  function IngestChunks(path: string, w: World, maxChars: int, overlap: int): seq<string>
    requires CanChunk(path, w, maxChars, overlap)
    requires KindOf(path) != Unsupported && !Blank(w.content)
  {
    Chunking.Chunks(w.content, maxChars, overlap, w.tokens)
  }

  /** The stage `ingest_path` ends in. */
  function IngestStage(path: string, w: World, maxChars: int, overlap: int): Stage
    requires CanChunk(path, w, maxChars, overlap)
  {
    if KindOf(path) == Unsupported then Skipped
    else if Blank(w.content) then NoText
    else
      var chunks := IngestChunks(path, w, maxChars, overlap);
      if chunks == [] then NoChunks else EmbedStage(path, chunks, w)
  }

  /** The stage reached from a non-empty list of chunks: embedding, then storing. */
  function EmbedStage(path: string, chunks: seq<string>, w: World): Stage {
    var vectors := Retried(chunks, 3, w.service);
    if vectors.None? || vectors.value == [] then NoEmbeddings
    else
      match AddOutcome(ChunkIds(Stem(Name(path)), chunks, w.hash), chunks, ChunkMetadatas(path, |chunks|), vectors.value, w.fault)
      case Err(e) => StoreFailed(e)
      case Ok(_) => Added
  }

  /** The records stored from `chunks`. */
  function StoredRecords(path: string, chunks: seq<string>, w: World): seq<Record>
    requires EmbedStage(path, chunks, w) == Added
  {
    Records(ChunkIds(Stem(Name(path)), chunks, w.hash), chunks, ChunkMetadatas(path, |chunks|), Retried(chunks, 3, w.service).value)
  }

  /** The records added when the ingestion succeeds. */
  function IngestRecords(path: string, w: World, maxChars: int, overlap: int): seq<Record>
    requires CanChunk(path, w, maxChars, overlap)
    requires IngestStage(path, w, maxChars, overlap) == Added
  {
    StoredRecords(path, IngestChunks(path, w, maxChars, overlap), w)
  }

  /** `ingest_path(file_path, collection, max_chars, overlap)`: the number of chunks added,
      0 on every early exit and on a store failure, which then leaves the collection as
      it was. */
  method IngestPath(path: string, collection: Collection, maxChars: int, overlap: int, w: World)
    returns (count: nat, stage: Stage, attempts: nat)
    requires CanChunk(path, w, maxChars, overlap)
    modifies collection
    ensures stage == IngestStage(path, w, maxChars, overlap)
    ensures stage in {Skipped, NoText, NoChunks} ==> attempts == 0
    ensures stage !in {Skipped, NoText, NoChunks} ==>
      attempts == Attempts(IngestChunks(path, w, maxChars, overlap), 3, w.service)
    ensures stage == Added ==> count == |IngestChunks(path, w, maxChars, overlap)| > 0
    ensures stage != Added ==> count == 0
    ensures stage == Added ==> collection.records == old(collection.records) + IngestRecords(path, w, maxChars, overlap)
    ensures stage != Added ==> collection.records == old(collection.records)
  {
    if KindOf(path) == Unsupported {
      return 0, Skipped, 0;
    }
    var text := w.content;
    StripSpec(text);
    if Strip(text) == [] {
      return 0, NoText, 0;
    }
    var chunks := Chunking.SplitIntoChunks(text, maxChars, overlap, w.tokens);
    if chunks == [] {
      return 0, NoChunks, 0;
    }
    var embeddings, _, tries := EmbedWithRetry(chunks, 3, w.service);
    attempts := tries;
    if embeddings.None? || embeddings.value == [] {
      return 0, NoEmbeddings, attempts;
    }
    var ids, metadatas := ChunkKeys(path, chunks, w.hash);
    var added := AddTexts(collection, ids, chunks, metadatas, embeddings.value, w.fault);
    if added.Err? {
      return 0, StoreFailed(added.error), attempts;
    }
    return |chunks|, Added, attempts;
  }

  /** Chunks are stored exactly when one of the three embedding attempts succeeds and the
      store accepts the batch. */
  lemma EmbedStageAdded(path: string, chunks: seq<string>, w: World)
    requires chunks != []
    ensures EmbedStage(path, chunks, w) == Added <==>
      (exists a :: 0 <= a < 3 && AttemptSucceeds(chunks, w.service, a)) && w.fault.None?
  {
    RetriedFalsy(chunks, 3, w.service);
    var vectors := Retried(chunks, 3, w.service);
    if vectors.Some? && vectors.value != [] {
      var ids := ChunkIds(Stem(Name(path)), chunks, w.hash);
      assert Validate(ids, chunks, ChunkMetadatas(path, |chunks|), vectors.value) == None;
    }
  }

  /** A file is added exactly when it has a supported suffix and some non-blank text that
      gives chunks, one of the three embedding attempts succeeds, and the store accepts
      the batch. */
  lemma IngestAddedIff(path: string, w: World, maxChars: int, overlap: int)
    requires CanChunk(path, w, maxChars, overlap)
    ensures IngestStage(path, w, maxChars, overlap) == Added <==>
      && KindOf(path) != Unsupported
      && !Blank(w.content)
      && IngestChunks(path, w, maxChars, overlap) != []
      && (exists a :: 0 <= a < 3 && AttemptSucceeds(IngestChunks(path, w, maxChars, overlap), w.service, a))
      && w.fault.None?
  {
    if KindOf(path) != Unsupported && !Blank(w.content) {
      var chunks := IngestChunks(path, w, maxChars, overlap);
      if chunks != [] {
        EmbedStageAdded(path, chunks, w);
      }
    }
  }

  /** What storing `chunks` adds: one record per chunk, in order, with the chunk's id, text
      and metadata and the vector the successful attempt returned for it. */
  lemma StoredRecordsSpec(path: string, chunks: seq<string>, w: World)
    requires EmbedStage(path, chunks, w) == Added
    ensures var records := StoredRecords(path, chunks, w);
      var k := FirstSuccess(chunks, w.service, 3, 0);
      && k < 3
      && |records| == |chunks|
      && forall j :: 0 <= j < |chunks| ==>
        && records[j].id == ChunkId(Stem(Name(path)), j, w.hash(chunks[j]))
        && records[j].document == chunks[j]
        && records[j].metadata == ChunkMetadata(path, j, |chunks|)
        && Some(records[j].embedding) == Embeddings.Select(w.service(k)(j))
  {
    var k := AddedAttempt(path, chunks, w);
    AttemptRecords(path, chunks, w.hash, w.service(k), Retried(chunks, 3, w.service).value);
  }

  /** Storing succeeded with the vectors of the first successful attempt. */
  lemma AddedAttempt(path: string, chunks: seq<string>, w: World) returns (k: nat)
    requires EmbedStage(path, chunks, w) == Added
    ensures k == FirstSuccess(chunks, w.service, 3, 0) && k < 3
    ensures Embeddings.EmbedAll(chunks, w.service(k)).Ok?
    ensures Retried(chunks, 3, w.service) == Some(Embeddings.EmbedAll(chunks, w.service(k)).value)
  {
    k := FirstSuccess(chunks, w.service, 3, 0);
  }

  /** The records built from the chunks of a file and the vectors of one successful
      attempt. */
  lemma AttemptRecords(path: string, chunks: seq<string>, hash: string -> int, replies: nat -> Embeddings.Reply,
                       vs: seq<Embeddings.Vector>)
    requires Embeddings.EmbedAll(chunks, replies) == Ok(vs)
    ensures |vs| == |chunks|
    ensures var records := Records(ChunkIds(Stem(Name(path)), chunks, hash), chunks, ChunkMetadatas(path, |chunks|), vs);
      && |records| == |chunks|
      && forall j :: 0 <= j < |chunks| ==>
        && records[j].id == ChunkId(Stem(Name(path)), j, hash(chunks[j]))
        && records[j].document == chunks[j]
        && records[j].metadata == ChunkMetadata(path, j, |chunks|)
        && Some(records[j].embedding) == Embeddings.Select(replies(j))
  {
    assert Embeddings.EmbedFrom(chunks, replies, 0) == Ok(vs);
    Embeddings.SuccessVectors(chunks, replies, 0);
    RecordsOfChunks(path, chunks, hash, vs);
    var records := Records(ChunkIds(Stem(Name(path)), chunks, hash), chunks, ChunkMetadatas(path, |chunks|), vs);
    forall j | 0 <= j < |chunks|
      ensures Some(records[j].embedding) == Embeddings.Select(replies(j))
    {
      assert Embeddings.Select(replies(j)) == Some(vs[j - 0]);
      assert records[j].embedding == vs[j];
    }
  }

  /** The records built from the chunks of a file and their vectors. */
  lemma RecordsOfChunks(path: string, chunks: seq<string>, hash: string -> int, vs: seq<Embeddings.Vector>)
    requires |vs| == |chunks|
    ensures var records := Records(ChunkIds(Stem(Name(path)), chunks, hash), chunks, ChunkMetadatas(path, |chunks|), vs);
      && |records| == |chunks|
      && forall j :: 0 <= j < |chunks| ==>
        && records[j].id == ChunkId(Stem(Name(path)), j, hash(chunks[j]))
        && records[j].document == chunks[j]
        && records[j].metadata == ChunkMetadata(path, j, |chunks|)
        && records[j].embedding == vs[j]
  {
  }

  /** Text without sentence tokenization always gives chunks: such a file never stops
      at `NoChunks`. */
  lemma FallbackAlwaysChunks(path: string, w: World, maxChars: int, overlap: int)
    requires 0 <= overlap < maxChars && w.tokens.None?
    ensures IngestStage(path, w, maxChars, overlap) != NoChunks
  {
    if KindOf(path) != Unsupported && !Blank(w.content) {
      Chunking.FallbackNotEmpty(w.content, maxChars, overlap);
    }
  }

  // ----- retrieve_and_answer -----

  const NoInformation: string := "No relevant information found in the knowledge base."

  /** One `{"source": ..., "chunk": ..., "text": ...}` entry of the returned sources. */
  datatype SourceEntry = SourceEntry(source: MetaValue, chunk: MetaValue, text: string)

  /** `text[:200] + "..." if len(text) > 200 else text`. */
  function Preview(text: string): (p: string)
    ensures |text| <= 200 ==> p == text
    ensures |text| > 200 ==> p == text[..200] + "..." && |p| == 203
  {
    HeadSlice(text, 200);
    if |text| > 200 then PySlice(text, 0, 200) + "..." else text
  }

  /** `metadata.get(key, default)`. */
  function MetaGet(metadata: Metadata, key: string, default: MetaValue): MetaValue {
    if key in metadata then metadata[key] else default
  }

  function SourceOf(j: nat, context: (string, Metadata)): SourceEntry {
    SourceEntry(MetaGet(context.1, "source", MStr("Unknown")), MetaGet(context.1, "chunk", MInt(j + 1)), Preview(context.0))
  }

  /** The sources returned with an answer, passage `j` (from 0) numbered `j + 1`. */
  function SourceEntries(contexts: seq<(string, Metadata)>): (sources: seq<SourceEntry>)
    ensures |sources| == |contexts|
    ensures forall j :: 0 <= j < |contexts| ==> sources[j] == SourceOf(j, contexts[j])
  {
    seq(|contexts|, j requires 0 <= j < |contexts| => SourceOf(j, contexts[j]))
  }

  /** The `for i, (text, metadata) in enumerate(contexts, 1)` loop. */
  method CollectSources(contexts: seq<(string, Metadata)>) returns (sources: seq<SourceEntry>)
    ensures sources == SourceEntries(contexts)
  {
    sources := [];
    for i := 0 to |contexts|
      invariant |sources| == i && forall j :: 0 <= j < i ==> sources[j] == SourceOf(j, contexts[j])
    {
      var (text, metadata) := contexts[i];
      var source := if "source" in metadata then metadata["source"] else MStr("Unknown");
      var chunk := if "chunk" in metadata then metadata["chunk"] else MInt(i + 1);
      var preview := if |text| > 200 then PySlice(text, 0, 200) + "..." else text;
      sources := sources + [SourceEntry(source, chunk, preview)];
    }
  }

  /** The two messages sent to the chat model for `question` and its passages. */
  function Messages(question: string, contexts: seq<(string, Metadata)>): seq<Llm.Message> {
    Prompt.RenderMessages(Prompt.BuildSystemPrompt(), Join(Prompt.UserPromptParts(question, contexts), "\n"))
  }

  /** What `retrieve_and_answer` returns or raises: the fixed reply without sources when
      nothing is retrieved, otherwise the chat model's answer and the sources, or the
      chat error, which is not caught. */
  function AnswerOutcome(question: string, k: int, replies: nat -> Embeddings.Reply, engine: Engine,
                         server: seq<Llm.Message> -> Llm.Transport): Result<(string, seq<SourceEntry>), Llm.ChatError> {
    var contexts := Query(question, k, replies, engine);
    if contexts == [] then
      Ok((NoInformation, []))
    else
      match Llm.ChatResult(server(Messages(question, contexts)))
      case Err(e) => Err(e)
      case Ok(answer) => Ok((answer, SourceEntries(contexts)))
  }

  /** `retrieve_and_answer(question, collection, k)`. */
  method RetrieveAndAnswer(question: string, k: int, replies: nat -> Embeddings.Reply, engine: Engine,
                           server: seq<Llm.Message> -> Llm.Transport)
    returns (result: Result<(string, seq<SourceEntry>), Llm.ChatError>)
    ensures result == AnswerOutcome(question, k, replies, engine, server)
  {
    var contexts := Query(question, k, replies, engine);
    if contexts == [] {
      return Ok((NoInformation, []));
    }
    var system := Prompt.BuildSystemPrompt();
    var user := Prompt.BuildUserPrompt(question, contexts);
    var messages := Prompt.RenderMessages(system, user);
    var answer := Llm.Chat(messages, server);
    if answer.Err? {
      return Err(answer.error);
    }
    var sources := CollectSources(contexts);
    return Ok((answer.value, sources));
  }

  /** A blank question never reaches the chat model: the fixed reply comes back whatever
      the services would say. */
  lemma BlankQuestion(question: string, k: int, replies: nat -> Embeddings.Reply, engine: Engine,
                      server: seq<Llm.Message> -> Llm.Transport)
    requires Blank(question)
    ensures AnswerOutcome(question, k, replies, engine, server) == Ok((NoInformation, []))
  {
    BlankQuery(question, k, replies, engine);
  }

  /** With passages retrieved, the chat model is asked with the grounding instructions
      and the numbered passages, and a chat failure reaches the caller. */
  lemma AnswerFromPassages(question: string, k: int, replies: nat -> Embeddings.Reply, engine: Engine,
                           server: seq<Llm.Message> -> Llm.Transport)
    requires Query(question, k, replies, engine) != []
    ensures var contexts := Query(question, k, replies, engine);
      var ms := Messages(question, contexts);
      && ms[0] == Llm.Message("system", Prompt.BuildSystemPrompt())
      && ms[1].role == "user"
      && (AnswerOutcome(question, k, replies, engine, server).Ok? <==> Llm.ChatResult(server(ms)).Ok?)
      && (AnswerOutcome(question, k, replies, engine, server).Ok? ==>
            AnswerOutcome(question, k, replies, engine, server).value.0 == Llm.ChatResult(server(ms)).value
            && |AnswerOutcome(question, k, replies, engine, server).value.1| == |contexts|)
      && (server(ms).Unavailable? ==>
            AnswerOutcome(question, k, replies, engine, server) == Err(Llm.RequestFailed(server(ms).reason)))
  {
  }

  /** The sources of passages that ingestion stored name the file and chunk number it
      stored, and a passage without them is numbered by its rank, from `Unknown`. */
  lemma SourcesOfIngestedChunks(j: nat, text: string, path: string, i: nat, total: nat)
    ensures SourceOf(j, (text, ChunkMetadata(path, i, total))) == SourceEntry(MStr(Name(path)), MInt(i + 1), Preview(text))
    ensures SourceOf(j, (text, map[])) == SourceEntry(MStr("Unknown"), MInt(j + 1), Preview(text))
  {
    var m := ChunkMetadata(path, i, total);
    assert "source" in m && m["source"] == MStr(Name(path));
    assert "chunk" in m && m["chunk"] == MInt(i + 1);
  }

  /** A preview is at most 203 characters and starts with the text's first 200. */
  lemma PreviewBounded(text: string)
    ensures |Preview(text)| <= 203
    ensures var n := if |text| < 200 then |text| else 200; Preview(text)[..n] == text[..n]
  {
  }
}
