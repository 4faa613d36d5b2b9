/** The vector store adapter (src/store.py): validated insertion into a collection and
    a similarity query whose failures are swallowed. The collection is a sequence of
    records; its ranking engine is an input. */
module Store {
  import opened Wrappers
  import opened PyStr
  import Embeddings

  /** A metadata value as the pipeline writes it: a string or an integer. */
  datatype MetaValue = MStr(s: string) | MInt(i: int)

  type Metadata = map<string, MetaValue>

  /** One stored entry: what `collection.add` receives at one index. */
  datatype Record = Record(id: string, document: string, metadata: Metadata, embedding: Embeddings.Vector)

  /** The errors of `add_texts`: the two validation `ValueError`s, and an exception
      from the engine's `add`. */
  datatype StoreError =
    | ShapeMismatch
    | NothingToAdd
    | EngineFailed(reason: string)

  function ErrorMessage(e: StoreError): string {
    match e
    case ShapeMismatch => "All input arrays must have the same length"
    case NothingToAdd => "No documents to add"
    case EngineFailed(reason) => reason
  }

  predicate SameLength(ids: seq<string>, documents: seq<string>, metadatas: seq<Metadata>,
                       embeddings: seq<Embeddings.Vector>) {
    |documents| == |ids| && |metadatas| == |ids| && |embeddings| == |ids|
  }

  /** The checks of `add_texts`, in order: the lengths first, then emptiness. */
  function Validate(ids: seq<string>, documents: seq<string>, metadatas: seq<Metadata>,
                    embeddings: seq<Embeddings.Vector>): (r: Option<StoreError>)
    ensures r == Some(ShapeMismatch) <==> !SameLength(ids, documents, metadatas, embeddings)
    ensures r == Some(NothingToAdd) <==> SameLength(ids, documents, metadatas, embeddings) && ids == []
    ensures r == None <==> SameLength(ids, documents, metadatas, embeddings) && ids != []
  {
    if !SameLength(ids, documents, metadatas, embeddings) then Some(ShapeMismatch)
    else if ids == [] then Some(NothingToAdd)
    else None
  }

  /** The records `collection.add` receives: the four sequences read index by index. */
  function Records(ids: seq<string>, documents: seq<string>, metadatas: seq<Metadata>,
                   embeddings: seq<Embeddings.Vector>): (rs: seq<Record>)
    requires SameLength(ids, documents, metadatas, embeddings)
    ensures |rs| == |ids|
    ensures forall j :: 0 <= j < |ids| ==> rs[j] == Record(ids[j], documents[j], metadatas[j], embeddings[j])
  {
    seq(|ids|, j requires 0 <= j < |ids| => Record(ids[j], documents[j], metadatas[j], embeddings[j]))
  }

  /** A collection: the records added to it, in order. */
  class Collection {
    var records: seq<Record>

    constructor ()
      ensures records == []
    {
      records := [];
    }

    /** `collection.add(...)`: the engine stores the batch, or raises with `fault`. */
    method Add(batch: seq<Record>, fault: Option<string>) returns (r: Result<(), string>)
      modifies this
      ensures fault.None? ==> r == Ok(()) && records == old(records) + batch
      ensures fault.Some? ==> r == Err(fault.value) && records == old(records)
    {
      if fault.Some? {
        return Err(fault.value);
      }
      records := records + batch;
      return Ok(());
    }
  }

  /** `add_texts(collection, ids, documents, metadatas, embeddings)`: validation, then
      a single `add` with the sequences unchanged. */
  method AddTexts(collection: Collection, ids: seq<string>, documents: seq<string>, metadatas: seq<Metadata>,
                  embeddings: seq<Embeddings.Vector>, fault: Option<string>) returns (r: Result<(), StoreError>)
    modifies collection
    ensures r == AddOutcome(ids, documents, metadatas, embeddings, fault)
    ensures r.Ok? ==> collection.records == old(collection.records) + Records(ids, documents, metadatas, embeddings)
    ensures r.Err? ==> collection.records == old(collection.records)
  {
    var invalid := Validate(ids, documents, metadatas, embeddings);
    if invalid.Some? {
      return Err(invalid.value);
    }
    var added := collection.Add(Records(ids, documents, metadatas, embeddings), fault);
    if added.Err? {
      return Err(EngineFailed(added.error));
    }
    return Ok(());
  }

  /** What `add_texts` returns or raises. */
  function AddOutcome(ids: seq<string>, documents: seq<string>, metadatas: seq<Metadata>,
                      embeddings: seq<Embeddings.Vector>, fault: Option<string>): Result<(), StoreError> {
    match Validate(ids, documents, metadatas, embeddings)
    case Some(e) => Err(e)
    case None =>
      match fault
      case Some(reason) => Err(EngineFailed(reason))
      case None => Ok(())
  }

  /** A length mismatch is reported even when `ids` is empty: the length check
      comes first. */
  lemma MismatchBeforeEmpty(documents: seq<string>, fault: Option<string>)
    requires documents != []
    ensures AddOutcome([], documents, [], [], fault) == Err(ShapeMismatch)
    ensures ErrorMessage(AddOutcome([], documents, [], [], fault).error) == "All input arrays must have the same length"
  {
  }

  /** An empty batch of matching lengths is refused before the engine is asked. */
  lemma EmptyBatchRefused(fault: Option<string>)
    ensures AddOutcome([], [], [], [], fault) == Err(NothingToAdd)
    ensures ErrorMessage(AddOutcome([], [], [], [], fault).error) == "No documents to add"
  {
  }

  /** `max(1, min(20, k))`: the number of results asked of the engine. */
  function EffectiveK(k: int): (r: int)
    ensures 1 <= r <= 20
    ensures 1 <= k <= 20 ==> r == k
    ensures k < 1 ==> r == 1
    ensures k > 20 ==> r == 20
  {
    var upper := if k < 20 then k else 20;
    if upper > 1 then upper else 1
  }

  /** What `collection.query(query_embeddings=[v], n_results=n)` gives: an exception, or
      the per-query lists of documents and metadatas (`None` for a missing or null key). */
  datatype QueryReply =
    | QueryFailed(reason: string)
    | Results(documents: Option<seq<seq<string>>>, metadatas: Option<seq<seq<Metadata>>>)

  /** `results[key][0] if results[key] else []`. */
  function FirstList<T>(lists: Option<seq<seq<T>>>): (r: seq<T>)
    ensures lists.None? || lists.value == [] ==> r == []
    ensures lists.Some? && lists.value != [] ==> r == lists.value[0]
  {
    match lists
    case None => []
    case Some(ls) => if ls == [] then [] else ls[0]
  }

  /** `list(zip(a, b))`. */
  function Zip<A, B>(a: seq<A>, b: seq<B>): (r: seq<(A, B)>)
    ensures |r| == if |a| < |b| then |a| else |b|
    ensures forall j :: 0 <= j < |r| ==> r[j] == (a[j], b[j])
  {
    var n := if |a| < |b| then |a| else |b|;
    seq(n, j requires 0 <= j < n => (a[j], b[j]))
  }

  /** The ranking engine of the collection: the reply to a query vector and a result
      count. */
  type Engine = (Embeddings.Vector, int) -> QueryReply

  /** `query(collection, query_text, k)`. The query text is embedded with `embed_texts`,
      its request answered by `replies(0)`; any exception on the way gives `[]`. */
  function Query(queryText: string, k: int, replies: nat -> Embeddings.Reply, engine: Engine): seq<(string, Metadata)> {
    if Strip(queryText) == [] then
      []
    else
      match Embeddings.EmbedAll([queryText], replies)
      case Err(_) => []
      case Ok(vectors) =>
        if vectors == [] then []  // `[0]` on an empty list: the IndexError is swallowed too
        else
          match engine(vectors[0], EffectiveK(k))
          case QueryFailed(_) => []
          case Results(documents, metadatas) => Zip(FirstList(documents), FirstList(metadatas))
  }

  /** A blank query returns `[]` whatever the embedding service and the engine would do:
      nothing is embedded and nothing is asked of the collection. */
  lemma BlankQuery(queryText: string, k: int, replies: nat -> Embeddings.Reply, engine: Engine)
    requires Blank(queryText)
    ensures Query(queryText, k, replies, engine) == []
  {
    StripSpec(queryText);
  }

  /** A reply to the embedding request that yields no vector gives `[]` instead of an
      exception (a failed engine query does too: see `QueryPairs`). */
  lemma FailuresSwallowed(queryText: string, k: int, replies: nat -> Embeddings.Reply, engine: Engine)
    requires Embeddings.Select(replies(0)).None?
    ensures Query(queryText, k, replies, engine) == []
  {
    Embeddings.AllOrNothing([queryText], replies, 0);
  }

  /** The result pairs the first query's documents and metadatas index by index, as
      many as the shorter list; the engine is asked for `EffectiveK(k)` results for the
      vector the single embedding request gave. */
  lemma QueryPairs(queryText: string, k: int, replies: nat -> Embeddings.Reply, engine: Engine)
    requires !Blank(queryText)
    requires Embeddings.Select(replies(0)).Some?
    ensures var v := Embeddings.Select(replies(0)).value;
      var r := Query(queryText, k, replies, engine);
      match engine(v, EffectiveK(k))
      case QueryFailed(_) => r == []
      case Results(documents, metadatas) =>
        var ds, ms := FirstList(documents), FirstList(metadatas);
        && |r| == (if |ds| < |ms| then |ds| else |ms|)
        && forall j :: 0 <= j < |r| ==> r[j] == (ds[j], ms[j])
  {
    StripSpec(queryText);
    Embeddings.AllOrNothing([queryText], replies, 0);
    Embeddings.SuccessVectors([queryText], replies, 0);
  }

  /** The engine returns at most `n` documents for the query when asked for `n`. */
  ghost predicate HonoursLimit(engine: Engine) {
    forall v, n :: (engine(v, n).Results? && engine(v, n).documents.Some? && engine(v, n).documents.value != []
      ==> |engine(v, n).documents.value[0]| <= n)
  }

  lemma LimitAt(engine: Engine, v: Embeddings.Vector, n: int)
    requires HonoursLimit(engine) && 0 <= n
    ensures engine(v, n).Results? ==> |FirstList(engine(v, n).documents)| <= n
  {
  }

  /** With an engine that honours `n_results`, the result has at most `EffectiveK(k)`
      entries, never more than 20. */
  lemma QueryBounded(queryText: string, k: int, replies: nat -> Embeddings.Reply, engine: Engine)
    requires HonoursLimit(engine)
    ensures |Query(queryText, k, replies, engine)| <= EffectiveK(k) <= 20
  {
    var embedded := Embeddings.EmbedAll([queryText], replies);
    if Strip(queryText) != [] && embedded.Ok? && embedded.value != [] {
      LimitAt(engine, embedded.value[0], EffectiveK(k));
    }
  }
}
