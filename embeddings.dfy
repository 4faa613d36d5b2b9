/** Embedding generation (src/embeddings.py): one request per text to the embedding
    service, in order, each reply reduced to one vector; the first failure aborts the
    whole call. The service is an input: the reply it gives to the `j`-th request. */
module Embeddings {
  import opened Wrappers
  import opened PyStr

  /** One component of an embedding vector. Vectors are opaque here: nothing is computed
      with their components. */
  type Coord(==, !new)

  type Vector = seq<Coord>

  /** What the service does with one request. `Answered` is a decoded JSON object; a
      field is `None` when it is missing or `null`. */
  datatype Reply =
    | RequestFailed(reason: string)
    | Answered(embedding: Option<Vector>, embeddings: Option<Vector>)

  /** The two ways `embed_texts` fails, both re-raised as `RuntimeError`. */
  datatype EmbedError =
    | ServiceFailed(reason: string)
    | InvalidResponse(detail: string)

  /** The text of the `RuntimeError` raised for `e`. */
  function ErrorMessage(e: EmbedError): string {
    match e
    case ServiceFailed(reason) => "Failed to generate embeddings: " + reason
    case InvalidResponse(detail) => "Invalid embedding response: " + detail
  }

  /** A JSON list used as a condition: present and non-empty. */
  predicate Truthy(field: Option<Vector>) {
    field.Some? && field.value != []
  }

  /** The vector a reply yields: the `embedding` field when it is present and non-empty,
      otherwise the `embeddings` field when it is present and non-empty. */
  function Select(reply: Reply): (v: Option<Vector>)
    ensures v.Some? <==> reply.Answered? && (Truthy(reply.embedding) || Truthy(reply.embeddings))
    ensures v.Some? ==> v.value != []
    ensures reply.Answered? && Truthy(reply.embedding) ==> v == reply.embedding
    ensures reply.Answered? && !Truthy(reply.embedding) && Truthy(reply.embeddings) ==> v == reply.embeddings
  {
    match reply
    case RequestFailed(_) => None
    case Answered(embedding, embeddings) =>
      if Truthy(embedding) then embedding
      else if Truthy(embeddings) then embeddings
      else None
  }

  /** `f"No embedding returned for text: {text[:50]}..."`. */
  function NoEmbeddingDetail(text: string): string {
    "No embedding returned for text: " + PySlice(text, 0, 50) + "..."
  }

  /** What the reply to the request for `text` contributes: its vector, or the error
      that aborts the call. */
  function Outcome(text: string, reply: Reply): Result<Vector, EmbedError> {
    match reply
    case RequestFailed(reason) => Err(ServiceFailed(reason))
    case Answered(_, _) =>
      match Select(reply)
      case Some(v) => Ok(v)
      case None => Err(InvalidResponse(NoEmbeddingDetail(text)))
  }

  /** The result of the requests for `texts[i..]`, the `j`-th request answered by
      `replies(j)`. */
  function EmbedFrom(texts: seq<string>, replies: nat -> Reply, i: nat): Result<seq<Vector>, EmbedError>
    requires i <= |texts|
    decreases |texts| - i
  {
    if i == |texts| then
      Ok([])
    else
      match Outcome(texts[i], replies(i))
      case Err(e) => Err(e)
      case Ok(v) =>
        match EmbedFrom(texts, replies, i + 1)
        case Err(e) => Err(e)
        case Ok(vs) => Ok([v] + vs)
  }

  /** What `embed_texts(texts)` returns or raises. */
  function EmbedAll(texts: seq<string>, replies: nat -> Reply): Result<seq<Vector>, EmbedError> {
    EmbedFrom(texts, replies, 0)
  }

  /** The index of the first request whose reply fails, `|texts|` when none does. */
  function FirstFailure(texts: seq<string>, replies: nat -> Reply, i: nat): (k: nat)
    requires i <= |texts|
    ensures i <= k <= |texts|
    ensures forall j :: i <= j < k ==> Outcome(texts[j], replies(j)).Ok?
    ensures k < |texts| ==> Outcome(texts[k], replies(k)).Err?
    decreases |texts| - i
  {
    if i == |texts| || Outcome(texts[i], replies(i)).Err? then i else FirstFailure(texts, replies, i + 1)
  }

  /** The prompts posted, in order: every text up to and including the first one whose
      request fails. */
  function Requests(texts: seq<string>, replies: nat -> Reply): seq<string> {
    var k := FirstFailure(texts, replies, 0);
    if k < |texts| then texts[..k + 1] else texts
  }

  /** `embed_texts`: the `for text in texts` loop. `sent` records the prompt of each
      request made. */
  method EmbedTexts(texts: seq<string>, replies: nat -> Reply)
    returns (result: Result<seq<Vector>, EmbedError>, sent: seq<string>)
    ensures result == EmbedAll(texts, replies)
    ensures sent == Requests(texts, replies)
  {
    sent := [];
    if texts == [] {
      return Ok([]), sent;
    }
    var vectors: seq<Vector> := [];
    PrependNothing(EmbedFrom(texts, replies, 0));
    for i := 0 to |texts|
      invariant sent == texts[..i]
      invariant FirstFailure(texts, replies, 0) == FirstFailure(texts, replies, i)
      invariant EmbedAll(texts, replies) == Prepend(vectors, EmbedFrom(texts, replies, i))
    {
      var text := texts[i];
      sent := sent + [text];
      var reply := replies(i);
      match reply
      case RequestFailed(reason) =>
        EmbedFailsAt(texts, replies, i);
        assert sent == texts[..i + 1];
        return Err(ServiceFailed(reason)), sent;
      case Answered(embedding, embeddings) =>
        if Truthy(embedding) {
          vectors := vectors + [embedding.value];
        } else if Truthy(embeddings) {
          vectors := vectors + [embeddings.value];
        } else {
          EmbedFailsAt(texts, replies, i);
          assert sent == texts[..i + 1];
          return Err(InvalidResponse(NoEmbeddingDetail(text))), sent;
        }
      PrependStep(vectors[..|vectors| - 1], vectors[|vectors| - 1], EmbedFrom(texts, replies, i + 1));
    }
    assert sent == texts;
    assert vectors + [] == vectors;
    result := Ok(vectors);
  }

  /** The vectors gathered so far in front of the result of the remaining requests. */
  function Prepend(done: seq<Vector>, rest: Result<seq<Vector>, EmbedError>): Result<seq<Vector>, EmbedError> {
    match rest
    case Err(e) => Err(e)
    case Ok(vs) => Ok(done + vs)
  }

  lemma PrependNothing(rest: Result<seq<Vector>, EmbedError>)
    ensures Prepend([], rest) == rest
  {
    if rest.Ok? {
      assert [] + rest.value == rest.value;
    }
  }

  lemma PrependStep(done: seq<Vector>, v: Vector, rest: Result<seq<Vector>, EmbedError>)
    ensures Prepend(done, match rest case Err(e) => Err(e) case Ok(vs) => Ok([v] + vs)) == Prepend(done + [v], rest)
  {
    if rest.Ok? {
      assert done + ([v] + rest.value) == (done + [v]) + rest.value;
    }
  }

  /** When request `i` fails, so do the requests from `i` on, with its error. */
  lemma EmbedFailsAt(texts: seq<string>, replies: nat -> Reply, i: nat)
    requires i < |texts| && Outcome(texts[i], replies(i)).Err?
    ensures EmbedFrom(texts, replies, i) == Err(Outcome(texts[i], replies(i)).error)
    ensures FirstFailure(texts, replies, i) == i
  {
  }

  /** No texts, no request and no vector. */
  lemma EmptyInput(replies: nat -> Reply)
    ensures EmbedAll([], replies) == Ok([])
    ensures Requests([], replies) == []
  {
  }

  /** On success there is one vector per text, in order: vector `j` is what the reply to
      request `j` selects. */
  lemma {:induction false} SuccessVectors(texts: seq<string>, replies: nat -> Reply, i: nat)
    requires i <= |texts| && EmbedFrom(texts, replies, i).Ok?
    ensures var vs := EmbedFrom(texts, replies, i).value;
      && |vs| == |texts| - i
      && forall j :: i <= j < |texts| ==> Select(replies(j)) == Some(vs[j - i])
    decreases |texts| - i
  {
    if i < |texts| {
      SuccessVectors(texts, replies, i + 1);
    }
  }

  /** All or nothing: the call succeeds exactly when every reply yields a vector, and
      otherwise fails with the error of the first reply that does not. */
  lemma {:induction false} AllOrNothing(texts: seq<string>, replies: nat -> Reply, i: nat)
    requires i <= |texts|
    ensures EmbedFrom(texts, replies, i).Ok? <==> forall j :: i <= j < |texts| ==> Select(replies(j)).Some?
    ensures var k := FirstFailure(texts, replies, i);
      k < |texts| ==> EmbedFrom(texts, replies, i) == Err(Outcome(texts[k], replies(k)).error)
    decreases |texts| - i
  {
    if i < |texts| {
      AllOrNothing(texts, replies, i + 1);
    }
  }

  /** A successful call makes one request per text, in input order; a failed call stops
      right after the failing request, whose error it raises. */
  lemma RequestsMade(texts: seq<string>, replies: nat -> Reply)
    ensures EmbedAll(texts, replies).Ok? ==> Requests(texts, replies) == texts
    ensures EmbedAll(texts, replies).Err? ==>
      var sent := Requests(texts, replies);
      sent != [] && sent == texts[..|sent|] &&
      Outcome(sent[|sent| - 1], replies(|sent| - 1)).Err? &&
      EmbedAll(texts, replies).error == Outcome(sent[|sent| - 1], replies(|sent| - 1)).error
  {
    AllOrNothing(texts, replies, 0);
  }

  /** A missing vector names the first 50 characters of the text in the error, and a
      failed request passes its reason on. */
  lemma MissingVectorMessage(text: string, e: Option<Vector>, es: Option<Vector>, reason: string)
    requires !Truthy(e) && !Truthy(es)
    ensures Outcome(text, Answered(e, es)) == Err(InvalidResponse(NoEmbeddingDetail(text)))
    ensures NoEmbeddingDetail(text) == "No embedding returned for text: " + text[..Min50(text)] + "..."
    ensures ErrorMessage(Outcome(text, Answered(e, es)).error) == "Invalid embedding response: " + NoEmbeddingDetail(text)
    ensures ErrorMessage(Outcome(text, RequestFailed(reason)).error) == "Failed to generate embeddings: " + reason
  {
    HeadSlice(text, 50);
    assert PySlice(text, 0, 50) == text[..Min50(text)];
  }

  function Min50(text: string): nat {
    if |text| < 50 then |text| else 50
  }
}
