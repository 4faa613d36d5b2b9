# A verified model of a local retrieval-augmented answering pipeline

The system ingests PDF, text and Markdown files into a vector store and answers
questions from the passages it retrieves for them, citing those passages. It has two
halves.

- **Ingestion.** A file is read by its suffix and split into chunks: sentences are
  packed into buffers with a character overlap, or a sliding window is used when the
  sentence tokenizer is unavailable. A file's chunks are embedded as one batch with up
  to three attempts, pausing 1 and then 2 seconds between them. Each chunk is stored
  with an id built from the file stem, the chunk's position and its hash, and with
  metadata naming the file and the chunk number.
- **Answering.** The question is embedded and the store is asked for the nearest
  chunks. With none, a fixed reply comes back. Otherwise a grounding system prompt
  and a user prompt that numbers the passages are sent to a chat model. The model's
  streamed reply is assembled from newline-delimited JSON fragments, and the answer
  is returned with a list of sources.

One Dafny module per source file:

| module | models |
|---|---|
| `Wrappers` | `Option` and `Result` |
| `PyStr` | the Python string operations the code relies on: `isspace`, `strip`, slicing with negative bounds, ASCII `lower`, `str(int)`, `:03d` padding, `join` |
| `Config` | `src/config.py`, with the environment as a map |
| `Chunking` | `src/chunking.py`: the sentence packer and the sliding-window fallback, both as loops proved against recursive specifications |
| `Embeddings` | `src/embeddings.py`: one request per text, field preference, all-or-nothing failure |
| `Llm` | the stream-assembly loop of `chat` in `src/llm.py` and its error mapping |
| `Store` | `src/store.py`: a `Collection` class whose `add` appends records, validated `add_texts`, and `query` |
| `Prompt` | `src/prompt.py` |
| `Paths` | the parts of `pathlib` that `ingest_path` reads: `name`, `suffix`, `stem` |
| `Rag` | `src/rag.py`: `ingest_path`, `_embed_with_retry`, `retrieve_and_answer` |

The outside world is a parameter. Parameters stand for:

- the file's text;
- the tokenizer's sentences, or `None` when it raises `LookupError`;
- the embedding service's reply to each request of each attempt;
- the store's reply to a query;
- what the chat server does with a request;
- Python's `hash`;
- the exception `collection.add` raises, if any.

`time.sleep` is recorded as the list of its arguments. Each operation that the source
writes as a loop is a Dafny method with that loop. Its `ensures` equates the result
with a specification function, and the lemmas state the source's promises about
that function.

The fallback test in `tests/test_chunking.py` (lines 25-32) expects at least nine
chunks of at most 100 characters for `"A" * 1000`. That holds on the fallback path
(`Chunking.ThousandLettersFallback`). When the sentence tokenizer is available, the text is one
sentence and comes back as a single chunk of 1000 characters
(`Chunking.ThousandLettersOneSentence`).

## Model

| member | source | states |
|---|---|---|
| `Config.ClampTopK` | src/config.py:19-20 | the retrieval depth is always within 1..10; a value already in range is kept, anything below 1 becomes 1 and anything above 10 becomes 10 |
| `Config.Load` | src/config.py:9-24 | whatever the environment, `TOP_K` is within 1..10; an in-range `TOP_K` is taken as given; an unset `TOP_K`, `MAX_CHARS`, `OVERLAP` or `OLLAMA_URL` takes its default |
| `Config.EmptyEnvironmentDefaults` | tests/test_config.py:8-19 | with nothing set the settings are the URL `http://127.0.0.1:11434`, `nomic-embed-text`, `qwen2.5`, `vectorstore`, 5, 1100 and 200 |
| `Config.TopKOutOfRange` | tests/test_config.py:21-40 | `TOP_K=15` gives 10 and `TOP_K=0` gives 1 |
| `Config.SafeSummary` | src/config.py:26-35 | the summary has exactly the keys `embed_model`, `chat_model`, `top_k`, `max_chars`, `overlap`, `persist_dir`, carrying those settings, and no URL key |
| `PyStr.StripSpec` | src/chunking.py:27-28 | `strip()` leaves no whitespace at either end, is empty exactly when the string is all whitespace, and is a piece of the string |
| `PyStr.NegativeTailSlice` | src/chunking.py:45 | `s[-n:]` for `n > 0` is the last `n` characters, or the whole string when it is shorter |
| `PyStr.HeadSlice` | src/rag.py:127 | `s[:n]` is the first `n` characters, or the whole string when it is shorter |
| `PyStr.NatToStringSpec` | src/prompt.py:28 | the decimal rendering of a natural number is a non-empty run of digits denoting it, with no leading zero unless it is 0 |
| `PyStr.ZeroPadSpec` | src/rag.py:72 | `{i:03d}` is a run of digits denoting `i`, with at least 3 characters and no more than needed |
| `PyStr.ZeroPadInjective` | src/rag.py:72 | different indices give different padded strings |
| `PyStr.JoinAppend` | src/prompt.py:32 | joining two non-empty lists one after the other puts one separator between the two joined halves |
| `Chunking.SplitIntoChunks` | src/chunking.py:15-64 | the result is the sentence packing of the tokenizer's sentences, or the fallback windows when the tokenizer is unavailable; blank text gives `[]` whatever `max_chars` and `overlap` are; every chunk equals its own strip |
| `Chunking.PackSentences` | src/chunking.py:36-57 | the sentence loop and the final flush compute `Pack` from an empty buffer |
| `Chunking.FallbackChunk` | src/chunking.py:66-84 | the `while` loop, with its `break`, returns the stripped non-blank windows taken from 0 by `Next` |
| `Chunking.Next` | src/chunking.py:79 | the next window start is strictly later, and it is at most the end of the text or the current window stops short of the end |
| `Chunking.BlankTextNoChunks` | src/chunking.py:27-28 | `"   "` gives `[]` for any `max_chars`, `overlap` and tokenizer outcome, including `max_chars` 2 and `overlap` 5, with which the fallback loop would never end |
| `Chunking.ChunksStripped` | src/chunking.py:41-76 | on either path every chunk has no whitespace at its ends |
| `Chunking.BufferAfterClose` | src/chunking.py:40-47 | a close emits the stripped buffer as a chunk and packing goes on from the next buffer; that buffer is the last `min(overlap, len)` characters of the unstripped buffer, a space and the sentence, or the sentence alone when `overlap <= 0` |
| `Chunking.BufferWithoutClose` | src/chunking.py:48-53 | without a close no chunk is emitted and packing goes on with the sentence appended, after a space when the buffer is not empty, and a non-empty buffer and the sentence then fit in `max_chars` together |
| `Chunking.SingleSentence` | src/chunking.py:38-57 | a single non-blank sentence of any length becomes exactly one chunk, its strip, with no truncation; a stripped sentence comes back unchanged |
| `Chunking.ThousandLettersOneSentence` | tests/test_chunking.py:25-32 | on the sentence path `"A" * 1000` is one chunk longer than `max_chars = 100` |
| `Chunking.SentenceChunksBounded` | src/chunking.py:38-57 | a sentence-path chunk has at most `max(max_chars + 1, max(overlap, 0) + 1 + longest)` characters, where `longest` bounds the sentence lengths |
| `Chunking.SentencesKept` | src/chunking.py:38-57 | each non-empty stripped sentence occurs in some chunk |
| `Chunking.PackNonEmpty` | src/chunking.py:38-57 | with non-blank sentences no chunk is empty |
| `Chunking.FallbackChunksBounded` | src/chunking.py:72-76 | with `0 <= overlap < max_chars` every fallback chunk is non-empty, at most `max_chars` long and stripped |
| `Chunking.FallbackWindows` | src/chunking.py:71-82 | window `i` starts at `WindowStart(i)` and holds the next `max_chars` characters, or fewer at the end; there are windows exactly when the text is non-empty; the last window reaches the end of the text |
| `Chunking.WindowStartProduct` | src/chunking.py:79 | window `i` starts `i * (max_chars - overlap)` characters in |
| `Chunking.ConsecutiveWindowsOverlap` | src/chunking.py:72-79 | consecutive raw windows share `overlap` characters, and every window but the last is a full `max_chars` long |
| `Chunking.FallbackNotEmpty` | src/chunking.py:71-76 | text with a non-space character yields at least one fallback chunk |
| `Chunking.NoSpaceOneChunkPerWindow` | src/chunking.py:71-76 | text without whitespace yields one chunk per window |
| `Chunking.ThousandCharsFallback` | tests/test_chunking.py:25-32 | any 1000 non-space characters, in windows of 100 advancing by 90, give at least nine chunks of at most 100 characters |
| `Chunking.ThousandLettersFallback` | tests/test_chunking.py:25-32 | the test's `"A" * 1000` meets the test's expectations on the fallback path |
| `Embeddings.Select` | src/embeddings.py:38-43 | a reply yields a vector exactly when it was answered with a non-empty `embedding` or `embeddings`; `embedding` is preferred |
| `Embeddings.FirstFailure` | src/embeddings.py:24-43 | the index of the first request whose reply fails: every earlier one succeeds |
| `Embeddings.EmbedTexts` | src/embeddings.py:6-50 | the loop returns `EmbedAll` and posts exactly `Requests`: every text up to and including the first failing one |
| `Embeddings.EmptyInput` | src/embeddings.py:16-17 | no texts: `[]` and no request |
| `Embeddings.SuccessVectors` | src/embeddings.py:24-45 | on success there is one vector per text, and vector `j` is what the reply to request `j` selects |
| `Embeddings.AllOrNothing` | src/embeddings.py:22-50 | the call succeeds exactly when every reply yields a vector, and otherwise fails with the first failing reply's error |
| `Embeddings.RequestsMade` | src/embeddings.py:24-33 | a successful call posts every text once, in order; a failed call stops right after the failing request and raises its error |
| `Embeddings.MissingVectorMessage` | src/embeddings.py:42-50 | a reply without a vector gives the invalid-response error naming the first 50 characters of the text, whose message is `Invalid embedding response: No embedding returned for text: ` + those characters + `...`; a failed request's message is `Failed to generate embeddings: ` + the reason |
| `Llm.Texts` | src/llm.py:49 | the parts can be joined exactly when each is a string, and then give those strings in order |
| `Llm.Chat` | src/llm.py:6-54 | the loop over the streamed lines, with its `continue`s and `break`, returns `ChatResult` of what the server did |
| `Llm.SkippedLine` | src/llm.py:37-47 | an empty line, a line that is not JSON, or JSON without a `message` can be dropped anywhere without changing the outcome, so such a line's `done` is ignored; so can a fragment with no content that is not done |
| `Llm.StopsAtDone` | src/llm.py:41-44 | nothing after the first fragment marked done is read |
| `Llm.DoneFragmentKept` | src/llm.py:41-44 | a done fragment's own content is kept and whatever follows it is not read; with `Llm.FoldAppend` this extends to a done fragment after any fragments, as `Llm.DoneAfterFragments` states |
| `Llm.FragmentsConcatenated` | src/llm.py:35-49 | a stream of content fragments gives the in-order concatenation of their texts; `Llm.SkippedLine` lets content-free, non-JSON and message-less lines sit anywhere among them, and `Llm.DoneAfterFragments` covers a stream that ends with a done fragment |
| `Llm.FoldAppend` | src/llm.py:35-47 | once a prefix of the stream has been read to its end without a done fragment or an error, the rest of the stream is folded on its own and its parts follow the prefix's parts |
| `Llm.DoneAfterFragments` | src/llm.py:35-49 | text fragments followed by a done fragment with content give the texts and then that content, in order, whatever lines follow and whether or not the connection later breaks |
| `Llm.NoContentEmptyAnswer` | src/llm.py:35-49 | a stream that contributes no content and raises nothing gives `""` |
| `Llm.Failures` | src/llm.py:22-54 | a request failure before or during the stream is the request error, whose message is `Failed to get chat response: ` + the reason; an undecodable line is the processing error, whose message starts `Error processing chat response: ` |
| `Store.Validate` | src/store.py:27-31 | the length check comes first and the emptiness check second, each exactly when its condition holds |
| `Store.Records` | src/store.py:33-38 | the batch pairs `ids[j]`, `documents[j]`, `metadatas[j]` and `embeddings[j]` index by index |
| `Store.Collection.Add` | src/store.py:33-38 | the engine appends the whole batch, or raises and keeps the records |
| `Store.AddTexts` | src/store.py:18-38 | the outcome is `AddOutcome`; on success the records of the four sequences are appended once, and on any error the collection is unchanged |
| `Store.MismatchBeforeEmpty` | src/store.py:27-31 | a length mismatch is reported even when `ids` is empty, with the message `All input arrays must have the same length` |
| `Store.EmptyBatchRefused` | src/store.py:27-31 | four empty sequences are refused with the message `No documents to add` |
| `Store.EffectiveK` | src/store.py:56 | the number of results asked for is within 1..20 and is `k` when `k` is already in range |
| `Store.FirstList` | src/store.py:68-69 | a missing or empty result list gives `[]`, otherwise its first list |
| `Store.Zip` | src/store.py:71 | the pairs match index by index, as many as the shorter list |
| `Store.BlankQuery` | src/store.py:52-53 | a whitespace-only query gives `[]` whatever the embedding service and the engine would do |
| `Store.FailuresSwallowed` | src/store.py:58-75 | a failed embedding gives `[]`, not an exception |
| `Store.Query` | src/store.py:40-75 | `query(collection, query_text, k)`; its contract is stated by `Store.BlankQuery`, `Store.FailuresSwallowed`, `Store.QueryPairs` and `Store.QueryBounded` |
| `Store.QueryPairs` | src/store.py:56-75 | the engine is asked for `EffectiveK(k)` results for the query's vector; a failed engine query gives `[]`, otherwise the first documents and metadatas paired index by index |
| `Store.QueryBounded` | src/store.py:56-71 | with an engine that honours `n_results`, at most `EffectiveK(k) <= 20` pairs come back |
| `Prompt.BuildSystemPrompt` | src/prompt.py:4-9 | `build_system_prompt()`; its contract is stated by `Prompt.SystemPromptLines` |
| `Prompt.SystemPromptLines` | src/prompt.py:4-9 | the system prompt is the four fixed instruction lines joined by newlines, ending with the last instruction's full stop |
| `Prompt.BuildUserPrompt` | src/prompt.py:11-32 | the loop's parts, joined by newlines, are the opening lines followed by three lines per passage |
| `Prompt.EntriesLength` | src/prompt.py:24-30 | three lines per passage |
| `Prompt.EntryAt` | src/prompt.py:24-30 | line `r` of passage `j` is line `r` of that passage's entry, numbered `i + j` |
| `Prompt.UserPromptLayout` | src/prompt.py:22-32 | there are `3 + 3n` parts: `Question: q`, `""`, `Context:`, then for passage `j` its citation `[j+1] ...`, the text indented by four spaces, and `""` |
| `Prompt.PreambleJoin` | src/prompt.py:22-32 | the opening lines join to `"Question: " + q + "\n\nContext:"`, which is the whole prompt when there are no passages |
| `Prompt.UserPromptText` | src/prompt.py:22-32 | with no passages the prompt is the joined opening lines, otherwise those, a newline, and the passages' lines joined |
| `Prompt.CitationDefaults` | src/prompt.py:25-28 | a passage without `source` or `chunk` is cited as from `Unknown`, chunk `N/A` |
| `Prompt.CitationOfStoredChunk` | src/prompt.py:25-28 | a passage with string `source` and integer `chunk` is cited by them |
| `Prompt.RenderMessages` | src/prompt.py:34-39 | two messages, the system one first, carrying their contents unchanged |
| `Paths.Name` | src/rag.py:75 | the name is the end of the path after its last separator and holds no separator |
| `Paths.Suffix` | src/rag.py:37-39 | `path.suffix`; its contract is stated by `Paths.StemSuffix`, `Paths.SplitName`, `Paths.HiddenFileNoSuffix` and `Paths.FileSuffix` |
| `Paths.Stem` | src/rag.py:72 | `path.stem`; its contract is stated by `Paths.StemSuffix`, `Paths.SplitName` and `Paths.FileSuffix` |
| `Paths.StemSuffix` | src/rag.py:37-39 | stem and suffix split the name; the suffix is empty or a dot and at least one more character without dots, and the stem is then not empty |
| `Paths.NameInDirectory` | src/rag.py:75 | a file's path in a directory has the file's name |
| `Paths.SplitName` | src/rag.py:37-39 | `stem.ext` has suffix `.ext` and stem `stem` |
| `Paths.HiddenFileNoSuffix` | src/rag.py:37-39 | a name made of a dot and an extension has no suffix |
| `Paths.KindOf` | src/rag.py:37-44 | a file is read as a PDF exactly when its lower-cased suffix is `.pdf`, as text exactly when it is `.txt` or `.md`, and skipped otherwise |
| `Paths.FileSuffix` | src/rag.py:37-39 | a file `stem.ext` in a directory has suffix `.ext` and stem `stem` |
| `Paths.UpperCaseText` | src/rag.py:39 | `NOTES.MD` is read as text |
| `Paths.UpperCasePdf` | src/rag.py:37 | `Report.PDF` is read as a PDF |
| `Paths.HiddenFileSkipped` | src/rag.py:37-44 | files named just `.md` or `.txt` are skipped |
| `Rag.FirstSuccess` | src/rag.py:134-136 | the first successful attempt below the limit, every attempt before it failing; the limit when none succeeds |
| `Rag.Attempts` | src/rag.py:134-143 | the number of `embed_texts` calls; its contract is stated by `Rag.PauseBetweenAttempts`, `Rag.RetryFirstAttempt` and `Rag.RetryExhausted` |
| `Rag.PauseBetweenAttempts` | src/rag.py:134-143 | with at least one attempt allowed there are 1 to `max_retries` calls of `embed_texts`, with exactly one pause between consecutive calls |
| `Rag.EmbedWithRetry` | src/rag.py:132-143 | the loop returns `Retried`, pauses `Pauses` and calls `embed_texts` `Attempts` times: nothing when no attempt is allowed, the first success, or `[]` after pausing `2 ** a` after each failed attempt but the last |
| `Rag.RetryFirstAttempt` | src/rag.py:134-136 | a first attempt that succeeds is used at once: one call, no pause |
| `Rag.RetryExhausted` | src/rag.py:137-143 | when every attempt fails, all `max_retries` attempts are made and the result is `[]` after `max_retries - 1` pauses of 1, 2, 4, ... seconds; three attempts pause for 1 and then 2 seconds |
| `Rag.RetriedFalsy` | src/rag.py:132-143 | for non-empty chunks the result is falsy exactly when no attempt is allowed or all fail, and otherwise holds one vector per chunk |
| `Rag.HashTail` | src/rag.py:71 | `str(hash(chunk))[-8:]`; its contract is stated by `Rag.HashTailSpec` |
| `Rag.ChunkId` | src/rag.py:72 | `f"{path.stem}_{i:03d}_{chunk_hash}"`; its contract is stated by `Rag.DistinctChunkIds` and `Rag.ChunkIdsDistinct` |
| `Rag.HashTailSpec` | src/rag.py:71 | the hash part is the last eight characters of the hash's decimal form, or all of it when shorter |
| `Rag.ChunkIds` | src/rag.py:69-73 | one id per chunk, id `i` built from the stem, `i` and the hash of chunk `i` |
| `Rag.ChunkMetadatas` | src/rag.py:74-79 | one metadata per chunk, metadata `i` naming the file, chunk `i + 1`, the total and the path |
| `Rag.ChunkKeys` | src/rag.py:66-79 | the `enumerate` loop builds exactly those ids and metadatas |
| `Rag.DistinctChunkIds` | src/rag.py:72 | two chunks at different positions never share an id, whatever their hashes |
| `Rag.ChunkIdsDistinct` | src/rag.py:69-73 | all ids of one file are pairwise distinct |
| `Rag.IngestPath` | src/rag.py:16-87 | the stage reached is `IngestStage`; the count is the number of chunks when they are added and 0 on every early return and on a store failure; the collection grows by the file's records (`StoredRecords` of its chunks, described by `Rag.StoredRecordsSpec`) exactly when they are added; a file skipped, blank or without chunks makes no `embed_texts` call, and otherwise the calls are those of the retry |
| `Rag.EmbedStageAdded` | src/rag.py:57-87 | chunks are stored exactly when one of the three attempts succeeds and the store accepts the batch |
| `Rag.IngestAddedIff` | src/rag.py:34-87 | a file is added exactly when its suffix is supported, its text is not blank and gives chunks, an attempt succeeds and the store accepts |
| `Rag.StoredRecordsSpec` | src/rag.py:66-84 | one record per chunk, in order, with the chunk's id, text and metadata, and the vector the successful attempt selected for it |
| `Rag.FallbackAlwaysChunks` | src/rag.py:51-55 | without sentence tokenization a file never stops for lack of chunks |
| `Rag.Preview` | src/rag.py:127 | a text of at most 200 characters is kept; a longer one becomes its first 200 characters and `...`, 203 in all |
| `Rag.SourceEntries` | src/rag.py:122-128 | one source per passage, in order, passage `j` numbered `j + 1` |
| `Rag.CollectSources` | src/rag.py:122-128 | the sources loop builds exactly those entries |
| `Rag.RetrieveAndAnswer` | src/rag.py:89-130 | the result is `AnswerOutcome`: the fixed reply with no sources when nothing is retrieved, otherwise the chat answer with the sources, or the chat error |
| `Rag.BlankQuestion` | src/rag.py:108-111 | a blank question gets the fixed reply whatever the services would say |
| `Rag.AnswerFromPassages` | src/rag.py:113-130 | with passages, the system message carries the grounding prompt and the second message is the user's; the outcome succeeds exactly when the chat does, with its answer and one source per passage; an unreachable server is the request error |
| `Rag.SourcesOfIngestedChunks` | src/rag.py:123-127 | a stored passage's source names its file and chunk number; a passage without metadata is from `Unknown` and takes its 1-based rank as chunk number; the text part is the preview |
| `Rag.PreviewBounded` | src/rag.py:127 | a preview has at most 203 characters and starts with the text's first 200 |

## Left out

- HTTP: requests, timeouts, `raise_for_status` and `iter_lines` are not modelled. Each embedding request is answered by a `Reply`, and a chat request by a `Transport`: its lines and whether the stream broke off.
- JSON: only the shapes the code distinguishes are modelled. A `message` value that `'content' in ...` cannot inspect, or a `content` looked up in a string, is the `BadMessage` line. The model does not separate the exception types behind these cases, beyond the two `RuntimeError` texts. The reason texts of an undecodable line, a bad message and non-string content (`UndecodableReason`, `BadMessageReason`, `NotTextReason`) are placeholders for Python's `str(e)` of the exception raised, which the model does not reproduce.
- PDF extraction and file reading (`_read_pdf`, `open`): the text is a parameter of the world. A PDF that cannot be read gives `""` in the source, which the model covers as blank text. Read errors of `.txt` and `.md` files are outside the model.
- Sentence tokenization: NLTK and the punkt download are replaced by the sentence list as a parameter, or `None` for `LookupError`.
- The vector store engine (ChromaDB persistence and similarity ranking, `get_client`, `get_or_create_collection`): ranking is an `Engine` parameter. `add` is modelled as an append with no upsert or duplicate-id semantics, and a failing `add` is taken to leave the collection unchanged.
- Python's `hash`: an uninterpreted parameter. It is randomized per process, so no stability across runs is claimed.
- Embedding vectors are floats; here they are an opaque coordinate type, not computed with.
- `int()` parsing of environment strings and `load_dotenv`: the environment holds numbers already parsed.
- `time.sleep` and every `print`: sleeps are recorded as their arguments, prints are dropped.
- The command-line tools and the web front end (`ingest.py`, `query.py`, `app/app.py`) are not part of this model.
- `Chunking.FallbackChunk`: requires an empty text, `overlap < max_chars`, or a text no longer than `max_chars`. That is exactly when the source's loop ends; otherwise `start` never moves forward and the loop runs forever. `Rag.IngestPath` asks the same of its caller through `CanChunk`, and then only when the fallback can run. `Chunking.Chunks`, `Chunking.SplitIntoChunks` and `Chunking.ChunksStripped` ask for this only when the tokenizer is unavailable and the text is not blank, since blank text returns `[]` before the loop.
- `Paths.Name`: the path is taken as written, with `/` separators. pathlib's normalisation of trailing or repeated separators and of `.` segments is not modelled. The suffix rule is the rule of the last dot, as in Python 3.12.
- `PyStr.Lower`: lower-cases ASCII letters only. Python's Unicode case mapping is not modelled.
- Metadata values are modelled as strings or integers, the kinds the pipeline stores.
- `Rag.EmbedWithRetry`: the loop runs the first `max_retries - 1` attempts, and the last attempt comes after it, where the source branches on `attempt < max_retries - 1`. The attempts, results and pauses are the same.
