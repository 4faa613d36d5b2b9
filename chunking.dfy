/** The chunker (src/chunking.py): sentence-aware packing with a character overlap,
    and a fixed sliding window used when the sentence tokenizer is unavailable. */
module Chunking {
  import opened Wrappers
  import opened PyStr

  /** What `nltk.sent_tokenize(text)` produced: the sentences in order, or `None` when it
      raised `LookupError` (the punkt data is missing). */
  type Tokenization = Option<seq<string>>

  function Min(a: int, b: int): int {
    if a < b then a else b
  }

  function Max(a: int, b: int): int {
    if a < b then b else a
  }

  // ---------------------------------------------------------------------------
  // Fallback: a sliding window of `maxChars` characters advancing by
  // `maxChars - overlap`.
  // ---------------------------------------------------------------------------

  /** The sliding-window loop ends exactly when the text is empty, when the step is
      positive, or when the first window already reaches the end of the text; otherwise
      `start` never moves forward. */
  predicate FallbackTerminates(text: string, maxChars: int, overlap: int) {
    |text| == 0 || overlap < maxChars || |text| <= maxChars
  }

  /** `start = end - overlap if end < len(text) else len(text)`: where the loop goes after
      the window at `start`. */
  function Next(text: string, maxChars: int, overlap: int, start: nat): (next: nat)
    requires FallbackTerminates(text, maxChars, overlap) && start < |text|
    ensures start < next <= |text| || start + maxChars < |text|
    ensures start < next
  {
    var end := start + maxChars;
    if end < |text| then end - overlap else |text|
  }

  /** The raw windows `text[start:start + maxChars]` taken by the loop from `start` on,
      before stripping. */
  function RawWindows(text: string, maxChars: int, overlap: int, start: nat): seq<string>
    requires FallbackTerminates(text, maxChars, overlap)
    decreases |text| - start
  {
    if start >= |text| then
      []
    else
      [PySlice(text, start, start + maxChars)] + RawWindows(text, maxChars, overlap, Next(text, maxChars, overlap, start))
  }

  /** Each window stripped, the blank ones dropped (`if chunk.strip(): chunks.append(...)`). */
  function StrippedNonBlank(windows: seq<string>): seq<string>
    decreases |windows|
  {
    if windows == [] then
      []
    else
      (if Strip(windows[0]) != [] then [Strip(windows[0])] else []) + StrippedNonBlank(windows[1..])
  }

  lemma StrippedNonBlankCons(w: string, rest: seq<string>)
    ensures StrippedNonBlank([w] + rest) ==
      (if Strip(w) != [] then [Strip(w)] else []) + StrippedNonBlank(rest)
  {
    assert ([w] + rest)[1..] == rest;
  }

  /** What `_fallback_chunk(text, max_chars, overlap)` returns. */
  function FallbackChunks(text: string, maxChars: int, overlap: int): seq<string>
    requires FallbackTerminates(text, maxChars, overlap)
  {
    StrippedNonBlank(RawWindows(text, maxChars, overlap, 0))
  }

  /** `_fallback_chunk`: the `while start < len(text)` loop. */
  method FallbackChunk(text: string, maxChars: int, overlap: int) returns (chunks: seq<string>)
    requires FallbackTerminates(text, maxChars, overlap)
    ensures chunks == FallbackChunks(text, maxChars, overlap)
  {
    chunks := [];
    var start: nat := 0;
    ghost var all := FallbackChunks(text, maxChars, overlap);
    while start < |text|
      invariant chunks + StrippedNonBlank(RawWindows(text, maxChars, overlap, start)) == all
      decreases |text| - start
    {
      chunks, start := FallbackTurn(text, maxChars, overlap, start, chunks, all);
      if start >= |text| {
        break;
      }
    }
    assert RawWindows(text, maxChars, overlap, start) == [];
    assert chunks + [] == chunks;
  }

  /** One turn of that loop: the window at `start` is kept when not blank, and `start`
      moves to `Next`. */
  method FallbackTurn(text: string, maxChars: int, overlap: int, start: nat, chunks: seq<string>,
                      ghost all: seq<string>) returns (chunks': seq<string>, start': nat)
    requires FallbackTerminates(text, maxChars, overlap) && start < |text|
    requires chunks + StrippedNonBlank(RawWindows(text, maxChars, overlap, start)) == all
    ensures start' == Next(text, maxChars, overlap, start)
    ensures chunks' + StrippedNonBlank(RawWindows(text, maxChars, overlap, start')) == all
  {
    FallbackStep(text, maxChars, overlap, start, chunks);
    var end := start + maxChars;
    var chunk := PySlice(text, start, end);
    var stripped := Strip(chunk);
    chunks' := chunks;
    if stripped != [] {
      chunks' := chunks' + [stripped];
    }
    start' := if end < |text| then end - overlap else |text|;
  }

  /** One turn of the fallback loop: the window at `start` is appended to the chunks
      collected so far (when not blank) and the loop moves on to the next start. */
  lemma FallbackStep(text: string, maxChars: int, overlap: int, start: nat, done: seq<string>)
    requires FallbackTerminates(text, maxChars, overlap) && start < |text|
    ensures var stripped := Strip(PySlice(text, start, start + maxChars));
      done + StrippedNonBlank(RawWindows(text, maxChars, overlap, start)) ==
      (if stripped != [] then done + [stripped] else done) +
      StrippedNonBlank(RawWindows(text, maxChars, overlap, Next(text, maxChars, overlap, start)))
  {
    var chunk := PySlice(text, start, start + maxChars);
    var rest := RawWindows(text, maxChars, overlap, Next(text, maxChars, overlap, start));
    StrippedNonBlankCons(chunk, rest);
    var piece := if Strip(chunk) != [] then [Strip(chunk)] else [];
    assert (done + piece) + StrippedNonBlank(rest) == done + (piece + StrippedNonBlank(rest));
  }

  /** Every fallback chunk is non-empty, has no whitespace at its ends, and has at most
      `maxChars` characters. */
  lemma FallbackChunksBounded(text: string, maxChars: int, overlap: int)
    requires 0 <= overlap < maxChars
    ensures forall c :: c in FallbackChunks(text, maxChars, overlap) ==>
      0 < |c| <= maxChars && Strip(c) == c
  {
    RawWindowsBounded(text, maxChars, overlap, 0);
    StrippedNonBlankBounded(RawWindows(text, maxChars, overlap, 0), maxChars);
  }

  lemma {:induction false} RawWindowsBounded(text: string, maxChars: int, overlap: int, start: nat)
    requires 0 <= overlap < maxChars
    ensures forall w :: w in RawWindows(text, maxChars, overlap, start) ==> |w| <= maxChars
    decreases |text| - start
  {
    if start < |text| {
      NonNegativeSlice(text, start, start + maxChars);
      RawWindowsBounded(text, maxChars, overlap, Next(text, maxChars, overlap, start));
    }
  }

  lemma {:induction false} StrippedNonBlankBounded(windows: seq<string>, n: int)
    requires forall w :: w in windows ==> |w| <= n
    ensures forall c :: c in StrippedNonBlank(windows) ==> 0 < |c| <= n && Strip(c) == c
    decreases |windows|
  {
    if windows != [] {
      StrippedNonBlankBounded(windows[1..], n);
      StripSpec(windows[0]);
      StripIdempotent(windows[0]);
    }
  }

  /** Where window `i` starts: `i` steps of `maxChars - overlap` from 0. */
  function WindowStart(maxChars: int, overlap: int, i: nat): nat
    requires overlap < maxChars
  {
    if i == 0 then 0 else WindowStart(maxChars, overlap, i - 1) + (maxChars - overlap)
  }

  /** The `i`-th step is `i * (maxChars - overlap)`. */
  lemma {:induction false} WindowStartProduct(maxChars: int, overlap: int, i: nat)
    requires overlap < maxChars
    ensures WindowStart(maxChars, overlap, i) == i * (maxChars - overlap)
  {
    if i > 0 {
      WindowStartProduct(maxChars, overlap, i - 1);
      assert i * (maxChars - overlap) == (i - 1) * (maxChars - overlap) + (maxChars - overlap);
    }
  }

  /** The characters of `text` from `a`, at most `maxChars` of them. */
  function Span(text: string, a: nat, maxChars: nat): (r: string)
    requires a <= |text|
    ensures |r| == Min(a + maxChars, |text|) - a
  {
    text[a..Min(a + maxChars, |text|)]
  }

  /** The first window after `start` is the text from `start`, `maxChars` characters long
      or up to the end of the text; another window follows exactly when it stops short of
      the end. */
  lemma FirstWindow(text: string, maxChars: int, overlap: int, start: nat)
    requires 0 <= overlap < maxChars && start < |text|
    ensures var w := RawWindows(text, maxChars, overlap, start);
      && |w| > 0
      && w[0] == Span(text, start, maxChars)
      && (|w| > 1 <==> start + maxChars < |text|)
  {
    var next := Next(text, maxChars, overlap, start);
    var rest := RawWindows(text, maxChars, overlap, next);
    NonNegativeSlice(text, start, start + maxChars);
    assert RawWindows(text, maxChars, overlap, start) == [PySlice(text, start, start + maxChars)] + rest;
    assert |rest| > 0 <==> next < |text|;
  }

  /** Window `i` after `start` starts `WindowStart(i)` characters further and is the text
      from there, `maxChars` characters long or up to the end of the text. Every window
      but the last ends before the end of the text; the last one reaches it. */
  lemma {:induction false} WindowAt(text: string, maxChars: int, overlap: int, start: nat, i: nat)
    requires 0 <= overlap < maxChars
    requires i < |RawWindows(text, maxChars, overlap, start)|
    ensures var a := start + WindowStart(maxChars, overlap, i);
      var w := RawWindows(text, maxChars, overlap, start);
      && a < |text|
      && w[i] == Span(text, a, maxChars)
      && (i + 1 < |w| <==> a + maxChars < |text|)
    decreases i
  {
    if i == 0 {
      FirstWindow(text, maxChars, overlap, start);
    } else {
      var next := WindowStep(text, maxChars, overlap, start);
      WindowAt(text, maxChars, overlap, next, i - 1);
      assert WindowStart(maxChars, overlap, i) == WindowStart(maxChars, overlap, i - 1) + (maxChars - overlap);
    }
  }

  /** Past the first window, the windows from `start` are those from `start + maxChars -
      overlap`, shifted by one. */
  lemma WindowStep(text: string, maxChars: int, overlap: int, start: nat) returns (next: nat)
    requires 0 <= overlap < maxChars
    requires 1 < |RawWindows(text, maxChars, overlap, start)|
    ensures next == start + (maxChars - overlap)
    ensures var w, rest := RawWindows(text, maxChars, overlap, start), RawWindows(text, maxChars, overlap, next);
      |w| == |rest| + 1 && forall j :: 0 < j < |w| ==> w[j] == rest[j - 1]
  {
    FirstWindow(text, maxChars, overlap, start);
    next := Next(text, maxChars, overlap, start);
    var rest := RawWindows(text, maxChars, overlap, next);
    assert RawWindows(text, maxChars, overlap, start) == [PySlice(text, start, start + maxChars)] + rest;
  }

  /** The windows of the fallback: window `i` starts at `WindowStart(i)` and holds the next
      `maxChars` characters (fewer at the end); there is a window exactly when the text is
      non-empty, and the last one reaches the end of the text. */
  lemma FallbackWindows(text: string, maxChars: int, overlap: int)
    requires 0 <= overlap < maxChars
    ensures var w := RawWindows(text, maxChars, overlap, 0);
      && (|text| > 0 <==> |w| > 0)
      && (forall i :: 0 <= i < |w| ==>
            WindowStart(maxChars, overlap, i) < |text| &&
            w[i] == Span(text, WindowStart(maxChars, overlap, i), maxChars))
      && (|w| > 0 ==> WindowStart(maxChars, overlap, |w| - 1) + maxChars >= |text|)
  {
    WindowsExist(text, maxChars, overlap);
    EveryWindow(text, maxChars, overlap);
    LastWindow(text, maxChars, overlap);
  }

  lemma WindowsExist(text: string, maxChars: int, overlap: int)
    requires 0 <= overlap < maxChars
    ensures |text| > 0 <==> |RawWindows(text, maxChars, overlap, 0)| > 0
  {
    if |text| > 0 {
      FirstWindow(text, maxChars, overlap, 0);
    }
  }

  lemma EveryWindow(text: string, maxChars: int, overlap: int)
    requires 0 <= overlap < maxChars
    ensures var w := RawWindows(text, maxChars, overlap, 0);
      forall i :: 0 <= i < |w| ==>
        WindowStart(maxChars, overlap, i) < |text| &&
        w[i] == Span(text, WindowStart(maxChars, overlap, i), maxChars)
  {
    var w := RawWindows(text, maxChars, overlap, 0);
    forall i | 0 <= i < |w|
      ensures WindowStart(maxChars, overlap, i) < |text| &&
              w[i] == Span(text, WindowStart(maxChars, overlap, i), maxChars)
    {
      WindowAt(text, maxChars, overlap, 0, i);
    }
  }

  lemma LastWindow(text: string, maxChars: int, overlap: int)
    requires 0 <= overlap < maxChars
    ensures var w := RawWindows(text, maxChars, overlap, 0);
      |w| > 0 ==> WindowStart(maxChars, overlap, |w| - 1) + maxChars >= |text|
  {
    var w := RawWindows(text, maxChars, overlap, 0);
    if |w| > 0 {
      WindowAt(text, maxChars, overlap, 0, |w| - 1);
    }
  }

  /** Consecutive raw windows share `overlap` characters: the last `overlap` characters
      of a window are the first `overlap` characters of the next, and every window but
      the last is a full `maxChars` long. */
  lemma ConsecutiveWindowsOverlap(text: string, maxChars: int, overlap: int, i: nat)
    requires 0 <= overlap < maxChars
    requires i + 1 < |RawWindows(text, maxChars, overlap, 0)|
    ensures var w := RawWindows(text, maxChars, overlap, 0);
      |w[i]| == maxChars && |w[i + 1]| >= overlap &&
      w[i][maxChars - overlap..] == w[i + 1][..overlap]
  {
    WindowAt(text, maxChars, overlap, 0, i);
    WindowAt(text, maxChars, overlap, 0, i + 1);
    SpanOverlap(text, WindowStart(maxChars, overlap, i), maxChars, overlap);
  }

  /** Two spans `maxChars - overlap` apart, the first ending before the end of the text,
      share `overlap` characters. */
  lemma SpanOverlap(text: string, a: nat, maxChars: int, overlap: int)
    requires 0 <= overlap < maxChars && a + maxChars < |text|
    ensures var x, y := Span(text, a, maxChars), Span(text, a + maxChars - overlap, maxChars);
      |x| == maxChars && |y| >= overlap && x[maxChars - overlap..] == y[..overlap]
  {
    var b := a + maxChars - overlap;
    assert Span(text, a, maxChars)[maxChars - overlap..] == text[b..a + maxChars];
    assert Span(text, b, maxChars)[..overlap] == text[b..a + maxChars];
  }

  /** A non-space character at or after `start` lands in some window that survives the
      blank filter. */
  lemma {:induction false} WindowsFindText(text: string, maxChars: int, overlap: int, start: nat, p: nat)
    requires 0 <= overlap < maxChars
    requires start <= p < |text| && !IsSpace(text[p])
    ensures StrippedNonBlank(RawWindows(text, maxChars, overlap, start)) != []
    decreases |text| - start
  {
    var w := PySlice(text, start, start + maxChars);
    var next := Next(text, maxChars, overlap, start);
    var rest := RawWindows(text, maxChars, overlap, next);
    assert RawWindows(text, maxChars, overlap, start) == [w] + rest;
    StrippedNonBlankCons(w, rest);
    if p < start + maxChars {
      NonNegativeSlice(text, start, start + maxChars);
      assert w[p - start] == text[p];
      StripSpec(w);
    } else {
      WindowsFindText(text, maxChars, overlap, next, p);
    }
  }

  /** Text with a non-space character yields at least one fallback chunk. */
  lemma FallbackNotEmpty(text: string, maxChars: int, overlap: int)
    requires 0 <= overlap < maxChars && !Blank(text)
    ensures FallbackChunks(text, maxChars, overlap) != []
  {
    var p :| 0 <= p < |text| && !IsSpace(text[p]);
    WindowsFindText(text, maxChars, overlap, 0, p);
  }

  /** Windows that are not blank all survive the filter, so there are as many chunks as
      windows. */
  lemma {:induction false} StrippedNonBlankKeepsAll(windows: seq<string>)
    requires forall w :: w in windows ==> !Blank(w)
    ensures |StrippedNonBlank(windows)| == |windows|
    decreases |windows|
  {
    if windows != [] {
      StripSpec(windows[0]);
      StrippedNonBlankKeepsAll(windows[1..]);
    }
  }

  /** A text without whitespace yields one chunk per window. */
  lemma NoSpaceOneChunkPerWindow(text: string, maxChars: int, overlap: int)
    requires 0 <= overlap < maxChars
    requires forall p :: 0 <= p < |text| ==> !IsSpace(text[p])
    ensures |FallbackChunks(text, maxChars, overlap)| == |RawWindows(text, maxChars, overlap, 0)|
  {
    var w := RawWindows(text, maxChars, overlap, 0);
    FallbackWindows(text, maxChars, overlap);
    forall x | x in w
      ensures !Blank(x)
    {
      var i :| 0 <= i < |w| && w[i] == x;
      var a := WindowStart(maxChars, overlap, i);
      assert x[0] == text[a];
    }
    StrippedNonBlankKeepsAll(w);
  }

  /** Any 1000 characters without whitespace, in windows of 100 characters advancing by
      90: eleven windows, so at least nine chunks, none longer than 100 characters. */
  lemma ThousandCharsFallback(text: string)
    requires |text| == 1000 && forall p :: 0 <= p < |text| ==> !IsSpace(text[p])
    ensures |FallbackChunks(text, 100, 10)| >= 9
    ensures forall c :: c in FallbackChunks(text, 100, 10) ==> |c| <= 100
  {
    FallbackChunksBounded(text, 100, 10);
    NoSpaceOneChunkPerWindow(text, 100, 10);
    WindowsExist(text, 100, 10);
    LastWindow(text, 100, 10);
    var n := |RawWindows(text, 100, 10, 0)|;
    WindowStartProduct(100, 10, n - 1);
    assert (n - 1) * 90 + 100 >= 1000;
  }

  /** The thousand `A`s of the fallback test. */
  lemma ThousandLettersFallback()
    ensures var text := seq(1000, _ => 'A');
      |FallbackChunks(text, 100, 10)| >= 9 &&
      forall c :: c in FallbackChunks(text, 100, 10) ==> |c| <= 100
  {
    ThousandCharsFallback(seq(1000, _ => 'A'));
  }

  // ---------------------------------------------------------------------------
  // Sentence path: greedy packing of sentences into a buffer.
  // ---------------------------------------------------------------------------

  /** `len(current_chunk) + len(sentence) > max_chars and current_chunk`: the buffer is
      closed as a chunk before the sentence joins. */
  predicate Closes(buffer: string, sentence: string, maxChars: int) {
    |buffer| + |sentence| > maxChars && buffer != []
  }

  /** The buffer after `sentence` is processed. */
  function NextBuffer(buffer: string, sentence: string, maxChars: int, overlap: int): string {
    if Closes(buffer, sentence, maxChars) then
      if overlap > 0 then PySlice(buffer, -overlap, |buffer|) + " " + sentence else sentence
    else if buffer != [] then
      buffer + " " + sentence
    else
      sentence
  }

  /** The chunks emitted from buffer `buffer` on, for the remaining `sentences`,
      including the final flush. */
  function Pack(buffer: string, sentences: seq<string>, maxChars: int, overlap: int): seq<string>
    decreases |sentences|
  {
    if sentences == [] then
      if Strip(buffer) != [] then [Strip(buffer)] else []
    else
      (if Closes(buffer, sentences[0], maxChars) then [Strip(buffer)] else []) +
      Pack(NextBuffer(buffer, sentences[0], maxChars, overlap), sentences[1..], maxChars, overlap)
  }

  /** What `split_into_chunks(text, max_chars, overlap)` returns, given what the tokenizer
      does with `text`. */
  function Chunks(text: string, maxChars: int, overlap: int, tokens: Tokenization): seq<string>
    requires tokens.None? && !Blank(text) ==> FallbackTerminates(text, maxChars, overlap)
  {
    if Blank(text) then
      []
    else match tokens
      case None => FallbackChunks(text, maxChars, overlap)
      case Some(sentences) => Pack("", sentences, maxChars, overlap)
  }

  /** Blank text is answered before either path runs, whatever `max_chars` and `overlap`
      are, even ones with which the fallback loop would not end. */
  lemma BlankTextNoChunks(maxChars: int, overlap: int, tokens: Tokenization)
    ensures !FallbackTerminates("   ", 2, 5)
    ensures Chunks("   ", maxChars, overlap, tokens) == []
  {
    assert Blank("   ");
  }

  /** `split_into_chunks`. Blank text gives no chunks, and every chunk is its own strip. */
  method SplitIntoChunks(text: string, maxChars: int, overlap: int, tokens: Tokenization)
    returns (chunks: seq<string>)
    requires tokens.None? && !Blank(text) ==> FallbackTerminates(text, maxChars, overlap)
    ensures chunks == Chunks(text, maxChars, overlap, tokens)
    ensures Blank(text) ==> chunks == []
    ensures forall c :: c in chunks ==> Strip(c) == c
  {
    ChunksStripped(text, maxChars, overlap, tokens);
    StripSpec(text);
    if Strip(text) == [] {
      return [];
    }
    match tokens
    case None =>
      chunks := FallbackChunk(text, maxChars, overlap);
    case Some(sentences) =>
      chunks := PackSentences(sentences, maxChars, overlap);
  }

  /** The `for sentence in sentences` loop of `split_into_chunks` and the final flush. */
  method PackSentences(sentences: seq<string>, maxChars: int, overlap: int) returns (chunks: seq<string>)
    ensures chunks == Pack("", sentences, maxChars, overlap)
  {
    chunks := [];
    var current := "";
    ghost var all := Pack("", sentences, maxChars, overlap);
    for i := 0 to |sentences|
      invariant chunks + Pack(current, sentences[i..], maxChars, overlap) == all
    {
      PackStep(current, sentences, i, maxChars, overlap, chunks);
      var sentence := sentences[i];
      if |current| + |sentence| > maxChars && current != [] {
        chunks := chunks + [Strip(current)];
        if overlap > 0 {
          current := PySlice(current, -overlap, |current|) + " " + sentence;
        } else {
          current := sentence;
        }
      } else {
        if current != [] {
          current := current + " " + sentence;
        } else {
          current := sentence;
        }
      }
    }
    assert sentences[|sentences|..] == [];
    if Strip(current) != [] {
      chunks := chunks + [Strip(current)];
    }
  }

  /** One turn of the sentence loop: the buffer is closed as a chunk when `Closes` says
      so, and the loop goes on with the next buffer. */
  lemma PackStep(buffer: string, sentences: seq<string>, i: nat, maxChars: int, overlap: int, done: seq<string>)
    requires i < |sentences|
    ensures done + Pack(buffer, sentences[i..], maxChars, overlap) ==
      (if Closes(buffer, sentences[i], maxChars) then done + [Strip(buffer)] else done) +
      Pack(NextBuffer(buffer, sentences[i], maxChars, overlap), sentences[i + 1..], maxChars, overlap)
  {
    assert sentences[i..][1..] == sentences[i + 1..];
    var piece := if Closes(buffer, sentences[i], maxChars) then [Strip(buffer)] else [];
    var rest := Pack(NextBuffer(buffer, sentences[i], maxChars, overlap), sentences[i + 1..], maxChars, overlap);
    assert (done + piece) + rest == done + (piece + rest);
  }

  /** Every chunk, on either path, has no whitespace at its ends. */
  lemma ChunksStripped(text: string, maxChars: int, overlap: int, tokens: Tokenization)
    requires tokens.None? && !Blank(text) ==> FallbackTerminates(text, maxChars, overlap)
    ensures forall c :: c in Chunks(text, maxChars, overlap, tokens) ==> Strip(c) == c
  {
    if !Blank(text) {
      match tokens
      case None =>
        StrippedNonBlankStripped(RawWindows(text, maxChars, overlap, 0));
      case Some(sentences) =>
        PackStripped("", sentences, maxChars, overlap);
    }
  }

  lemma {:induction false} StrippedNonBlankStripped(windows: seq<string>)
    ensures forall c :: c in StrippedNonBlank(windows) ==> Strip(c) == c
    decreases |windows|
  {
    if windows != [] {
      StrippedNonBlankStripped(windows[1..]);
      StripIdempotent(windows[0]);
    }
  }

  lemma {:induction false} PackStripped(buffer: string, sentences: seq<string>, maxChars: int, overlap: int)
    ensures forall c :: c in Pack(buffer, sentences, maxChars, overlap) ==> Strip(c) == c
    decreases |sentences|
  {
    StripIdempotent(buffer);
    if sentences != [] {
      PackStripped(NextBuffer(buffer, sentences[0], maxChars, overlap), sentences[1..], maxChars, overlap);
    }
  }

  /** A close emits the stripped buffer, and packing goes on from the last `overlap`
      characters of the unstripped buffer (all of it when shorter), a space and the
      sentence; with no overlap, from the sentence alone. */
  lemma BufferAfterClose(buffer: string, sentence: string, rest: seq<string>, maxChars: int, overlap: int)
    requires Closes(buffer, sentence, maxChars)
    ensures var next := NextBuffer(buffer, sentence, maxChars, overlap);
      && Pack(buffer, [sentence] + rest, maxChars, overlap) == [Strip(buffer)] + Pack(next, rest, maxChars, overlap)
      && if overlap > 0 then
        var keep := Min(overlap, |buffer|);
        next == buffer[|buffer| - keep..] + " " + sentence
      else
        next == sentence
  {
    assert ([sentence] + rest)[1..] == rest;
    if overlap > 0 {
      NegativeTailSlice(buffer, overlap);
    }
  }

  /** Without a close nothing is emitted: the sentence joins the buffer, after a space
      when the buffer is not empty, and a non-empty buffer and the sentence fit in
      `maxChars` together. */
  lemma BufferWithoutClose(buffer: string, sentence: string, rest: seq<string>, maxChars: int, overlap: int)
    requires !Closes(buffer, sentence, maxChars)
    ensures NextBuffer(buffer, sentence, maxChars, overlap) ==
      if buffer == [] then sentence else buffer + " " + sentence
    ensures Pack(buffer, [sentence] + rest, maxChars, overlap) ==
      Pack(if buffer == [] then sentence else buffer + " " + sentence, rest, maxChars, overlap)
    ensures buffer != [] ==> |buffer| + |sentence| <= maxChars
  {
    assert ([sentence] + rest)[1..] == rest;
  }

  /** A single sentence of any length becomes one chunk, whole: the sentence path does
      not truncate. A stripped sentence comes back unchanged. */
  lemma SingleSentence(sentence: string, maxChars: int, overlap: int)
    requires !Blank(sentence)
    ensures Pack("", [sentence], maxChars, overlap) == [Strip(sentence)]
    ensures IsStripped(sentence) ==> Pack("", [sentence], maxChars, overlap) == [sentence]
  {
    StripSpec(sentence);
    if IsStripped(sentence) {
      StripFixpoint(sentence);
    }
  }

  /** The same thousand `A`s as one sentence: the sentence path emits them as a single
      chunk of 1000 characters, over a `maxChars` of 100. */
  lemma ThousandLettersOneSentence()
    ensures var text := seq(1000, _ => 'A');
      Pack("", [text], 100, 10) == [text] && |text| > 100
  {
    var text := seq(1000, _ => 'A');
    assert text[0] == 'A';
    SingleSentence(text, 100, 10);
  }

  /** The length bound of the sentence path: a buffer grows past `maxChars + 1` only
      when it is seeded with an overlap tail or holds a single long sentence, so every
      chunk has at most `max(maxChars + 1, max(overlap, 0) + 1 + longest)` characters,
      where `longest` bounds the sentence lengths. */
  lemma {:induction false} PackBounded(buffer: string, sentences: seq<string>, maxChars: int, overlap: int, longest: nat)
    requires forall k :: 0 <= k < |sentences| ==> |sentences[k]| <= longest
    requires |buffer| <= Max(maxChars + 1, Max(overlap, 0) + 1 + longest)
    ensures forall c :: c in Pack(buffer, sentences, maxChars, overlap) ==>
      |c| <= Max(maxChars + 1, Max(overlap, 0) + 1 + longest)
    decreases |sentences|
  {
    StripSpec(buffer);
    if sentences != [] {
      var s := sentences[0];
      if Closes(buffer, s, maxChars) && overlap > 0 {
        NegativeTailSlice(buffer, overlap);
      }
      PackBounded(NextBuffer(buffer, s, maxChars, overlap), sentences[1..], maxChars, overlap, longest);
    }
  }

  lemma SentenceChunksBounded(sentences: seq<string>, maxChars: int, overlap: int, longest: nat)
    requires forall k :: 0 <= k < |sentences| ==> |sentences[k]| <= longest
    ensures forall c :: c in Pack("", sentences, maxChars, overlap) ==>
      |c| <= Max(maxChars + 1, Max(overlap, 0) + 1 + longest)
  {
    PackBounded("", sentences, maxChars, overlap, longest);
  }

  /** Some chunk contains `t`. */
  ghost predicate InSomeChunk(t: string, chunks: seq<string>) {
    exists c :: c in chunks && IsSubstring(t, c)
  }

  /** A stripped, non-empty piece of the buffer ends up in some chunk. */
  lemma {:induction false} PackKeepsPiece(t: string, buffer: string, sentences: seq<string>, maxChars: int, overlap: int)
    requires t != [] && IsStripped(t) && IsSubstring(t, buffer)
    ensures InSomeChunk(t, Pack(buffer, sentences, maxChars, overlap))
    decreases |sentences|
  {
    var chunks := Pack(buffer, sentences, maxChars, overlap);
    if sentences == [] || Closes(buffer, sentences[0], maxChars) {
      SubstringOfStrip(t, buffer);
      assert chunks[0] == Strip(buffer);
    } else {
      var s := sentences[0];
      var next := NextBuffer(buffer, s, maxChars, overlap);
      assert next == buffer + (" " + s);
      SubstringInPrefix(t, buffer, " " + s);
      PackKeepsPiece(t, next, sentences[1..], maxChars, overlap);
      assert chunks == Pack(next, sentences[1..], maxChars, overlap);
    }
  }

  /** No sentence is lost: each stripped, non-empty sentence occurs in some chunk. */
  lemma {:induction false} PackKeepsSentence(buffer: string, sentences: seq<string>, maxChars: int, overlap: int, k: nat)
    requires k < |sentences| && sentences[k] != [] && IsStripped(sentences[k])
    ensures InSomeChunk(sentences[k], Pack(buffer, sentences, maxChars, overlap))
    decreases |sentences|
  {
    var s := sentences[0];
    var next := NextBuffer(buffer, s, maxChars, overlap);
    var rest := Pack(next, sentences[1..], maxChars, overlap);
    assert forall c :: c in rest ==> c in Pack(buffer, sentences, maxChars, overlap);
    if k == 0 {
      var head := next[..|next| - |s|];
      assert next == head + s;
      SubstringRefl(s);
      SubstringInSuffix(s, head, s);
      PackKeepsPiece(s, next, sentences[1..], maxChars, overlap);
    } else {
      PackKeepsSentence(next, sentences[1..], maxChars, overlap, k - 1);
    }
  }

  lemma SentencesKept(sentences: seq<string>, maxChars: int, overlap: int)
    requires forall k :: 0 <= k < |sentences| ==> sentences[k] != [] && IsStripped(sentences[k])
    ensures forall k :: 0 <= k < |sentences| ==> InSomeChunk(sentences[k], Pack("", sentences, maxChars, overlap))
  {
    forall k | 0 <= k < |sentences|
      ensures InSomeChunk(sentences[k], Pack("", sentences, maxChars, overlap))
    {
      PackKeepsSentence("", sentences, maxChars, overlap, k);
    }
  }

  /** A string with a non-space character stays non-blank with anything put before it. */
  lemma NotBlankAfter(head: string, s: string)
    requires !Blank(s)
    ensures !Blank(head + s)
  {
    var p :| 0 <= p < |s| && !IsSpace(s[p]);
    assert (head + s)[|head| + p] == s[p];
  }

  /** With non-blank sentences, no chunk of the sentence path is empty. */
  lemma {:induction false} PackNonEmpty(buffer: string, sentences: seq<string>, maxChars: int, overlap: int)
    requires buffer == [] || !Blank(buffer)
    requires forall k :: 0 <= k < |sentences| ==> !Blank(sentences[k])
    ensures forall c :: c in Pack(buffer, sentences, maxChars, overlap) ==> c != []
    decreases |sentences|
  {
    StripSpec(buffer);
    if sentences != [] {
      var s := sentences[0];
      var next := NextBuffer(buffer, s, maxChars, overlap);
      var head := next[..|next| - |s|];
      assert next == head + s;
      NotBlankAfter(head, s);
      PackNonEmpty(next, sentences[1..], maxChars, overlap);
    }
  }
}
