/** The chat call (src/llm.py): the reply arrives as newline-delimited JSON fragments,
    and the answer is the concatenation of the fragments' message contents up to the
    first fragment that says it is done. The HTTP exchange is an input: what the server
    does with the request. */
module Llm {
  import opened Wrappers
  import opened PyStr

  /** `{"role": role, "content": content}`. */
  datatype Message = Message(role: string, content: string)

  /** The `content` value of a fragment's `message`: a string, or anything else (which
      only fails when the parts are joined). */
  datatype Content = Text(text: string) | NotText

  /** One line of the streamed body, as the loop sees it. */
  datatype Line =
    | Empty                     // `if line` is false
    | Undecodable               // `line.decode()` raises UnicodeDecodeError
    | NotJson                   // `json.loads` raises JSONDecodeError
    | NoMessage                 // valid JSON, but not an object with a `message` key
    | BadMessage                // `message` is a value `'content' in ...` cannot inspect
    | Fragment(content: Option<Content>, done: bool)
      // a `message` object, with its `content` if present, and the truthiness of `done`

  /** What the server does with the request: fails before a body arrives (connection
      error, timeout, an HTTP error status), or streams `lines` and then either ends or
      breaks off with an error (`broken`). */
  datatype Transport =
    | Unavailable(reason: string)
    | Stream(lines: seq<Line>, broken: Option<string>)

  /** The two `RuntimeError`s of `chat`. */
  datatype ChatError =
    | RequestFailed(reason: string)     // a `requests.RequestException`
    | ProcessingFailed(reason: string)  // any other exception

  function ErrorMessage(e: ChatError): string {
    match e
    case RequestFailed(reason) => "Failed to get chat response: " + reason
    case ProcessingFailed(reason) => "Error processing chat response: " + reason
  }

  /** Placeholders for `str(e)` of the exceptions the loop and the join raise: the model
      keeps which failure it was, not Python's wording of it. */
  const UndecodableReason: string := "invalid UTF-8 in stream line"
  const BadMessageReason: string := "message value without keys"
  const NotTextReason: string := "content is not a string"

  /** How reading the lines ended. */
  datatype Stop = Exhausted | DoneSeen | Raised(reason: string)

  /** The parts collected from `lines` and how the reading ended. */
  datatype Folded = Folded(parts: seq<Content>, stop: Stop)

  /** The `for line in response.iter_lines()` loop as a function of the lines. */
  function Fold(lines: seq<Line>): Folded
    decreases |lines|
  {
    if lines == [] then
      Folded([], Exhausted)
    else
      match lines[0]
      case Empty => Fold(lines[1..])
      case NotJson => Fold(lines[1..])
      case NoMessage => Fold(lines[1..])
      case Undecodable => Folded([], Raised(UndecodableReason))
      case BadMessage => Folded([], Raised(BadMessageReason))
      case Fragment(content, done) =>
        var part := if content.Some? then [content.value] else [];
        if done then
          Folded(part, DoneSeen)
        else
          var rest := Fold(lines[1..]);
          Folded(part + rest.parts, rest.stop)
  }

  /** The texts of the parts, or `None` when one of them is not a string. */
  function Texts(parts: seq<Content>): (r: Option<seq<string>>)
    ensures r.Some? <==> forall j :: 0 <= j < |parts| ==> parts[j].Text?
    ensures r.Some? ==> |r.value| == |parts| && forall j :: 0 <= j < |parts| ==> r.value[j] == parts[j].text
    decreases |parts|
  {
    if parts == [] then
      Some([])
    else
      match parts[0]
      case NotText => None
      case Text(t) =>
        match Texts(parts[1..])
        case None => None
        case Some(ts) => Some([t] + ts)
  }

  /** What `chat` returns or raises, given what the server does. */
  function ChatResult(transport: Transport): Result<string, ChatError> {
    match transport
    case Unavailable(reason) => Err(RequestFailed(reason))
    case Stream(lines, broken) =>
      var folded := Fold(lines);
      match folded.stop
      case Raised(reason) => Err(ProcessingFailed(reason))
      case DoneSeen => Joined(folded.parts)
      case Exhausted =>
        match broken
        case Some(reason) => Err(RequestFailed(reason))
        case None => Joined(folded.parts)
  }

  /** `''.join(content_parts)`. */
  function Joined(parts: seq<Content>): Result<string, ChatError> {
    match Texts(parts)
    case None => Err(ProcessingFailed(NotTextReason))
    case Some(texts) => Ok(Concat(texts))
  }

  /** `chat(messages)`: the server's response to `messages` is `server(messages)`. */
  method Chat(messages: seq<Message>, server: seq<Message> -> Transport) returns (result: Result<string, ChatError>)
    ensures result == ChatResult(server(messages))
  {
    var transport := server(messages);
    if transport.Unavailable? {
      return Err(RequestFailed(transport.reason));
    }
    var lines := transport.lines;
    var parts: seq<Content> := [];
    var i := 0;
    var done := false;
    while i < |lines|
      invariant 0 <= i <= |lines|
      invariant Fold(lines) == Folded(parts + Fold(lines[i..]).parts, Fold(lines[i..]).stop)
    {
      FoldStep(lines, i, parts);
      var line := lines[i];
      i := i + 1;
      if line.Empty? {
        continue;
      }
      if line.Undecodable? {
        return Err(ProcessingFailed(UndecodableReason));
      }
      if line.NotJson? || line.NoMessage? {
        continue;
      }
      if line.BadMessage? {
        return Err(ProcessingFailed(BadMessageReason));
      }
      if line.content.Some? {
        parts := parts + [line.content.value];
      } else {
        assert parts + [] == parts;
      }
      if line.done {
        assert Fold(lines) == Folded(parts, DoneSeen);
        done := true;
        break;
      }
    }
    if !done {
      assert lines[i..] == [];
      assert parts + [] == parts;
      assert Fold(lines) == Folded(parts, Exhausted);
      if transport.broken.Some? {
        return Err(RequestFailed(transport.broken.value));
      }
    }
    var texts := Texts(parts);
    if texts.None? {
      return Err(ProcessingFailed(NotTextReason));
    }
    result := Ok(Concat(texts.value));
  }

  /** One turn of the loop, stated on the lines left to read. */
  lemma FoldStep(lines: seq<Line>, i: nat, parts: seq<Content>)
    requires i < |lines|
    ensures var line := lines[i];
      var rest := Fold(lines[i + 1..]);
      && (line.Empty? || line.NotJson? || line.NoMessage? ==> Fold(lines[i..]) == rest)
      && (line.Undecodable? ==> Fold(lines[i..]) == Folded([], Raised(UndecodableReason)))
      && (line.BadMessage? ==> Fold(lines[i..]) == Folded([], Raised(BadMessageReason)))
      && (line.Fragment? ==>
            var part := if line.content.Some? then [line.content.value] else [];
            && (line.done ==> Fold(lines[i..]) == Folded(part, DoneSeen))
            && (!line.done ==> Fold(lines[i..]) == Folded(part + rest.parts, rest.stop))
            && parts + (part + rest.parts) == (parts + part) + rest.parts)
  {
    assert lines[i..][1..] == lines[i + 1..];
  }

  /** A line that is empty, not JSON, or JSON without a `message` may be dropped
      anywhere without changing the outcome: such lines are skipped, and a fragment
      without a `message` is ignored along with its `done` flag. */
  lemma {:induction false} SkippedLine(before: seq<Line>, line: Line, after: seq<Line>)
    requires line.Empty? || line.NotJson? || line.NoMessage? || line == Fragment(None, false)
    ensures Fold(before + [line] + after) == Fold(before + after)
    decreases |before|
  {
    if before == [] {
      assert ([line] + after)[1..] == after;
      assert ([line] + after)[0] == line;
      assert before + [line] + after == [line] + after;
      assert before + after == after;
      assert [] + Fold(after).parts == Fold(after).parts;
    } else {
      assert (before + [line] + after)[1..] == before[1..] + [line] + after;
      assert (before + after)[1..] == before[1..] + after;
      SkippedLine(before[1..], line, after);
    }
  }

  /** Reading stops at the first fragment marked done: nothing after it is looked at, and
      its own content is kept. */
  lemma {:induction false} StopsAtDone(before: seq<Line>, content: Option<Content>, after: seq<Line>)
    ensures Fold(before + [Fragment(content, true)] + after) == Fold(before + [Fragment(content, true)])
    decreases |before|
  {
    var f := Fragment(content, true);
    if before == [] {
      assert (before + [f] + after)[1..] == after;
      assert (before + [f] + after)[0] == f;
      assert (before + [f])[0] == f;
    } else {
      assert (before + [f] + after)[1..] == before[1..] + [f] + after;
      assert (before + [f])[1..] == before[1..] + [f];
      StopsAtDone(before[1..], content, after);
    }
  }

  /** Reading splits over a concatenation: once `before` is read to its end without
      stopping, what `after` contributes follows. */
  lemma {:induction false} FoldAppend(before: seq<Line>, after: seq<Line>)
    requires Fold(before).stop.Exhausted?
    ensures Fold(before + after) == Folded(Fold(before).parts + Fold(after).parts, Fold(after).stop)
    decreases |before|
  {
    if before == [] {
      assert before + after == after;
    } else {
      var head := before[0];
      assert (before + after)[0] == head;
      assert (before + after)[1..] == before[1..] + after;
      if head.Fragment? && !head.done {
        FoldAppend(before[1..], after);
        var part := if head.content.Some? then [head.content.value] else [];
        var x, y := Fold(before[1..]).parts, Fold(after).parts;
        assert part + (x + y) == (part + x) + y;
      } else if head.Empty? || head.NotJson? || head.NoMessage? {
        FoldAppend(before[1..], after);
      }
    }
  }

  /** The usual stream: text fragments, then a done fragment with content. The answer is
      the texts and the done fragment's content, in order, whatever follows and whether
      or not the connection then breaks. */
  lemma DoneAfterFragments(texts: seq<string>, c: string, after: seq<Line>, broken: Option<string>)
    ensures ChatResult(Stream(FragmentLines(texts) + [Fragment(Some(Text(c)), true)] + after, broken))
      == Ok(Concat(texts) + c)
  {
    var lines := FragmentLines(texts);
    var tail := [Fragment(Some(Text(c)), true)] + after;
    FragmentsConcatenated(texts);
    FoldAppend(lines, tail);
    DoneFragmentKept(c, after);
    assert lines + [Fragment(Some(Text(c)), true)] + after == lines + tail;
    assert TextParts(texts) + [Text(c)] == TextParts(texts + [c]);
    TextsOfTextParts(texts + [c]);
    ConcatSnoc(texts, c);
  }

  /** A done fragment on its own contributes its content and ends the reading. */
  lemma DoneFragmentKept(c: string, after: seq<Line>)
    ensures Fold([Fragment(Some(Text(c)), true)] + after) == Folded([Text(c)], DoneSeen)
  {
  }

  /** The answer is the contents concatenated in order: a stream of content fragments with
      no other lines, ending normally, gives the concatenation of their texts. */
  lemma FragmentsConcatenated(texts: seq<string>)
    ensures Fold(FragmentLines(texts)) == Folded(TextParts(texts), Exhausted)
    ensures ChatResult(Stream(FragmentLines(texts), None)) == Ok(Concat(texts))
  {
    FoldFragmentLines(texts);
    TextsOfTextParts(texts);
  }

  lemma {:induction false} FoldFragmentLines(texts: seq<string>)
    ensures Fold(FragmentLines(texts)) == Folded(TextParts(texts), Exhausted)
    decreases |texts|
  {
    if texts != [] {
      var lines := FragmentLines(texts);
      assert lines[0] == Fragment(Some(Text(texts[0])), false);
      assert lines[1..] == FragmentLines(texts[1..]);
      FoldFragmentLines(texts[1..]);
      assert TextParts(texts) == [Text(texts[0])] + TextParts(texts[1..]);
    }
  }

  /** One fragment per text, none of them done. */
  function FragmentLines(texts: seq<string>): (lines: seq<Line>)
    ensures |lines| == |texts|
    ensures forall j :: 0 <= j < |texts| ==> lines[j] == Fragment(Some(Text(texts[j])), false)
  {
    seq(|texts|, j requires 0 <= j < |texts| => Fragment(Some(Text(texts[j])), false))
  }

  function TextParts(texts: seq<string>): (parts: seq<Content>)
    ensures |parts| == |texts|
    ensures forall j :: 0 <= j < |texts| ==> parts[j] == Text(texts[j])
  {
    seq(|texts|, j requires 0 <= j < |texts| => Text(texts[j]))
  }

  lemma TextsOfTextParts(texts: seq<string>)
    ensures Texts(TextParts(texts)) == Some(texts)
  {
    var r := Texts(TextParts(texts));
    assert r.Some?;
    assert r.value == texts;
  }

  /** Without any content to collect and without errors, the answer is the empty string. */
  lemma {:induction false} NoContentEmptyAnswer(lines: seq<Line>)
    requires forall j :: 0 <= j < |lines| ==>
      (lines[j].Empty? || lines[j].NotJson? || lines[j].NoMessage? || (lines[j].Fragment? && lines[j].content.None?))
    ensures Fold(lines).parts == [] && !Fold(lines).stop.Raised?
    ensures ChatResult(Stream(lines, None)) == Ok("")
    decreases |lines|
  {
    if lines != [] {
      assert forall j :: 0 <= j < |lines[1..]| ==> lines[1..][j] == lines[j + 1];
      NoContentEmptyAnswer(lines[1..]);
      assert [] + Fold(lines[1..]).parts == [];
    }
  }

  /** Transport failures, before or during the stream, surface as the request error;
      an undecodable line as the processing error. */
  lemma Failures(reason: string, lines: seq<Line>)
    ensures ChatResult(Unavailable(reason)) == Err(RequestFailed(reason))
    ensures Fold(lines).stop.Exhausted? ==>
      ChatResult(Stream(lines, Some(reason))) == Err(RequestFailed(reason))
    ensures Fold([Undecodable] + lines) == Folded([], Raised(UndecodableReason))
    ensures ChatResult(Stream([Undecodable] + lines, Some(reason))) == Err(ProcessingFailed(UndecodableReason))
    ensures ErrorMessage(ChatResult(Unavailable(reason)).error) == "Failed to get chat response: " + reason
    ensures ErrorMessage(ChatResult(Stream([Undecodable] + lines, None)).error)
      == "Error processing chat response: " + UndecodableReason
  {
  }
}
