/** Prompt construction (src/prompt.py): the fixed grounding instructions, the user
    prompt that numbers the retrieved passages as citations, and the two chat messages. */
module Prompt {
  import opened PyStr
  import opened Store
  import opened Llm

  /** The four instruction lines of the system prompt; the first two keep a trailing
      space. */
  const SystemLines: seq<string> := [
    "You are a helpful assistant that answers questions based only on the provided context. ",
    "Always cite your sources using the numbered references provided in the context. ",
    "If you cannot answer the question based on the given context, say so clearly.",
    "Do not make up information that is not present in the context."]

  /** `build_system_prompt()`. */
  function BuildSystemPrompt(): string {
    SystemLines[0] + "\n" + SystemLines[1] + "\n" + SystemLines[2] + "\n" + SystemLines[3]
  }

  /** The system prompt is the instruction lines one per line, with no trailing newline:
      it ends with the full stop of the last instruction. */
  lemma SystemPromptLines()
    ensures BuildSystemPrompt() == Join(SystemLines, "\n")
    ensures var p := BuildSystemPrompt(); p != [] && p[|p| - 1] == '.'
  {
    var l := SystemLines;
    JoinFour(l[0], l[1], l[2], l[3], "\n");
    assert [l[0], l[1], l[2], l[3]] == l;
    var last := l[3];
    assert last[|last| - 1] == '.';
    var p := BuildSystemPrompt();
    assert p[|p| - 1] == last[|last| - 1];
  }

  lemma JoinFour(a: string, b: string, c: string, d: string, sep: string)
    ensures Join([a, b, c, d], sep) == a + sep + b + sep + c + sep + d
  {
    assert [c, d][1..] == [d];
    assert Join([c, d], sep) == c + sep + d;
    assert [b, c, d][1..] == [c, d];
    assert Join([b, c, d], sep) == b + sep + (c + sep + d);
    assert [a, b, c, d][1..] == [b, c, d];
    assert Join([a, b, c, d], sep) == a + sep + (b + sep + (c + sep + d));
  }

  /** `str(value)` inside an f-string, for the metadata value kinds the pipeline stores. */
  function Render(v: MetaValue): string {
    match v
    case MStr(s) => s
    case MInt(i) => IntToString(i)
  }

  /** `metadata.get(key, default)` rendered as text. */
  function Lookup(metadata: Metadata, key: string, default: string): string {
    if key in metadata then Render(metadata[key]) else default
  }

  /** `f"[{i}] From: {source} (chunk {chunk_num})"`. */
  function Citation(i: nat, metadata: Metadata): string {
    "[" + NatToString(i) + "] From: " + Lookup(metadata, "source", "Unknown")
      + " (chunk " + Lookup(metadata, "chunk", "N/A") + ")"
  }

  /** The three lines appended for the `i`-th passage. */
  function EntryLines(i: nat, context: (string, Metadata)): seq<string> {
    [Citation(i, context.1), "    " + context.0, ""]
  }

  /** The lines of the passages `contexts`, the first numbered `i`. */
  function Entries(contexts: seq<(string, Metadata)>, i: nat): seq<string>
    decreases |contexts|
  {
    if contexts == [] then [] else EntryLines(i, contexts[0]) + Entries(contexts[1..], i + 1)
  }

  /** The three opening lines. */
  function Preamble(question: string): seq<string> {
    ["Question: " + question, "", "Context:"]
  }

  /** `prompt_parts` after the loop of `build_user_prompt`. */
  function UserPromptParts(question: string, contexts: seq<(string, Metadata)>): seq<string> {
    Preamble(question) + Entries(contexts, 1)
  }

  /** `build_user_prompt(question, contexts)`. */
  method BuildUserPrompt(question: string, contexts: seq<(string, Metadata)>) returns (prompt: string)
    ensures prompt == Join(UserPromptParts(question, contexts), "\n")
  {
    var parts := Preamble(question);
    for i := 0 to |contexts|
      invariant parts + Entries(contexts[i..], i + 1) == UserPromptParts(question, contexts)
    {
      EntriesStep(contexts, i, parts);
      var (text, metadata) := contexts[i];
      parts := parts + [Citation(i + 1, metadata)];
      parts := parts + ["    " + text];
      parts := parts + [""];
    }
    assert contexts[|contexts|..] == [];
    assert parts + [] == parts;
    prompt := Join(parts, "\n");
  }

  lemma EntriesStep(contexts: seq<(string, Metadata)>, i: nat, parts: seq<string>)
    requires i < |contexts|
    ensures var (text, metadata) := contexts[i];
      parts + Entries(contexts[i..], i + 1)
      == parts + [Citation(i + 1, metadata)] + ["    " + text] + [""] + Entries(contexts[i + 1..], i + 2)
  {
    assert contexts[i..][1..] == contexts[i + 1..];
  }

  lemma {:induction false} EntriesLength(contexts: seq<(string, Metadata)>, i: nat)
    ensures |Entries(contexts, i)| == 3 * |contexts|
    decreases |contexts|
  {
    if contexts != [] {
      EntriesLength(contexts[1..], i + 1);
    }
  }

  /** Line `r` of passage `j` is line `r` of its three lines, numbered `i + j`. */
  lemma {:induction false} EntryAt(contexts: seq<(string, Metadata)>, i: nat, j: nat, r: nat)
    requires j < |contexts| && r < 3
    ensures 3 * j + r < |Entries(contexts, i)|
    ensures Entries(contexts, i)[3 * j + r] == EntryLines(i + j, contexts[j])[r]
    decreases j
  {
    EntriesLength(contexts, i);
    var head := EntryLines(i, contexts[0]);
    var rest := Entries(contexts[1..], i + 1);
    assert Entries(contexts, i) == head + rest;
    if j > 0 {
      EntryAt(contexts[1..], i + 1, j - 1, r);
      assert contexts[1..][j - 1] == contexts[j];
      assert 3 * j + r == 3 + (3 * (j - 1) + r);
    }
  }

  /** The user prompt has three opening lines and three lines per passage, passage `j`
      (from 0) cited as `[j+1]` with its source and chunk number. */
  lemma UserPromptLayout(question: string, contexts: seq<(string, Metadata)>)
    ensures var parts := UserPromptParts(question, contexts);
      && |parts| == 3 + 3 * |contexts|
      && parts[0] == "Question: " + question && parts[1] == "" && parts[2] == "Context:"
      && forall j :: 0 <= j < |contexts| ==>
        && parts[3 + 3 * j] == Citation(j + 1, contexts[j].1)
        && parts[4 + 3 * j] == "    " + contexts[j].0
        && parts[5 + 3 * j] == ""
  {
    EntriesLength(contexts, 1);
    var parts := UserPromptParts(question, contexts);
    var entries := Entries(contexts, 1);
    forall j | 0 <= j < |contexts|
      ensures parts[3 + 3 * j] == Citation(j + 1, contexts[j].1)
      ensures parts[4 + 3 * j] == "    " + contexts[j].0
      ensures parts[5 + 3 * j] == ""
    {
      EntryAt(contexts, 1, j, 0);
      EntryAt(contexts, 1, j, 1);
      EntryAt(contexts, 1, j, 2);
      assert parts[3 + 3 * j] == entries[3 * j];
      assert parts[4 + 3 * j] == entries[3 * j + 1];
      assert parts[5 + 3 * j] == entries[3 * j + 2];
    }
  }

  /** The opening lines joined: the question, a blank line, then `Context:`. */
  lemma PreambleJoin(question: string)
    ensures Join(Preamble(question), "\n") == "Question: " + question + "\n\nContext:"
  {
    var pre := Preamble(question);
    var tail := pre[1..];
    assert tail == ["", "Context:"];
    assert tail[1..] == ["Context:"];
    assert Join(tail, "\n") == "\nContext:";
  }

  /** The joined prompt: the opening lines (see `PreambleJoin`), then the passages'
      lines, all separated by newlines. */
  lemma UserPromptText(question: string, contexts: seq<(string, Metadata)>)
    ensures contexts == [] ==>
      Join(UserPromptParts(question, contexts), "\n") == Join(Preamble(question), "\n")
    ensures contexts != [] ==>
      Join(UserPromptParts(question, contexts), "\n")
      == Join(Preamble(question), "\n") + "\n" + Join(Entries(contexts, 1), "\n")
  {
    var pre := Preamble(question);
    if contexts == [] {
      assert Entries(contexts, 1) == [];
      assert UserPromptParts(question, contexts) == pre + [] == pre;
    } else {
      EntriesLength(contexts, 1);
      JoinAppend(pre, Entries(contexts, 1), "\n");
    }
  }

  /** A passage without `source` or `chunk` metadata is cited as from `Unknown`, chunk
      `N/A`. */
  lemma CitationDefaults(i: nat)
    ensures Citation(i, map[]) == "[" + NatToString(i) + "] From: Unknown (chunk N/A)"
  {
  }

  /** A passage the pipeline stored is cited by its file name and chunk number. */
  lemma CitationOfStoredChunk(i: nat, name: string, chunk: nat)
    ensures Citation(i, map["source" := MStr(name), "chunk" := MInt(chunk)])
      == "[" + NatToString(i) + "] From: " + name + " (chunk " + NatToString(chunk) + ")"
  {
    var m := map["source" := MStr(name), "chunk" := MInt(chunk)];
    assert Lookup(m, "source", "Unknown") == name;
    assert Lookup(m, "chunk", "N/A") == NatToString(chunk);
  }

  /** `render_messages(system, user)`: the system message, then the user message. */
  function RenderMessages(system: string, user: string): (ms: seq<Message>)
    ensures |ms| == 2
    ensures ms[0].role == "system" && ms[0].content == system
    ensures ms[1].role == "user" && ms[1].content == user
  {
    [Message("system", system), Message("user", user)]
  }
}
