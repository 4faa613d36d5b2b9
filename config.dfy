/** Process-wide settings read from the environment once at import time
    (src/config.py). The environment is a map; numeric variables appear in it already
    parsed to integers. */
module Config {

  /** The environment after `.env` loading: string-valued variables and the integer
      values of the numeric ones. A name absent from a map is an unset variable. */
  datatype Env = Env(strings: map<string, string>, numbers: map<string, int>)

  datatype Settings = Settings(
    ollamaUrl: string,
    embedModel: string,
    chatModel: string,
    persistDir: string,
    topK: int,
    maxChars: int,
    overlap: int)

  const DefaultOllamaUrl: string := "http://127.0.0.1:11434"
  const DefaultEmbedModel: string := "nomic-embed-text"
  const DefaultChatModel: string := "qwen2.5"
  const DefaultPersistDir: string := "vectorstore"
  const DefaultTopK: int := 5
  const DefaultMaxChars: int := 1100
  const DefaultOverlap: int := 200

  /** `os.getenv(name, default)` for a string variable. */
  function GetString(env: Env, name: string, default: string): string {
    if name in env.strings then env.strings[name] else default
  }

  /** `int(os.getenv(name, default))` for a numeric variable. */
  function GetNumber(env: Env, name: string, default: int): int {
    if name in env.numbers then env.numbers[name] else default
  }

  /** `max(1, min(10, v))`: the retrieval depth is kept within 1..10. */
  function ClampTopK(v: int): (r: int)
    ensures 1 <= r <= 10
    ensures 1 <= v <= 10 ==> r == v
    ensures v < 1 ==> r == 1
    ensures v > 10 ==> r == 10
  {
    var upper := if v < 10 then v else 10;
    if upper > 1 then upper else 1
  }

  /** The module-level constants of src/config.py computed from an environment. */
  function Load(env: Env): (c: Settings)
    ensures 1 <= c.topK <= 10
    ensures "TOP_K" !in env.numbers ==> c.topK == DefaultTopK
    ensures "TOP_K" in env.numbers && 1 <= env.numbers["TOP_K"] <= 10 ==> c.topK == env.numbers["TOP_K"]
    ensures "MAX_CHARS" !in env.numbers ==> c.maxChars == DefaultMaxChars
    ensures "OVERLAP" !in env.numbers ==> c.overlap == DefaultOverlap
    ensures "OLLAMA_URL" !in env.strings ==> c.ollamaUrl == DefaultOllamaUrl
  {
    Settings(
      GetString(env, "OLLAMA_URL", DefaultOllamaUrl),
      GetString(env, "EMBED_MODEL", DefaultEmbedModel),
      GetString(env, "CHAT_MODEL", DefaultChatModel),
      GetString(env, "PERSIST_DIR", DefaultPersistDir),
      ClampTopK(GetNumber(env, "TOP_K", DefaultTopK)),
      GetNumber(env, "MAX_CHARS", DefaultMaxChars),
      GetNumber(env, "OVERLAP", DefaultOverlap))
  }

  /** With nothing set, every setting takes its documented default. */
  lemma EmptyEnvironmentDefaults()
    ensures Load(Env(map[], map[])) ==
      Settings("http://127.0.0.1:11434", "nomic-embed-text", "qwen2.5", "vectorstore", 5, 1100, 200)
  {
  }

  /** `TOP_K=15` is clamped to 10 and `TOP_K=0` to 1. */
  lemma TopKOutOfRange()
    ensures Load(Env(map[], map["TOP_K" := 15])).topK == 10
    ensures Load(Env(map[], map["TOP_K" := 0])).topK == 1
  {
  }

  datatype SummaryValue = Text(text: string) | Number(number: int)

  /** `get_safe_config_summary()`: the settings that may be shown to a user, which leaves
      out the service URL. */
  function SafeSummary(c: Settings): (m: map<string, SummaryValue>)
    ensures m.Keys == {"embed_model", "chat_model", "top_k", "max_chars", "overlap", "persist_dir"}
    ensures "ollama_url" !in m && "url" !in m
    ensures m["embed_model"] == Text(c.embedModel) && m["chat_model"] == Text(c.chatModel)
    ensures m["top_k"] == Number(c.topK) && m["max_chars"] == Number(c.maxChars)
    ensures m["overlap"] == Number(c.overlap) && m["persist_dir"] == Text(c.persistDir)
  {
    map[
      "embed_model" := Text(c.embedModel),
      "chat_model" := Text(c.chatModel),
      "top_k" := Number(c.topK),
      "max_chars" := Number(c.maxChars),
      "overlap" := Number(c.overlap),
      "persist_dir" := Text(c.persistDir)]
  }
}
