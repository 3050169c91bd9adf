/**
 * Project configuration: settings read from the environment with defaults,
 * the TinyLlama switch, the data and knowledge-base paths under the project
 * directory, and the guarded `sys.path` insertion.
 */
module Config {
  import opened Text

  /** The process environment after `.env` has been loaded: variable name to value. */
  type Env = map<string, string>

  /** A filesystem path as its list of components. */
  type Path = seq<string>

  /** `os.getenv(key, default)`. */
  function GetEnv(env: Env, key: string, default: string): (v: string)
    ensures key in env ==> v == env[key]
    ensures key !in env ==> v == default
  {
    if key in env then env[key] else default
  }

  /** `OPENAI_API_KEY`, empty when unset. */
  function OpenAiApiKey(env: Env): string {
    GetEnv(env, "OPENAI_API_KEY", "")
  }

  /** `LLM_MODEL_NAME`, "gpt-4o" when unset. */
  function LlmModelName(env: Env): string {
    GetEnv(env, "LLM_MODEL_NAME", "gpt-4o")
  }

  const EmbeddingModelName: string := "sentence-transformers/all-MiniLM-L6-v2"
  const TinyLlamaBase: string := "TinyLlama/TinyLlama-1.1B-Chat-v1.0"

  /** The defaults apply exactly when the variables are unset. */
  lemma Defaults(env: Env)
    requires "OPENAI_API_KEY" !in env && "LLM_MODEL_NAME" !in env
    ensures OpenAiApiKey(env) == "" && LlmModelName(env) == "gpt-4o"
  {
  }

  /** The word "true" in any mix of upper and lower case, and nothing else. */
  predicate SpellsTrue(v: string) {
    |v| == 4
    && (v[0] == 't' || v[0] == 'T') && (v[1] == 'r' || v[1] == 'R')
    && (v[2] == 'u' || v[2] == 'U') && (v[3] == 'e' || v[3] == 'E')
  }

  /**
   * `USE_TINYLLAMA_LOCAL`: the value (default "false") lower-cased and
   * compared with "true". No whitespace is trimmed.
   */
  function UseTinyLlamaLocal(env: Env): (on: bool)
    ensures on <==> "USE_TINYLLAMA_LOCAL" in env && SpellsTrue(env["USE_TINYLLAMA_LOCAL"])
  {
    var v := GetEnv(env, "USE_TINYLLAMA_LOCAL", "false");
    LowerIsTrue(v);
    Lower(v) == "true"
  }

  /** Lower-casing gives "true" exactly for the spellings of "true". */
  lemma LowerIsTrue(v: string)
    ensures Lower(v) == "true" <==> SpellsTrue(v)
  {
    if SpellsTrue(v) {
      assert Lower(v) == [LowerChar(v[0]), LowerChar(v[1]), LowerChar(v[2]), LowerChar(v[3])];
    }
    if Lower(v) == "true" {
      assert LowerChar(v[0]) == 't' && LowerChar(v[1]) == 'r';
      assert LowerChar(v[2]) == 'u' && LowerChar(v[3]) == 'e';
    }
  }

  /** The switch is off when the variable is unset, and for values such as "1", "yes" or " true". */
  lemma SwitchOffValues(env: Env)
    requires "USE_TINYLLAMA_LOCAL" !in env
      || env["USE_TINYLLAMA_LOCAL"] in {"1", "yes", " true", "false", "true "}
    ensures !UseTinyLlamaLocal(env)
  {
  }

  /** Any case of "true" turns it on. */
  lemma SwitchOnValues(env: Env)
    requires "USE_TINYLLAMA_LOCAL" in env && env["USE_TINYLLAMA_LOCAL"] in {"true", "True", "TRUE", "tRuE"}
    ensures UseTinyLlamaLocal(env)
  {
  }

  // Paths below the project directory

  function DataRawPath(base: Path): Path {
    base + ["data", "raw", "DataCoSupplyChainDataset.csv"]
  }

  function DataProcessedPath(base: Path): Path {
    base + ["data", "processed", "orders_clean.parquet"]
  }

  function KbBasePath(base: Path): Path {
    base + ["kb"]
  }

  function ChromaDbDir(base: Path): Path {
    base + ["rag", "chroma_store"]
  }

  predicate Below(dir: Path, p: Path) {
    |dir| < |p| && p[..|dir|] == dir
  }

  /** The raw and processed data files are distinct files, both below `base/data`. */
  lemma DataPathsUnderData(base: Path)
    ensures Below(base + ["data"], DataRawPath(base))
    ensures Below(base + ["data"], DataProcessedPath(base))
    ensures DataRawPath(base) != DataProcessedPath(base)
  {
    assert DataRawPath(base)[|base| + 1] == "raw";
    assert DataProcessedPath(base)[|base| + 1] == "processed";
  }

  /** The knowledge base and the vector store are below the project directory and apart. */
  lemma KbPathsApart(base: Path)
    ensures Below(base, KbBasePath(base)) && Below(base, ChromaDbDir(base))
    ensures !Below(KbBasePath(base), ChromaDbDir(base))
    ensures !Below(ChromaDbDir(base), KbBasePath(base))
  {
    assert ChromaDbDir(base)[|base|] == "rag";
  }

  // sys.path

  /** Puts `entry` at the front of the search path unless it is already on it. */
  function InsertIfAbsent(searchPath: seq<string>, entry: string): (r: seq<string>)
    ensures entry in r
    ensures multiset(r)[entry] == if entry in searchPath then multiset(searchPath)[entry] else 1
    ensures r == searchPath || (r[0] == entry && r[1..] == searchPath)
  {
    if entry in searchPath then searchPath else [entry] + searchPath
  }

  /** Running the guarded insertion a second time changes nothing. */
  lemma InsertIfAbsentIdempotent(searchPath: seq<string>, entry: string)
    ensures InsertIfAbsent(InsertIfAbsent(searchPath, entry), entry) == InsertIfAbsent(searchPath, entry)
  {
  }
}
