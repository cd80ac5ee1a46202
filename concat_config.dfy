/**
 * The concatenator's default configuration (my_engineer/codebase_concatenator/config.py): the
 * allow-list of file extensions and two flags, handed out as a copy.
 */
module ConcatConfig {
  import opened Text

  /** The values the configuration holds: the extension list, the flags, and the root path. */
  datatype ConfigValue = Exts(exts: seq<string>) | Flag(flag: bool) | PathValue(path: string)

  type Config = map<string, ConfigValue>

  const DefaultExtensions: seq<string> := [
    ".py", ".js", ".html", ".css", ".info", ".http", ".tsx", ".vue", ".mjs", ".rules", ".sh",
    ".json", ".ts", ".yaml", ".env", ".md", ".jsonl", ".svelte", ".d.ts"
  ]

  /** `DEFAULT_CONFIG`. */
  const DefaultConfig: Config := map[
    "include_file_extensions" := Exts(DefaultExtensions),
    "include_tests" := Flag(false),
    "verbose" := Flag(false)
  ]

  /**
   * `get_config`: a copy of the defaults. Configurations are values here, so a key set on the
   * copy can never reach `DefaultConfig`.
   */
  function GetConfig(): (c: Config)
    ensures c.Keys == {"include_file_extensions", "include_tests", "verbose"}
    ensures c["include_tests"] == Flag(false) && c["verbose"] == Flag(false)
    ensures c["include_file_extensions"] == Exts(DefaultExtensions)
  {
    DefaultConfig
  }

  /** A configuration of the shape the concatenator reads: an extension list and a tests flag. */
  predicate WellTyped(c: Config) {
    && "include_file_extensions" in c && c["include_file_extensions"].Exts?
    && "include_tests" in c && c["include_tests"].Flag?
    && ("root_dir" in c ==> c["root_dir"].PathValue?)
  }

  // ---------------------------------------------------------------------------
  // Properties
  // ---------------------------------------------------------------------------

  /** ".env" is allowed, so `.env` files reach the redaction branch of the filter. */
  lemma EnvAllowed()
    ensures ".env" in GetConfig()["include_file_extensions"].exts
    ensures WellTyped(GetConfig())
  {
    assert DefaultExtensions[14] == ".env";
  }

  /** ".d.ts" adds nothing to the allow-list: every such path already ends with ".ts". */
  lemma DtsRedundant(p: string)
    requires EndsWith(p, ".d.ts")
    ensures EndsWith(p, ".ts") && ".ts" in DefaultExtensions
  {
    assert p[|p| - 3..] == p[|p| - 5..][2..];
    assert DefaultExtensions[12] == ".ts";
  }

  /** Setting a key on the copy leaves the defaults as they were. */
  lemma CopyIsIndependent(k: string, v: ConfigValue)
    ensures var c := GetConfig()[k := v];
            c[k] == v && DefaultConfig == GetConfig()
            && forall k' :: k' in DefaultConfig && k' != k ==> c[k'] == DefaultConfig[k']
  {
  }
}
