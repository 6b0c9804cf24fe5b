/** `getLanguageFromExtension`: the info string of a file's fenced block. */
module Language {
  import opened PathExt

  /** The closed table from extension to the markdown language identifier. */
  const LanguageTable: map<string, string> := map[
    ".py" := "python", ".js" := "javascript", ".jsx" := "jsx",
    ".ts" := "typescript", ".tsx" := "tsx", ".html" := "html",
    ".css" := "css", ".scss" := "scss", ".json" := "json",
    ".md" := "markdown", ".yml" := "yaml", ".yaml" := "yaml",
    ".sh" := "bash", ".bash" := "bash", ".sql" := "sql",
    ".java" := "java", ".cpp" := "cpp", ".c" := "c",
    ".go" := "go", ".rs" := "rust", ".rb" := "ruby", ".php" := "php"
  ]

  /**
   * The identifier for the file `name`, or "" when its extension is not in
   * the table. Every key starts with '.', and no property inherited by a
   * JavaScript object does, so the lookup sees the table's own entries only.
   */
  function LanguageOf(name: string): (language: string)
    ensures Extname(name) in LanguageTable ==> language == LanguageTable[Extname(name)]
    ensures Extname(name) !in LanguageTable ==> language == ""
  {
    var ext := Extname(name);
    if ext in LanguageTable then LanguageTable[ext] else ""
  }

  /** No table entry is empty, so "" means exactly that the extension is unknown. */
  lemma UnknownIffEmpty(name: string)
    ensures LanguageOf(name) == "" <==> Extname(name) !in LanguageTable
  {
    var ext := Extname(name);
    if ext in LanguageTable {
      assert LanguageTable[ext] in LanguageTable.Values;
      assert forall v :: v in LanguageTable.Values ==> |v| > 0;
    }
  }

  /** The identifier is either empty or one of the table's identifiers. */
  lemma LanguageIsATag(name: string)
    ensures LanguageOf(name) == "" || LanguageOf(name) in LanguageTable.Values
  {
    if Extname(name) in LanguageTable {
      assert LanguageTable[Extname(name)] in LanguageTable.Values;
    }
  }

  /** The identifier depends on the extension alone. */
  lemma SameExtensionSameLanguage(a: string, b: string)
    requires Extname(a) == Extname(b)
    ensures LanguageOf(a) == LanguageOf(b)
  {
  }

  /** `.yml` and `.yaml` are both YAML, `.sh` and `.bash` both Bash. */
  lemma Synonyms(name: string)
    ensures Extname(name) == ".yml" || Extname(name) == ".yaml" ==> LanguageOf(name) == "yaml"
    ensures Extname(name) == ".sh" || Extname(name) == ".bash" ==> LanguageOf(name) == "bash"
  {
  }

  /** A dotfile such as `.bashrc` has no extension, so it gets no language. */
  lemma DotfileHasNoLanguage(rest: string)
    requires forall k :: 0 <= k < |rest| ==> rest[k] != '.'
    ensures LanguageOf("." + rest) == ""
  {
    assert forall k :: 0 < k < |"." + rest| ==> ("." + rest)[k] == rest[k - 1];
  }
}
