/** The `generic` preset: constant ignore and binary lists that override the base profile's. */
module GenericProfile {

  const Name: string := "generic"

  /** Path segments to ignore; the override ignores whatever command-line paths were recorded. */
  const IgnorePaths: seq<string> := [
    "node_modules", ".git", "__pycache__", ".vscode", "dist", "build", ".next",
    "venv", ".venv", "env", ".env", "coverage", ".pytest_cache", ".DS_Store",
    "package-lock.json", "yarn.lock", "pnpm-lock.yaml", "bun.lock", ".turbo"
  ]

  /** Extensions to ignore; the override ignores whatever command-line extensions were recorded. */
  const IgnoreExtensions: seq<string> := [".pyc", ".pyo", ".so", ".dylib", ".exe", ".dll"]

  /** Extensions classified as binary without reading the file. */
  const BinaryExtensions: seq<string> := [
    ".png", ".jpg", ".jpeg", ".gif", ".ico", ".svg",
    ".pdf", ".zip", ".tar", ".gz", ".rar",
    ".mp4", ".mp3", ".wav",
    ".woff", ".woff2", ".ttf", ".eot"
  ]

  lemma ListSizes()
    ensures |IgnorePaths| == 19 && |IgnoreExtensions| == 6 && |BinaryExtensions| == 18
  {
  }

  /** No ignored extension is also a binary one: a `.png` file is listed in the tree and never embedded. */
  lemma ExtensionListsDisjoint()
    ensures forall e :: e in IgnoreExtensions ==> e !in BinaryExtensions
  {
  }

  /** Every ignore-path entry is a single segment, so each can match a path component. */
  lemma IgnorePathsAreSegments()
    ensures forall p :: p in IgnorePaths ==> '/' !in p
  {
    forall k | 0 <= k < |IgnorePaths|
      ensures '/' !in IgnorePaths[k]
    {
    }
  }

  lemma ExtensionsStartWithDot()
    ensures forall e :: e in IgnoreExtensions + BinaryExtensions ==> |e| > 1 && e[0] == '.'
  {
  }
}
