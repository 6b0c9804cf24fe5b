/** What the engine reads from a profile. */
module EngineRules {

  /**
   * The three lists `shouldIgnore` and `isBinaryFile` ask a profile for; the
   * profile does not change while the documentation is generated.
   */
  datatype Rules = Rules(ignorePaths: seq<string>, ignoreExtensions: seq<string>, binaryExtensions: seq<string>)
}
