/**
 * `readFileContent` and `generateDocumentation`: the markdown document made
 * of a header, the folder tree in a fenced block, and one fenced block per
 * collected file.
 */
module Document {
  import opened FileSystem
  import opened EngineRules
  import opened Tree
  import opened Collect
  import opened Binary
  import opened Language

  const EmptyFile := "(empty file)"
  const Unreadable := "[Error: Unable to read file]"
  const Fence := "```"
  const Rule := "---\n\n"
  const StructureHeading := "## \U{1F4C1} Folder Structure\n\n"
  const ContentsHeading := "## \U{1F4C4} File Contents\n\n"

  /** `s.endsWith('\n')` */
  predicate EndsWithNewline(s: string) {
    |s| > 0 && s[|s| - 1] == '\n'
  }

  /** `s.includes(word)`: `word` occurs in `s` at some position. */
  predicate Mentions(s: string, word: string)
    decreases |s|
  {
    IsPrefix(word, s) || (|s| > 0 && Mentions(s[1..], word))
  }

  /** A file's content as it is written into its block: with a final newline added only when missing. */
  function WithNewline(content: string): (r: string)
    ensures EndsWithNewline(r)
    ensures IsPrefix(content, r) && |r| <= |content| + 1
    ensures r == content <==> EndsWithNewline(content)
  {
    if EndsWithNewline(content) then content else content + "\n"
  }

  /**
   * `readFileContent` for the entry `found` at a path (`None` when nothing is
   * there). `decode` is the UTF-8 reading of a file's bytes; `failure` is the
   * message of the error the read throws; `latin1` is what the retry with the
   * latin1 encoding returns, `None` when it throws too. A directory is taken
   * to have a non-zero `stats.size`.
   */
  function ReadFileContent(found: Option<Node>, decode: seq<byte> -> string, failure: string,
                           latin1: Option<string>): string
  {
    if found.Some? && IsRegularFile(found.value) && Size(found.value) == 0 then EmptyFile
    else if found.Some? && found.value.File? then decode(found.value.bytes)
    else if Mentions(failure, "invalid") then
      if latin1.Some? then latin1.value else Unreadable
    else "[Error: " + failure + "]"
  }

  /** `path.relative(root, filePath)`: the segments joined by '/'. */
  function JoinPath(p: Path): string
  {
    if |p| <= 1 then (if p == [] then "" else p[0])
    else JoinPath(p[..|p| - 1]) + "/" + p[|p| - 1]
  }

  /** The last segment of a path, whose extension `path.extname` takes. */
  function BaseName(p: Path): string {
    if p == [] then "" else p[|p| - 1]
  }

  /** Everything written before the first line of the tree. */
  function Opening(projectName: string, absPath: string): string {
    "# Project Documentation: " + projectName + "\n\n"
    + "**Generated from:** `" + absPath + "`\n\n"
    + Rule + StructureHeading + Fence + "\n" + projectName + "/\n"
  }

  /** `acc` followed by the first `n` lines, each ended by a newline. */
  function WithLines(acc: string, lines: seq<string>, n: nat): string
    requires n <= |lines|
  {
    if n == 0 then acc else WithLines(acc, lines, n - 1) + (lines[n - 1] + "\n")
  }

  /** The section of one file: its heading, then its content fenced and tagged with its language. */
  function FileBlock(relPath: string, content: string, language: string): string {
    "### `" + relPath + "`\n\n" + Fence + language + "\n" + WithNewline(content) + Fence + "\n\n" + Rule
  }

  /** The block written for the collected path `p`. */
  function BlockOf(root: Node, p: Path, decode: seq<byte> -> string, failure: Path -> string,
                   latin1: Path -> Option<string>): string
  {
    FileBlock(JoinPath(p), ReadFileContent(Lookup(root, p), decode, failure(p), latin1(p)),
              LanguageOf(BaseName(p)))
  }

  /** `acc` followed by the blocks of the first `n` files, `block` giving each file's block. */
  function WithBlocks(acc: string, files: seq<Path>, n: nat, block: Path -> string): string
    requires n <= |files|
  {
    if n == 0 then acc else WithBlocks(acc, files, n - 1, block) + block(files[n - 1])
  }

  /** The header and the folder tree, up to the heading of the file contents. */
  function Overview(root: Node, absPath: string, rules: Rules, collate: Collation): string {
    var lines := TreeLines(root, [], "", rules, collate);
    WithLines(Opening(root.name, absPath), lines, |lines|) + Fence + "\n\n" + Rule + ContentsHeading
  }

  /** The document generated for the project whose root entry is `root`. */
  function Documentation(root: Node, absPath: string, rules: Rules, collate: Collation, decode: seq<byte> -> string,
                         failure: Path -> string, latin1: Path -> Option<string>): string
  {
    var files := CollectFrom(root, [], rules);
    WithBlocks(Overview(root, absPath, rules, collate), files, |files|, p => BlockOf(root, p, decode, failure, latin1))
  }

  /**
   * `generateDocumentation`: `None` when the project path does not exist
   * (the program exits), otherwise the text written to the output file.
   */
  method GenerateDocumentation(root: Node, absPath: string, rules: Rules, collate: Collation,
                               decode: seq<byte> -> string, failure: Path -> string,
                               latin1: Path -> Option<string>)
    returns (result: Option<string>)
    ensures result.None? <==> root.Dangling?
    ensures result.Some? ==> result.value == Documentation(root, absPath, rules, collate, decode, failure, latin1)
  {
    if root.Dangling? {
      return None;
    }
    var output := WriteOverview(root, absPath, rules, collate);
    var files := CollectFiles(root, [], rules);
    output := WriteFileBlocks(output, root, files, decode, failure, latin1);
    return Some(output);
  }

  /** The loop of `generateDocumentation` over the collected files: one block each, in order. */
  method WriteFileBlocks(start: string, root: Node, files: seq<Path>, decode: seq<byte> -> string,
                         failure: Path -> string, latin1: Path -> Option<string>)
    returns (output: string)
    ensures output == WithBlocks(start, files, |files|, p => BlockOf(root, p, decode, failure, latin1))
  {
    output := start;
    ghost var block := p => BlockOf(root, p, decode, failure, latin1);
    for i := 0 to |files|
      invariant output == WithBlocks(start, files, i, block)
    {
      output := WriteFileBlock(output, root, files[i], decode, failure, latin1);
    }
  }

  /** The first part of `generateDocumentation`: the header, then the tree in a fenced block. */
  method WriteOverview(root: Node, absPath: string, rules: Rules, collate: Collation) returns (output: string)
    ensures output == Overview(root, absPath, rules, collate)
  {
    var projectName := root.name;
    output := "# Project Documentation: " + projectName + "\n\n";
    output := output + "**Generated from:** `" + absPath + "`\n\n";
    output := output + Rule;
    output := output + StructureHeading;
    output := output + Fence + "\n";
    output := output + projectName + "/\n";

    var treeLines := GenerateTree(root, [], "", rules, collate);
    for i := 0 to |treeLines|
      invariant output == WithLines(Opening(projectName, absPath), treeLines, i)
    {
      output := output + (treeLines[i] + "\n");
    }

    output := output + Fence + "\n\n";
    output := output + Rule;
    output := output + ContentsHeading;
  }

  /** One turn of the loop over the collected files: appends the block of `filePath` to `output`. */
  method WriteFileBlock(output: string, root: Node, filePath: Path, decode: seq<byte> -> string,
                        failure: Path -> string, latin1: Path -> Option<string>)
    returns (written: string)
    ensures written == output + BlockOf(root, filePath, decode, failure, latin1)
  {
    var relPath := JoinPath(filePath);
    written := output + "### `" + relPath + "`\n\n";
    var content := ReadFileContent(Lookup(root, filePath), decode, failure(filePath), latin1(filePath));
    var language := LanguageOf(BaseName(filePath));
    written := written + Fence + language + "\n";
    ghost var head := written;
    written := written + content;
    if !EndsWithNewline(content) {
      ConcatAssoc(head, content, "\n");
      written := written + "\n";
    }
    assert written == head + WithNewline(content);
    written := written + Fence + "\n\n";
    written := written + Rule;
    BlockAppended(output, relPath, content, language);
  }

  /** Writing a block piece by piece appends exactly that block. */
  lemma BlockAppended(acc: string, relPath: string, content: string, language: string)
    ensures acc + "### `" + relPath + "`\n\n" + Fence + language + "\n" + WithNewline(content) + Fence + "\n\n" + Rule
            == acc + FileBlock(relPath, content, language)
  {
  }

  /** Appending keeps a prefix a prefix. */
  lemma PrefixOfConcat(a: string, b: string, c: string)
    requires IsPrefix(a, b)
    ensures IsPrefix(a, b + c)
  {
    assert (b + c)[..|a|] == b[..|a|];
  }

  lemma {:induction false} WithLinesExtends(acc: string, lines: seq<string>, n: nat)
    requires n <= |lines|
    ensures IsPrefix(acc, WithLines(acc, lines, n))
  {
    if n > 0 {
      WithLinesExtends(acc, lines, n - 1);
      PrefixOfConcat(acc, WithLines(acc, lines, n - 1), lines[n - 1] + "\n");
    }
  }

  /** Line `i` is written right after the lines before it, and nothing later rewrites it. */
  lemma {:induction false} LineWritten(acc: string, lines: seq<string>, i: nat, n: nat)
    requires i < n <= |lines|
    ensures IsPrefix(WithLines(acc, lines, i) + (lines[i] + "\n"), WithLines(acc, lines, n))
  {
    if i < n - 1 {
      LineWritten(acc, lines, i, n - 1);
      PrefixOfConcat(WithLines(acc, lines, i) + (lines[i] + "\n"), WithLines(acc, lines, n - 1), lines[n - 1] + "\n");
    }
  }

  lemma {:induction false} WithBlocksExtends(acc: string, files: seq<Path>, n: nat, block: Path -> string)
    requires n <= |files|
    ensures IsPrefix(acc, WithBlocks(acc, files, n, block))
  {
    if n > 0 {
      WithBlocksExtends(acc, files, n - 1, block);
      PrefixOfConcat(acc, WithBlocks(acc, files, n - 1, block), block(files[n - 1]));
    }
  }

  lemma {:induction false} BlockWritten(acc: string, files: seq<Path>, i: nat, n: nat, block: Path -> string)
    requires i < n <= |files|
    ensures IsPrefix(WithBlocks(acc, files, i, block) + block(files[i]), WithBlocks(acc, files, n, block))
  {
    if i < n - 1 {
      BlockWritten(acc, files, i, n - 1, block);
      PrefixOfConcat(WithBlocks(acc, files, i, block) + block(files[i]), WithBlocks(acc, files, n - 1, block), block(files[n - 1]));
    }
  }

  /** The overview starts with the opening. */
  lemma OverviewOpens(root: Node, absPath: string, rules: Rules, collate: Collation)
    ensures IsPrefix(Opening(root.name, absPath), Overview(root, absPath, rules, collate))
  {
    var lines := TreeLines(root, [], "", rules, collate);
    var opening := Opening(root.name, absPath);
    var written := WithLines(opening, lines, |lines|);
    WithLinesExtends(opening, lines, |lines|);
    PrefixOfConcat(opening, written, Fence);
    PrefixOfConcat(opening, written + Fence, "\n\n");
    PrefixOfConcat(opening, written + Fence + "\n\n", Rule);
    PrefixOfConcat(opening, written + Fence + "\n\n" + Rule, ContentsHeading);
  }

  lemma PrefixTransitive(a: string, b: string, c: string)
    requires IsPrefix(a, b) && IsPrefix(b, c)
    ensures IsPrefix(a, c)
  {
    assert c[..|a|] == c[..|b|][..|a|];
  }

  /** The document opens with the header and the project's name above its tree. */
  lemma DocumentOpening(root: Node, absPath: string, rules: Rules, collate: Collation, decode: seq<byte> -> string,
                        failure: Path -> string, latin1: Path -> Option<string>)
    ensures IsPrefix(Opening(root.name, absPath), Documentation(root, absPath, rules, collate, decode, failure, latin1))
  {
    var files := CollectFrom(root, [], rules);
    var overview := Overview(root, absPath, rules, collate);
    OverviewOpens(root, absPath, rules, collate);
    WithBlocksExtends(overview, files, |files|, p => BlockOf(root, p, decode, failure, latin1));
    PrefixTransitive(Opening(root.name, absPath), overview, Documentation(root, absPath, rules, collate, decode, failure, latin1));
  }

  /** Every line of the tree appears in the folder section, in order, each on a line of its own. */
  lemma TreeLineInDocument(root: Node, absPath: string, rules: Rules, collate: Collation, i: nat)
    requires i < |TreeLines(root, [], "", rules, collate)|
    ensures var lines := TreeLines(root, [], "", rules, collate);
      IsPrefix(WithLines(Opening(root.name, absPath), lines, i) + (lines[i] + "\n"), Overview(root, absPath, rules, collate))
  {
    var lines := TreeLines(root, [], "", rules, collate);
    var line := WithLines(Opening(root.name, absPath), lines, i) + (lines[i] + "\n");
    var written := WithLines(Opening(root.name, absPath), lines, |lines|);
    LineWritten(Opening(root.name, absPath), lines, i, |lines|);
    PrefixOfConcat(line, written, Fence);
    PrefixOfConcat(line, written + Fence, "\n\n");
    PrefixOfConcat(line, written + Fence + "\n\n", Rule);
    PrefixOfConcat(line, written + Fence + "\n\n" + Rule, ContentsHeading);
  }

  /** Every collected file gets its block, after the tree and in the order of collection. */
  lemma FileInDocument(root: Node, absPath: string, rules: Rules, collate: Collation, decode: seq<byte> -> string,
                       failure: Path -> string, latin1: Path -> Option<string>, i: nat)
    requires i < |CollectFrom(root, [], rules)|
    ensures var files := CollectFrom(root, [], rules);
      var block := p => BlockOf(root, p, decode, failure, latin1);
      IsPrefix(WithBlocks(Overview(root, absPath, rules, collate), files, i, block) + BlockOf(root, files[i], decode, failure, latin1),
               Documentation(root, absPath, rules, collate, decode, failure, latin1))
  {
    var files := CollectFrom(root, [], rules);
    BlockWritten(Overview(root, absPath, rules, collate), files, i, |files|, p => BlockOf(root, p, decode, failure, latin1));
  }

  /** An error text is always in brackets and starts with "[Error: ". */
  lemma ReadFailureBracketed(found: Option<Node>, decode: seq<byte> -> string, failure: string)
    requires found.None? || !IsRegularFile(found.value) || (found.value.LockedFile? && found.value.size > 0)
    ensures var content := ReadFileContent(found, decode, failure, None);
      IsPrefix("[Error: ", content) && EndsWithClose(content)
  {
  }

  predicate EndsWithClose(s: string) {
    |s| > 0 && s[|s| - 1] == ']'
  }

  /** Resolving a path goes through the entry its first segment names. */
  lemma LookupStep(dir: Node, c: Node, s: Path)
    requires dir.Dir? && s != [] && c in dir.children && c.name == s[0]
    requires forall i, j :: 0 <= i < j < |dir.children| ==> dir.children[i].name != dir.children[j].name
    ensures Lookup(dir, s) == Lookup(c, s[1..])
  {
    FindDistinct(dir.children, c);
  }

  /** Following a collectible path from `dir` reaches the entry it names, a text file. */
  lemma {:induction false} LookupCollectible(dir: Node, rel: Path, s: Path, rules: Rules) returns (f: Node)
    requires DistinctNames(dir) && Collectible(dir, rel, s, rules)
    ensures Lookup(dir, s) == Some(f) && IsRegularFile(f) && !IsBinary(f, rules)
    decreases |s|
  {
    var c := CollectibleChild(dir, rel, s, rules);
    LookupStep(dir, c, s);
    if |s| == 1 {
      f := c;
    } else {
      f := LookupCollectible(c, rel + [c.name], s[1..], rules);
    }
  }

  /** A regular file that is not binary is one that opened, with no zero byte among its first 1024. */
  lemma TextIsOpenFile(f: Node, rules: Rules)
    requires IsRegularFile(f) && !IsBinary(f, rules)
    ensures f.File? && 0 !in Sniffed(f.bytes)
  {
  }

  /**
   * A collected file is found where it was collected and read as text: its
   * block holds "(empty file)" when it has no bytes and its decoded bytes
   * otherwise, never an error, and it holds no zero byte among the first
   * 1024.
   */
  lemma CollectedFileContent(root: Node, rules: Rules, p: Path, decode: seq<byte> -> string, failure: string,
                             latin1: Option<string>)
    requires DistinctNames(root) && p in CollectFrom(root, [], rules)
    ensures Lookup(root, p).Some? && Lookup(root, p).value.File?
    ensures var bytes := Lookup(root, p).value.bytes;
      && 0 !in Sniffed(bytes)
      && ReadFileContent(Lookup(root, p), decode, failure, latin1) == if bytes == [] then EmptyFile else decode(bytes)
  {
    CollectSound(root, [], rules, p);
    assert p[0..] == p;
    var f := LookupCollectible(root, [], p, rules);
    TextIsOpenFile(f, rules);
  }
}
