# progga, modelled in Dafny

progga walks a project directory and writes one Markdown document. The document has four parts:

- a header naming the project;
- a folder tree drawn with box-drawing connectors, with `(empty)` markers;
- one fenced block per text file, tagged with a language taken from the file's extension;
- separators between the parts.

A *profile* decides what is skipped:

- a list of path segments to ignore;
- a list of extensions to ignore;
- a list of extensions that mark a file as binary.

The profiles are the base `ProjectProfile`, the `GenericProfile` and `FlutterProfile` presets, and `ProfileRegistry`, which resolves a preset name given on the command line.

This project models that engine and the profile layer, and proves what they promise.

The file system is a value (`FileSystem.Node`) with five kinds of entry:

- `File(name, bytes)`;
- `Dir(name, children)`, with the children in `readdir` order;
- `LockedDir(name)`: stat succeeds, listing fails;
- `LockedFile(name, size)`: stat succeeds, opening fails;
- `Dangling(name)`: stat fails.

A path is the sequence of its segments below the project root. Every `fs` call of the engine becomes a lookup in that value, and every `catch` becomes a branch on the kind of entry.

Where the program updates state step by step, the model is imperative and is proved against a function:

- `generateTree`, `collectFiles`, `isBinaryFile`, the output assembly of `generateDocumentation`, `main`'s argument loop and `ProjectProfile.applyCliIgnores` are Dafny methods with loops.
- `ProjectProfile` is a class whose fields hold the lists that `applyCliIgnores` fills.
- `shouldIgnore`, `path.extname`, `getLanguageFromExtension`, `readFileContent` and the preset tables are functions and constants.

Modules, one file each:

| file | module | models |
|---|---|---|
| filesystem.dfy | FileSystem | the directory tree, paths, lookup |
| sorting.dfy | Sorting | stable sort and character-wise string order (`Array.prototype.sort`) |
| extname.dfy | PathExt | `path.extname` |
| rules.dfy | EngineRules | the three lists a profile hands to the engine |
| project_profile.dfy | ProjectProfile | `ProjectProfile` and the overridden getters of the presets |
| generic_profile.dfy | GenericProfile | the `GenericProfile` tables |
| flutter_profile.dfy | FlutterProfile | the `FlutterProfile` tables |
| registry.dfy | Registry | `ProfileRegistry` |
| presets.dfy | Presets | what the preset tables imply for the engine |
| ignore.dfy | Ignore | `shouldIgnore`, `isDirectoryEmpty` |
| tree.dfy | Tree | `generateTree` |
| binary.dfy | Binary | `isBinaryFile` |
| collect.dfy | Collect | `collectFiles` |
| language.dfy | Language | `getLanguageFromExtension` |
| document.dfy | Document | `readFileContent`, `generateDocumentation` |
| cli.dfy | Cli | `main` |

## Model

| member | source | states |
|---|---|---|
| PathExt.LastDot | index.js:28 | the index found is a '.' with no '.' after it; -1 exactly when there is no '.' |
| PathExt.Extname | index.js:28 | `path.extname`: empty iff the name is ".." or has no '.' after its first character; otherwise the suffix from the last '.' on, which holds no other '.' |
| PathExt.ExtnameEdges | index.js:28 | ".env" and "Makefile" have no extension; "a." has the extension "." |
| PathExt.ExtnameLastDotWins | index.js:28 | the last dot decides: "archive.tar.gz" has the extension ".gz" |
| PathExt.ExtnameOfDottedDotfile | index.js:28 | a leading dot is skipped only as the last dot: ".a.b" has the extension ".b" |
| Ignore.SegmentIgnored | index.js:22-26 | true iff some segment of the relative path is an entry of `ignorePaths()` |
| Ignore.ShouldIgnore | index.js:18-34 | ignored iff some segment is in `ignorePaths()` or the extension of the last segment is in `ignoreExtensions()` |
| Ignore.IgnoredSegmentCoversDescendants | index.js:22-26 | a path ignored through a segment stays ignored with any segments appended below it |
| Ignore.SlashEntriesNeverMatch | index.js:22-26 | entries holding '/' never match a segment: dropping them from `ignorePaths()` changes no verdict |
| Ignore.KeptItems | index.js:44 | the filter `isDirectoryEmpty` runs: without a profile it throws iff there is an entry to test; with one it keeps exactly the entries that are not ignored |
| Ignore.Names | index.js:41 | the listing of a directory is the names of its children, in order |
| Ignore.IsDirectoryEmptyIff | index.js:39-50 | `isDirectoryEmpty` (which calls `shouldIgnore` without a profile, so its exception is caught) holds iff the entry is a readable directory with no entries at all |
| Tree.LowerFolds | index.js:74-75 | lower-casing keeps the length, leaves no ASCII capital, moves each capital to the small letter at the same place in the alphabet, keeps every other character, and is idempotent |
| Tree.BeforeIsTotalPreorder | index.js:73-76 | the comparator (directories first, then by lower-cased name) is a total preorder whenever the name collation is |
| Tree.Visible | index.js:70 | the filter keeps exactly the children that are not ignored, each no more often than it occurs among the children |
| Tree.Listing | index.js:63-76 | the sorted listing only holds children of the directory, and is a permutation of the filtered children |
| Tree.ListingStable | index.js:73-76 | entries the comparator ranks equal are drawn in the order the directory listing gave them |
| Tree.NothingVisible | index.js:70 | when every entry is ignored, the filter keeps none |
| Tree.ListingMembers | index.js:69-76 | the drawn listing holds exactly the children that are not ignored |
| Tree.ListingOrdered | index.js:73-76 | in the drawn listing every directory precedes every file, and each group is ordered by the lower-cased name |
| Tree.ListingSpec | index.js:63-76 | both facts above together: membership and order of the drawn listing |
| Tree.GenerateTree | index.js:55-109 | the method's lines are `TreeLines`: one line block per listed entry, in listing order, and no lines when listing or a stat fails |
| Tree.DrawEntry | index.js:79-102 | the method draws one entry as `EntryLines`: its own line, then the subtree of a non-empty directory |
| Tree.TreeLinesPrefixed | index.js:78-103 | every line drawn for a directory begins with the prefix handed in |
| Tree.DrawnPrefixed | index.js:78-103 | the same for the lines of the first n listed entries |
| Tree.EntryShape | index.js:78-103 | an entry's first line is prefix + corner (last) or tee (others) + name + marker; the lines below it exist only for a non-empty directory and begin with prefix + four spaces (last) or prefix + bar and three spaces (others) |
| Tree.MarkerIff | index.js:86-101 | a directory is marked "/ (empty)" iff it has no raw entries, otherwise "/"; a file is marked " (empty)" iff its size is zero, otherwise nothing |
| Tree.AllIgnoredDirRendersBare | index.js:39-50 | a directory whose entries are all ignored is drawn as `name/` with no line below it |
| Tree.NoLinesOnError | index.js:62-67 | a directory that cannot be listed, or that holds an entry whose stat fails, yields no lines |
| Binary.Sniffed | index.js:121-124 | the bytes read are the first min(size, 1024) bytes of the file |
| Binary.ReadSync | index.js:121-124 | `fs.readSync` into the 1024-byte buffer returns the count read and fills the buffer's start with exactly those bytes, leaving the rest of the buffer as it was |
| Binary.IsBinaryFile | index.js:114-134 | the scan agrees with `IsBinary`: a binary extension, a zero byte among the bytes read, or a failed read |
| Binary.BytesPastSniffIgnored | index.js:121-128 | bytes past the first 1024 never change the verdict |
| Binary.ShortFileScannedWhole | index.js:114-128 | a file of at most 1024 bytes is binary iff its extension is listed or it holds a zero byte anywhere |
| Binary.EmptyFileIsText | index.js:114-128 | an empty file whose extension is not listed as binary is text |
| Binary.LockedFileIsBinary | index.js:129-131 | a file that cannot be opened counts as binary |
| Collect.ByName | index.js:201 | `items.sort()` is a permutation of the listing |
| Collect.WalkEnd | index.js:204-216 | the walk stops at the first entry whose stat fails and is not ignored, and only there |
| Collect.CollectFiles | index.js:195-219 | the method's result is `CollectFrom`: files and subdirectory results spliced in sorted-name order, up to the first failing stat |
| Collect.CollectEntry | index.js:202-214 | one pass of the loop: it stops the walk iff the entry is not ignored and its stat fails; otherwise the entry adds itself if it is a text regular file, its collected files if it is a directory, and nothing if it is ignored or anything else |
| Collect.GatheredOrigin | index.js:201-215 | every path gathered from a listing comes from one of its entries |
| Collect.EntryFilesCases | index.js:204-214 | a path contributed by an entry comes from a non-ignored entry: the entry itself if it is a text file, a path collected below it if it is a directory |
| Collect.CollectSound | index.js:195-219 | every collected path lies below the start and names a non-ignored, non-binary regular file reached through non-ignored directories |
| Collect.EntrySound | index.js:204-214 | the same for the paths contributed by one entry |
| Collect.CollectibleFromChild | index.js:204-214 | a collectible path below a non-ignored child is collectible from its parent |
| Collect.CollectibleChild | index.js:204-214 | a collectible path descends through a non-ignored child: a text file at the end, directories on the way |
| Collect.GatheredIncludes | index.js:201-215 | the paths contributed by any entry before the stopping point are among the gathered ones |
| Collect.EntryFilesIncludes | index.js:206-214 | a text file, or a path collected below a directory, is contributed by that entry |
| Collect.ChildFilesCollected | index.js:201-215 | in a tree where every stat succeeds, what any child contributes is collected from the parent |
| Collect.CollectComplete | index.js:195-219 | in such a tree, every collectible file is collected |
| Collect.CollectExactly | index.js:195-219 | in such a tree, the collected paths are exactly the collectible files below the start |
| Collect.CollectAscending | index.js:195-219 | with distinct names in each directory, the collected paths ascend in depth-first sorted-name order and hold no duplicates |
| Collect.GatheredAscending | index.js:201-215 | the gathered paths of a strictly ascending listing ascend |
| Collect.EntryAscending | index.js:206-214 | the paths one entry contributes ascend |
| Collect.ByNameStrictlyAscending | index.js:201 | sorting distinct names puts them in strictly ascending order |
| Collect.AscendingHasNoDuplicates | index.js:195-219 | an ascending list of paths has no duplicates |
| Collect.EntryPrefix | index.js:202 | every path an entry contributes starts with the entry's own path |
| Sorting.Insert | index.js:201 | inserting adds exactly the one element |
| Sorting.Sort | index.js:73-76 | sorting is a permutation |
| Sorting.SortOrdered | index.js:73-76 | sorting by a total preorder yields an ordered sequence |
| Sorting.InsertOrdered | index.js:73-76 | inserting into an ordered sequence keeps it ordered |
| Sorting.SortKeepsPairwise | index.js:201 | a symmetric relation holding between all pairs still holds after sorting |
| Sorting.InsertKeepsPairwise | index.js:201 | the same for one insertion |
| Sorting.SortStable | index.js:73-76 | the sort is stable: the elements ranked equal to any given one appear in the output in their input order |
| Sorting.InsertStable | index.js:73-76 | inserting an element puts it before every element already present that ranks equal to it |
| Sorting.StrLeTotal | index.js:201 | the default string order is total |
| Sorting.StrLeTransitive | index.js:201 | the default string order is transitive |
| Sorting.StrLeAntisymmetric | index.js:201 | the default string order is antisymmetric |
| Language.LanguageIsATag | index.js:162-190 | the result is either the empty string or one of the table's language tags |
| Language.SameExtensionSameLanguage | index.js:188-189 | the language depends on the extension alone: two names with the same extension get the same language |
| Language.UnknownIffEmpty | index.js:188-189 | the language is empty iff the extension is not in the table |
| Language.Synonyms | index.js:174-177 | ".yml" and ".yaml" both give "yaml"; ".sh" and ".bash" both give "bash" |
| Language.DotfileHasNoLanguage | index.js:188-189 | a dotfile with no further dot has no language |
| Document.WithNewline | index.js:287-290 | the content, then a newline iff it did not already end with one: the result ends with a newline and starts with the content |
| Document.ReadFailureBracketed | index.js:147-156 | when the read fails and no latin1 retry succeeds, the text starts with "[Error: " and ends with "]" |
| Document.CollectedFileContent | index.js:139-146 | a collected file is found at its path and holds no zero byte in its first 1024 bytes; its content is "(empty file)" when it is empty and its decoded bytes otherwise, never an error |
| Document.LookupCollectible | index.js:195-219 | a collectible path resolves to a text regular file |
| Document.TextIsOpenFile | index.js:114-134 | a regular file that is not binary opened and has no zero byte among the bytes read |
| Document.GenerateDocumentation | index.js:224-300 | no document iff the root does not exist; otherwise the output is `Documentation`: header, tree, one block per collected file |
| Document.WriteOverview | index.js:245-270 | the method writes the header, the fenced tree starting with `projectName/` and the contents heading |
| Document.WriteFileBlocks | index.js:276-293 | the loop appends one block per collected file, in order |
| Document.WriteFileBlock | index.js:277-292 | one iteration appends that file's block to the output |
| Document.WithLinesExtends | index.js:262-264 | writing tree lines only appends to the output |
| Document.LineWritten | index.js:262-264 | tree line i is written on a line of its own after lines 0 to i-1 |
| Document.WithBlocksExtends | index.js:276-293 | writing file blocks only appends to the output |
| Document.BlockWritten | index.js:276-293 | block i is written right after blocks 0 to i-1 |
| Document.OverviewOpens | index.js:249-256 | the overview starts with the header and the tree fence opening with `projectName/` |
| Document.DocumentOpening | index.js:249-256 | so does the whole document |
| Document.TreeLineInDocument | index.js:259-270 | every tree line appears, in order and newline-terminated, before the contents heading |
| Document.FileInDocument | index.js:273-293 | every collected file's block appears after the overview, in collection order |
| ProjectProfile.Profile.constructor | profiles/ProjectProfile.js:2-6 | a new profile stores its project root and starts with empty CLI lists |
| ProjectProfile.Profile.ApplyCliIgnores | profiles/ProjectProfile.js:8-16 | the dotted items are appended to the extensions, the others to the paths, in input order; the project root is unchanged |
| ProjectProfile.FiltersMembers | profiles/ProjectProfile.js:10-14 | an item reaches the extensions iff it starts with '.', the paths iff it does not |
| ProjectProfile.CliItemsPartitioned | profiles/ProjectProfile.js:8-16 | each item lands in exactly one list: together the two parts are the input as a multiset, and the lengths add up |
| ProjectProfile.FiltersSnoc | profiles/ProjectProfile.js:9-14 | one more item grows exactly one of the two parts |
| ProjectProfile.DottedNameIsAnExtension | profiles/ProjectProfile.js:10-11 | a dotted name such as ".git" is recorded as an extension, never as a path |
| ProjectProfile.BaseGetters | profiles/ProjectProfile.js:18-40 | the base profile is named "base", never detects, ignores exactly its CLI lists and has no binary extensions |
| ProjectProfile.PresetsDiscardCliIgnores | profiles/GenericProfile.js:4-50 | a preset's name and lists are its constants whatever the CLI lists hold; Flutter's binary list is its ignored-extension list |
| GenericProfile.ListSizes | profiles/GenericProfile.js:8-50 | 19 ignored paths, 6 ignored extensions, 18 binary extensions |
| GenericProfile.ExtensionListsDisjoint | profiles/GenericProfile.js:32-49 | no extension is both ignored and binary |
| GenericProfile.IgnorePathsAreSegments | profiles/GenericProfile.js:9-28 | no ignored path holds a '/' |
| GenericProfile.ExtensionsStartWithDot | profiles/GenericProfile.js:33-48 | every extension entry starts with '.' and has more after it |
| FlutterProfile.SegmentEntriesAreTheSlashFreeOnes | profiles/FlutterProfile.js:8-43 | the entries that can match a segment are exactly those without '/' |
| FlutterProfile.SegmentEntriesAreEntries | profiles/FlutterProfile.js:8-43 | each such entry is in the list and holds no '/' |
| FlutterProfile.SlashFreeEntriesAreSegments | profiles/FlutterProfile.js:8-43 | each entry without '/' is such an entry |
| FlutterProfile.ExtensionsStartWithDot | profiles/FlutterProfile.js:46-57 | every extension entry starts with '.' and has more after it |
| Presets.GenericBinaryListedNotEmbedded | profiles/GenericProfile.js:32-49 | under the generic preset a file such as `logo.png` is not ignored, so it is drawn in the tree, but it is binary, so it is never collected |
| Presets.FlutterBinaryAlreadyIgnored | profiles/FlutterProfile.js:60-62 | under the Flutter preset every file with a binary extension is already ignored |
| Presets.IgnoredBrokenEntryHidesTree | index.js:63-70 | with a dangling, ignored `.env` beside `src/app.py`, the stat before the filter empties the tree, while the collector, which checks the ignore list first (index.js:204), still returns `src/app.py` |
| Presets.FlutterSegmentsDecide | profiles/FlutterProfile.js:17-35 | entries with '/' never decide: a path is ignored iff a slash-free entry matches a segment or its extension is ignored |
| Registry.RegistryKind | profiles/ProfileRegistry.js:4-12 | a preset exists iff the name is "generic", and it is the generic one |
| Registry.NeverFlutter | profiles/ProfileRegistry.js:4-12 | no name, "flutter" included, yields the Flutter preset |
| Registry.GetByName | profiles/ProfileRegistry.js:4-12 | null for a missing or empty name and any name but "generic"; otherwise a fresh generic profile on the given root with empty CLI lists |
| Registry.Fallback | profiles/ProfileRegistry.js:14-16 | always a fresh generic profile on the given root with empty CLI lists |
| Cli.ParseArgs | index.js:303-321 | the path and output file keep their defaults; the preset is `PresetFrom`: the word after the last flag that is read as a flag |
| Cli.FlagFreeKeeps | index.js:309-320 | arguments without a flag leave the preset as it is |
| Cli.FlagFreeSkipped | index.js:309-320 | a flag-free stretch of arguments can be skipped |
| Cli.NoFlagNoPreset | index.js:306-321 | with no flag there is no preset |
| Cli.PresetNamed | index.js:312-314 | with exactly one flag, the word after it is the preset, whatever it is |
| Cli.TrailingFlagSelectsNothing | index.js:312-314 | a flag at the very end selects no preset |
| Cli.ResolveProfile | index.js:323-343 | resolution always ends on a fresh generic profile on the project path with empty CLI lists |
| Cli.Run | index.js:303-347 | the output file is the default one; no document iff the root does not exist; otherwise the document is built with the generic preset's lists |

## Left out

- Writing the output file, deleting an existing one, console output, the spinner, `process.exit` and telemetry are left out. `GenerateDocumentation` returns the document, or `None` where the program exits.
- `path.resolve` and `path.basename` are left out. The absolute path is a parameter, and the project name is the root entry's name.
- The existence check is modelled as "the root is not a `Dangling` entry".
- UTF-8 and latin1 decoding are parameters of the model: `decode` maps bytes to text, and `latin1` is the retry's result. The message of a failed read is the `failure` parameter. Which message contains "invalid" depends on Node's decoder, so the model does not fix it.
- `localeCompare` is the `collate` parameter. The ordering lemmas require it to be a total preorder.
- `toLowerCase` is modelled for ASCII letters only. Other characters keep their case.
- JavaScript compares strings by UTF-16 code units. The model compares Dafny characters (Unicode scalar values), which agree with it outside the supplementary planes.
- `stats.size` of a directory is taken to be non-zero. So `readFileContent` on a directory never gives "(empty file)". No collected path names a directory, so this does not reach the document.
- The unused `isLast` parameter of `generateTree` is not modelled.
- The box-drawing characters and emoji headings are used as the intended characters (└── ├── │ and the folder and page emoji), not the mis-encoded bytes that appear in the source text.
- Some loop bodies are separate methods, each proved against the same function as its loop: `Tree.DrawEntry`, `Collect.CollectEntry`, `Document.WriteOverview`, `Document.WriteFileBlocks` and `Document.WriteFileBlock`. `WriteFileBlock` appends each piece of a file's block to the output in turn, in the order the loop body does.
- `ProjectTypeDetector` is the boolean `flutterDetected`, `process.stdin.isTTY` is the boolean `isTTY`, and the answer of `PresetSelector` is the string `selected`. Profile resolution ends on the generic preset whatever these inputs are.
- `main` never calls `applyCliIgnores`, and the presets ignore the CLI lists anyway. So `Cli.Run` runs the engine with the generic preset's lists.
- Cli.ParseArgs: the positional branches are kept but can never run, because the path and output file start non-empty. So only the preset flag is modelled as having an effect.
- Binary.IsBinaryFile: a read that fails after opening cannot be expressed by the file datatype. The model only has files that open and read fully, and files that cannot be opened.
- Tree.ListingOrdered and Collect.CollectAscending: they require a total-preorder collation and distinct names in each directory, as a real file system provides.
- `FileSystem.Node` has no kind for FIFOs, sockets or devices, and no symbolic links, so no cycles. On a real file system such an entry is drawn in the tree but is neither a file nor a directory to the collector, which skips it. In the model the corresponding branches (the last case of `Collect.CollectEntry`, the `else []` of `Collect.EntryFiles`) cannot be reached.
- Collect.CollectExactly: it holds for trees where every stat succeeds. Where one fails, `Collect.WalkEnd` describes the stopping point instead.

## Notes on behaviour

- A directory whose entries are all ignored is drawn as `name/` with no lines below it, not as `name/ (empty)`. `isDirectoryEmpty` calls `shouldIgnore` without a profile; the call throws, and the catch returns false. See `Tree.AllIgnoredDirRendersBare`.
- The tree and the collector treat a broken entry differently. `generateTree` stats every entry before it filters the ignored ones (index.js:63-70), so one entry whose stat fails empties that whole directory's listing, ignored or not. `collectFiles` checks the ignore list before it stats (index.js:204), so an ignored broken entry is harmless there. For a project holding a dangling `.env` link and `src/app.py`, the tree is empty and the collector still returns `src/app.py`: see `Presets.IgnoredBrokenEntryHidesTree`.
- `dist` is in the generic preset's ignored paths, so a `dist` directory does not appear in the tree at all.
- `ProfileRegistry.getByName` only knows "generic". Asking for "flutter", on the command line or through the prompt, ends on the generic preset.
