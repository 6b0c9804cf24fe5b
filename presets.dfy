/** How the two presets' lists act on the engine. */
module Presets {
  import opened FileSystem
  import opened PathExt
  import opened EngineRules
  import opened Ignore
  import opened Binary
  import opened Tree
  import opened Collect
  import GenericProfile
  import FlutterProfile

  const GenericRules := Rules(GenericProfile.IgnorePaths, GenericProfile.IgnoreExtensions, GenericProfile.BinaryExtensions)
  const FlutterRules := Rules(FlutterProfile.IgnorePaths, FlutterProfile.IgnoreExtensions, FlutterProfile.IgnoreExtensions)

  /**
   * Under the generic preset a file with a binary extension, below no
   * ignored segment, is kept in the tree but never embedded: it is not
   * ignored, and it is binary whatever its bytes.
   */
  lemma GenericBinaryListedNotEmbedded(rel: Path, name: string, bytes: seq<byte>)
    requires forall k :: 0 <= k < |rel| ==> rel[k] !in GenericProfile.IgnorePaths
    requires name !in GenericProfile.IgnorePaths
    requires Extname(name) in GenericProfile.BinaryExtensions
    ensures !ShouldIgnore(rel + [name], GenericRules)
    ensures IsBinary(File(name, bytes), GenericRules)
  {
    GenericProfile.ExtensionListsDisjoint();
    var path := rel + [name];
    forall k | 0 <= k < |path|
      ensures path[k] !in GenericProfile.IgnorePaths
    {
      if k < |rel| {
        assert path[k] == rel[k];
      }
    }
  }

  /**
   * Under the flutter preset every extension that would make a file binary
   * already makes it ignored, so the binary check is never reached for it.
   */
  lemma FlutterBinaryAlreadyIgnored(rel: Path)
    requires |rel| > 0 && Extname(rel[|rel| - 1]) in FlutterRules.binaryExtensions
    ensures ShouldIgnore(rel, FlutterRules)
  {
  }

  /**
   * The flutter entries that span several segments ("android/build") never
   * match: on paths whose segments hold no '/', only the single-segment
   * entries decide.
   */
  lemma FlutterSegmentsDecide(rel: Path)
    requires |rel| > 0 && forall k :: 0 <= k < |rel| ==> '/' !in rel[k]
    ensures ShouldIgnore(rel, FlutterRules) <==>
      SegmentIgnored(rel, FlutterProfile.SegmentEntries) || Extname(rel[|rel| - 1]) in FlutterProfile.IgnoreExtensions
  {
    FlutterProfile.SegmentEntriesAreTheSlashFreeOnes();
    SlashEntriesNeverMatch(rel, FlutterProfile.IgnorePaths, FlutterProfile.SegmentEntries);
  }

  /**
   * The tree stats every entry before dropping the ignored ones, while the
   * walk that collects files drops them first. So a broken `.env` link,
   * ignored under the generic preset, empties the project's tree, yet the
   * files next to it are still collected and embedded.
   */
  lemma IgnoredBrokenEntryHidesTree(collate: Collation)
    ensures var root := Dir("p", [Dangling(".env"), Dir("src", [File("app.py", [65])])]);
      && TreeLines(root, [], "", GenericRules, collate) == []
      && CollectFrom(root, [], GenericRules) == [["src", "app.py"]]
  {
    var app := File("app.py", [65]);
    var root := Dir("p", [Dangling(".env"), Dir("src", [app])]);
    assert root.children[0].Dangling?;
    ExampleEnvIgnored();
    ExampleSrcKept();
    ExampleAppKept(app);
    ExampleCollected(app, GenericRules);
  }

  /** The example's collection, for any rules that drop `.env` and keep `src/app.py` as text. */
  lemma ExampleCollected(app: Node, rules: Rules)
    requires app == File("app.py", [65])
    requires ShouldIgnore([".env"], rules) && !ShouldIgnore(["src"], rules)
    requires !ShouldIgnore(["src", "app.py"], rules) && !IsBinary(app, rules)
    ensures CollectFrom(Dir("p", [Dangling(".env"), Dir("src", [app])]), [], rules) == [["src", "app.py"]]
  {
    var env := Dangling(".env");
    var src := Dir("src", [app]);
    var root := Dir("p", [env, src]);
    ExampleRootOrder(env, src);
    ExampleWalk(env, src, rules);
    ExampleGathered(root, env, src, app, rules);
  }

  lemma ExampleWalk(env: Node, src: Node, rules: Rules)
    requires env == Dangling(".env") && src.Dir? && src.name == "src"
    requires ShouldIgnore([".env"], rules)
    ensures WalkEnd([env, src], [], rules) == 2
  {
    assert [] + [env.name] == [".env"];
    var items := [env, src];
    assert items[1..] == [src] && [src][1..] == [];
    assert !StopsWalk(env, [], rules) && !StopsWalk(src, [], rules);
  }

  lemma ExampleGathered(root: Node, env: Node, src: Node, app: Node, rules: Rules)
    requires env == Dangling(".env") && src == Dir("src", [app]) && app == File("app.py", [65])
    requires root == Dir("p", [env, src])
    requires ShouldIgnore([".env"], rules) && !ShouldIgnore(["src"], rules)
    requires !ShouldIgnore(["src", "app.py"], rules) && !IsBinary(app, rules)
    ensures Gathered(root, [env, src], 2, [], rules) == [["src", "app.py"]]
  {
    assert [] + [env.name] == [".env"] && [] + [src.name] == ["src"] && ["src"] + [app.name] == ["src", "app.py"];
    GatheredStep(root, [env, src], 0, [], rules);
    GatheredStep(root, [env, src], 1, [], rules);
    assert EntryFiles(root, env, [], rules) == [];
    ExampleSrcCollected(src, app, rules);
    assert EntryFiles(root, src, [], rules) == [["src", "app.py"]];
  }

  lemma ExampleSrcCollected(src: Node, app: Node, rules: Rules)
    requires src == Dir("src", [app]) && app == File("app.py", [65])
    requires !ShouldIgnore(["src"] + [app.name], rules) && !IsBinary(app, rules)
    ensures CollectFrom(src, ["src"], rules) == [["src", "app.py"]]
  {
    assert ByName([app]) == [app];
    assert [app][1..] == [];
    assert ["src"] + [app.name] == ["src", "app.py"];
    assert WalkEnd([app], ["src"], rules) == 1;
    assert EntryFiles(src, app, ["src"], rules) == [["src", "app.py"]];
    assert Gathered(src, [app], 1, ["src"], rules) == [] + [["src", "app.py"]];
  }

  lemma ExampleRootOrder(env: Node, src: Node)
    requires env == Dangling(".env") && src.name == "src"
    ensures ByName([env, src]) == [env, src]
  {
    assert Sorting.StrLe(".env", "src");
  }

  lemma ExampleEnvIgnored()
    ensures ShouldIgnore([".env"], GenericRules)
  {
    assert ".env" == GenericProfile.IgnorePaths[10];
    assert SegmentIgnored([".env"], GenericProfile.IgnorePaths);
  }

  lemma ExampleSrcKept()
    ensures !ShouldIgnore(["src"], GenericRules)
  {
    ExampleNamesKept();
    assert !SegmentIgnored(["src"], GenericProfile.IgnorePaths);
  }

  lemma ExampleAppKept(app: Node)
    requires app == File("app.py", [65])
    ensures !ShouldIgnore(["src", "app.py"], GenericRules)
    ensures !IsBinary(app, GenericRules)
  {
    ExampleNamesKept();
    ExampleAppIsPython();
    assert Sniffed(app.bytes) == [65];
  }

  lemma ExampleNamesKept()
    ensures "src" !in GenericProfile.IgnorePaths && "app.py" !in GenericProfile.IgnorePaths
    ensures Extname("src") == ""
  {
  }

  lemma ExampleAppIsPython()
    ensures Extname("app.py") == ".py"
    ensures ".py" !in GenericProfile.IgnoreExtensions && ".py" !in GenericProfile.BinaryExtensions
  {
    var n := "app.py";
    assert n[3] == '.' && n[4] == 'p' && n[5] == 'y';
    assert LastDot(n) == 3 by {
      assert n[..5][..4] == n[..4];
    }
    assert n[3..] == ".py";
  }
}
