/**
 * `generateTree`: list a directory, drop ignored entries, sort directories
 * first and then by lowercased name, and draw one line per entry with
 * box-drawing connectors, descending into non-empty directories.
 */
module Tree {
  import opened FileSystem
  import opened EngineRules
  import opened Ignore
  import opened Sorting

  const Corner: string := "\U{2514}\U{2500}\U{2500} "   // before the last sibling
  const Tee: string := "\U{251C}\U{2500}\U{2500} "      // before every other sibling
  const Blank: string := "    "                          // indentation under the last sibling
  const Bar: string := "\U{2502}   "                     // indentation under every other sibling

  /** `a.localeCompare(b) <= 0`; the locale's collation is a parameter of the model. */
  type Collation = (string, string) -> bool

  function LowerChar(c: char): char {
    if 'A' <= c <= 'Z' then (c as int + 32) as char else c
  }

  /** `toLowerCase()` on the ASCII letters. */
  function Lower(s: string): (r: string)
    ensures |r| == |s| && forall k :: 0 <= k < |s| ==> r[k] == LowerChar(s[k])
  {
    seq(|s|, k requires 0 <= k < |s| => LowerChar(s[k]))
  }

  /**
   * Lower-casing leaves no ASCII capital behind, moves each capital to the
   * small letter at the same place in the alphabet, keeps every other
   * character, and changes nothing the second time.
   */
  lemma LowerFolds(s: string)
    ensures |Lower(s)| == |s|
    ensures forall k :: 0 <= k < |s| ==> !('A' <= Lower(s)[k] <= 'Z')
    ensures forall k :: 0 <= k < |s| && 'A' <= s[k] <= 'Z' ==> Lower(s)[k] as int - 'a' as int == s[k] as int - 'A' as int
    ensures forall k :: 0 <= k < |s| && !('A' <= s[k] <= 'Z') ==> Lower(s)[k] == s[k]
    ensures Lower(Lower(s)) == Lower(s)
  {
  }

  /** The comparator handed to `items.sort`: directories first, then the lowercased names. */
  predicate Before(collate: Collation, a: Node, b: Node) {
    if IsDirectory(a) != IsDirectory(b) then IsDirectory(a)
    else collate(Lower(a.name), Lower(b.name))
  }

  lemma BeforeIsTotalPreorder(collate: Collation)
    requires TotalPreorder(collate)
    ensures TotalPreorder((a: Node, b: Node) => Before(collate, a, b))
  {
    var before := (a: Node, b: Node) => Before(collate, a, b);
    forall a: Node, b: Node, c: Node | before(a, b) && before(b, c)
      ensures before(a, c)
    {
      if IsDirectory(a) == IsDirectory(b) == IsDirectory(c) {
        assert collate(Lower(a.name), Lower(b.name)) && collate(Lower(b.name), Lower(c.name));
      }
    }
    forall a: Node, b: Node
      ensures before(a, b) || before(b, a)
    {
      assert collate(Lower(a.name), Lower(b.name)) || collate(Lower(b.name), Lower(a.name));
    }
  }

  /** `items.filter(item => !shouldIgnore(item.fullPath, basePath, profile))`, order kept. */
  function Visible(children: seq<Node>, rel: Path, rules: Rules): (r: seq<Node>)
    ensures forall x :: x in r <==> x in children && !ShouldIgnore(rel + [x.name], rules)
    ensures multiset(r) <= multiset(children)
  {
    if children == [] then []
    else
      assert forall x :: x in children <==> x == children[0] || x in children[1..];
      assert children == [children[0]] + children[1..];
      var rest := Visible(children[1..], rel, rules);
      if ShouldIgnore(rel + [children[0].name], rules) then rest else [children[0]] + rest
  }

  /** The entries of a listing in the order they are drawn. */
  function Listing(children: seq<Node>, rel: Path, rules: Rules, collate: Collation): (r: seq<Node>)
    ensures forall x :: x in r ==> x in children
    ensures multiset(r) == multiset(Visible(children, rel, rules))
  {
    var r := Sort(Visible(children, rel, rules), (a: Node, b: Node) => Before(collate, a, b));
    assert forall x :: x in r <==> x in multiset(Visible(children, rel, rules));
    r
  }

  /**
   * `items.sort` is stable: entries the comparator ranks equal to `e` are drawn
   * in the order `readdirSync` listed them.
   */
  lemma ListingStable(children: seq<Node>, rel: Path, rules: Rules, collate: Collation, e: Node)
    requires TotalPreorder(collate)
    ensures var before := (a: Node, b: Node) => Before(collate, a, b);
      EqualTo(Listing(children, rel, rules, collate), e, before)
        == EqualTo(Visible(children, rel, rules), e, before)
  {
    BeforeIsTotalPreorder(collate);
    SortStable(Visible(children, rel, rules), e, (a: Node, b: Node) => Before(collate, a, b));
  }

  /** What follows the entry's name on its line. */
  function Marker(item: Node, rel: Path): string
    requires !item.Dangling?
  {
    if IsDirectory(item) then
      if IsDirectoryEmpty(item, rel + [item.name]) then "/ (empty)" else "/"
    else if Size(item) == 0 then " (empty)"
    else ""
  }

  /**
   * `generateTree(directory, prefix, _, basePath, profile)`. Listing a locked
   * directory throws, and so does the `statSync` of any entry that fails to
   * stat, before any line is drawn; the catch then returns no lines.
   */
  function TreeLines(dir: Node, rel: Path, prefix: string, rules: Rules, collate: Collation): seq<string>
    decreases dir, 1, 0
  {
    if !dir.Dir? || exists k :: 0 <= k < |dir.children| && dir.children[k].Dangling? then []
    else
      var items := Listing(dir.children, rel, rules, collate);
      Drawn(dir, items, |items|, rel, prefix, rules, collate)
  }

  /** The lines drawn for the first `n` entries `items` of the listing of `parent`. */
  function Drawn(parent: Node, items: seq<Node>, n: nat, rel: Path, prefix: string, rules: Rules, collate: Collation): seq<string>
    requires parent.Dir? && n <= |items|
    requires forall x :: x in items ==> x in parent.children && !x.Dangling?
    decreases parent, 0, n
  {
    if n == 0 then []
    else
      Drawn(parent, items, n - 1, rel, prefix, rules, collate)
        + EntryLines(parent, items[n - 1], n == |items|, rel, prefix, rules, collate)
  }

  /** The line of one entry of `parent`, followed by its subtree when it is a directory drawn as non-empty. */
  function EntryLines(parent: Node, item: Node, last: bool, rel: Path, prefix: string, rules: Rules, collate: Collation): seq<string>
    requires parent.Dir? && item in parent.children && !item.Dangling?
    decreases parent, 0, 0
  {
    var connector := if last then Corner else Tee;
    var extension := if last then Blank else Bar;
    var line := prefix + connector + item.name + Marker(item, rel);
    if IsDirectory(item) && !IsDirectoryEmpty(item, rel + [item.name]) then
      [line] + TreeLines(item, rel + [item.name], prefix + extension, rules, collate)
    else [line]
  }

  method GenerateTree(dir: Node, rel: Path, prefix: string, rules: Rules, collate: Collation) returns (treeLines: seq<string>)
    ensures treeLines == TreeLines(dir, rel, prefix, rules, collate)
    decreases dir, 1, 0
  {
    treeLines := [];
    if !dir.Dir? {
      return;
    }
    // the `statSync` in the listing's `map` throws on an entry that fails to stat
    if exists k :: 0 <= k < |dir.children| && dir.children[k].Dangling? {
      return;
    }
    var items := Listing(dir.children, rel, rules, collate);
    var i := 0;
    while i < |items|
      invariant 0 <= i <= |items|
      invariant forall x :: x in items ==> x in dir.children && !x.Dangling?
      invariant treeLines == Drawn(dir, items, i, rel, prefix, rules, collate)
    {
      assert items[i] in items;
      var entry := DrawEntry(dir, items[i], i == |items| - 1, rel, prefix, rules, collate);
      treeLines := treeLines + entry;
      i := i + 1;
    }
  }

  /** The body of `generateTree`'s loop for one entry: its line, then its subtree when it has one. */
  method DrawEntry(parent: Node, item: Node, isLastItem: bool, rel: Path, prefix: string, rules: Rules, collate: Collation)
    returns (lines: seq<string>)
    requires parent.Dir? && item in parent.children && !item.Dangling?
    ensures lines == EntryLines(parent, item, isLastItem, rel, prefix, rules, collate)
    decreases parent, 0, 0
  {
    var connector := if isLastItem then Corner else Tee;
    var extension := if isLastItem then Blank else Bar;
    if IsDirectory(item) {
      if IsDirectoryEmpty(item, rel + [item.name]) {
        lines := [prefix + connector + item.name + "/ (empty)"];
      } else {
        lines := [prefix + connector + item.name + "/"];
        var subtree := GenerateTree(item, rel + [item.name], prefix + extension, rules, collate);
        lines := lines + subtree;
      }
    } else if Size(item) == 0 {
      lines := [prefix + connector + item.name + " (empty)"];
    } else {
      lines := [prefix + connector + item.name];
      assert prefix + connector + item.name + Marker(item, rel) == prefix + connector + item.name;
    }
  }

  /** The drawn listing holds exactly the children that are not ignored. */
  lemma ListingMembers(children: seq<Node>, rel: Path, rules: Rules, collate: Collation)
    ensures forall x :: x in Listing(children, rel, rules, collate) <==> x in children && !ShouldIgnore(rel + [x.name], rules)
  {
    var visible := Visible(children, rel, rules);
    var r := Listing(children, rel, rules, collate);
    assert r == Sort(visible, (a: Node, b: Node) => Before(collate, a, b));
    assert forall x :: x in r <==> x in multiset(visible);
  }

  /** The drawn listing is ordered by the comparator handed to `items.sort`. */
  lemma ListingOrdered(children: seq<Node>, rel: Path, rules: Rules, collate: Collation)
    requires TotalPreorder(collate)
    ensures var r := Listing(children, rel, rules, collate);
      forall i, j :: 0 <= i < j < |r| ==> Before(collate, r[i], r[j])
  {
    var visible := Visible(children, rel, rules);
    var before := (a: Node, b: Node) => Before(collate, a, b);
    assert Listing(children, rel, rules, collate) == Sort(visible, before);
    BeforeIsTotalPreorder(collate);
    SortOrdered(visible, before);
  }

  /**
   * The drawn listing holds exactly the children that are not ignored, every
   * directory before every file, and within each group ascending by the
   * collation of the lowercased names.
   */
  lemma ListingSpec(children: seq<Node>, rel: Path, rules: Rules, collate: Collation)
    requires TotalPreorder(collate)
    ensures var r := Listing(children, rel, rules, collate);
      && (forall x :: x in r <==> x in children && !ShouldIgnore(rel + [x.name], rules))
      && (forall i, j :: 0 <= i < j < |r| && IsDirectory(r[j]) ==> IsDirectory(r[i]))
      && (forall i, j :: 0 <= i < j < |r| && IsDirectory(r[i]) == IsDirectory(r[j]) ==>
            collate(Lower(r[i].name), Lower(r[j].name)))
  {
    ListingMembers(children, rel, rules, collate);
    ListingOrdered(children, rel, rules, collate);
  }

  /** Every line drawn for a directory begins with the prefix it was given. */
  lemma {:induction false} TreeLinesPrefixed(dir: Node, rel: Path, prefix: string, rules: Rules, collate: Collation)
    ensures forall line :: line in TreeLines(dir, rel, prefix, rules, collate) ==> IsPrefix(prefix, line)
    decreases dir, 1, 0
  {
    if dir.Dir? && !(exists k :: 0 <= k < |dir.children| && dir.children[k].Dangling?) {
      var items := Listing(dir.children, rel, rules, collate);
      DrawnPrefixed(dir, items, |items|, rel, prefix, rules, collate);
    }
  }

  lemma {:induction false} DrawnPrefixed(parent: Node, items: seq<Node>, n: nat, rel: Path, prefix: string, rules: Rules, collate: Collation)
    requires parent.Dir? && n <= |items|
    requires forall x :: x in items ==> x in parent.children && !x.Dangling?
    ensures forall line :: line in Drawn(parent, items, n, rel, prefix, rules, collate) ==> IsPrefix(prefix, line)
    decreases parent, 0, n
  {
    if n > 0 {
      DrawnPrefixed(parent, items, n - 1, rel, prefix, rules, collate);
      EntryShape(parent, items[n - 1], n == |items|, rel, prefix, rules, collate);
    }
  }

  /**
   * An entry's first line is the prefix, its connector (the corner for the
   * last sibling, the tee otherwise), its name and its marker. Only a
   * directory that is not empty has further lines, and each of them begins
   * with the prefix extended by blanks under the last sibling and by a bar
   * under the others.
   */
  lemma {:induction false} EntryShape(parent: Node, item: Node, last: bool, rel: Path, prefix: string, rules: Rules, collate: Collation)
    requires parent.Dir? && item in parent.children && !item.Dangling?
    ensures var lines := EntryLines(parent, item, last, rel, prefix, rules, collate);
      && |lines| >= 1
      && lines[0] == prefix + (if last then Corner else Tee) + item.name + Marker(item, rel)
      && (|lines| > 1 ==> item.Dir? && item.children != [])
      && (forall k :: 1 <= k < |lines| ==> IsPrefix(prefix + (if last then Blank else Bar), lines[k]))
      && (forall line :: line in lines ==> IsPrefix(prefix, line))
    decreases parent, 0, 0
  {
    var extension := if last then Blank else Bar;
    var lines := EntryLines(parent, item, last, rel, prefix, rules, collate);
    IsDirectoryEmptyIff(item, rel + [item.name]);
    if IsDirectory(item) && !IsDirectoryEmpty(item, rel + [item.name]) {
      var sub := TreeLines(item, rel + [item.name], prefix + extension, rules, collate);
      TreeLinesPrefixed(item, rel + [item.name], prefix + extension, rules, collate);
      assert lines[1..] == sub;
      forall k | 1 <= k < |lines|
        ensures IsPrefix(prefix + extension, lines[k]) && IsPrefix(prefix, lines[k])
      {
        assert lines[k] == sub[k - 1];
        assert sub[k - 1] in sub;
        assert lines[k][..|prefix|] == (prefix + extension)[..|prefix|];
      }
    }
    assert lines[0][..|prefix|] == prefix;
  }

  /**
   * A directory line is marked empty exactly when the directory has no
   * entries at all, and a file line exactly when the file has size zero.
   */
  lemma MarkerIff(item: Node, rel: Path)
    requires !item.Dangling?
    ensures IsDirectory(item) ==>
      (Marker(item, rel) == "/ (empty)" <==> item.Dir? && item.children == [])
    ensures IsDirectory(item) ==> Marker(item, rel) in {"/ (empty)", "/"}
    ensures !IsDirectory(item) ==>
      (Marker(item, rel) == " (empty)" <==> Size(item) == 0)
    ensures !IsDirectory(item) ==> Marker(item, rel) in {" (empty)", ""}
  {
    IsDirectoryEmptyIff(item, rel + [item.name]);
  }

  /**
   * A directory whose entries are all ignored is drawn as `name/` with no
   * lines below it, not as empty: the ignore rules do not enter the
   * emptiness test.
   */
  lemma AllIgnoredDirRendersBare(parent: Node, item: Node, last: bool, rel: Path, prefix: string, rules: Rules, collate: Collation)
    requires parent.Dir? && item in parent.children && item.Dir? && item.children != []
    requires forall c :: c in item.children ==> ShouldIgnore(rel + [item.name] + [c.name], rules)
    ensures EntryLines(parent, item, last, rel, prefix, rules, collate)
      == [prefix + (if last then Corner else Tee) + item.name + "/"]
  {
    IsDirectoryEmptyIff(item, rel + [item.name]);
    var items := Listing(item.children, rel + [item.name], rules, collate);
    NothingVisible(item.children, rel + [item.name], rules);
    assert |multiset(items)| == 0;
    assert Drawn(item, items, |items|, rel + [item.name], prefix + (if last then Blank else Bar), rules, collate) == [];
  }

  /** When every entry is ignored, the filter keeps none. */
  lemma {:induction false} NothingVisible(children: seq<Node>, rel: Path, rules: Rules)
    requires forall c :: c in children ==> ShouldIgnore(rel + [c.name], rules)
    ensures Visible(children, rel, rules) == []
  {
    if children != [] {
      assert children[0] in children;
      NothingVisible(children[1..], rel, rules);
    }
  }

  /** Nothing is drawn for a locked directory, a file, or a listing holding an entry that fails to stat. */
  lemma NoLinesOnError(dir: Node, rel: Path, prefix: string, rules: Rules, collate: Collation)
    requires !dir.Dir? || exists k :: 0 <= k < |dir.children| && dir.children[k].Dangling?
    ensures TreeLines(dir, rel, prefix, rules, collate) == []
  {
  }
}
