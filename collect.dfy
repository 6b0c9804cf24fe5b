/**
 * `collectFiles`: a depth-first walk that visits each directory's entries in
 * default string order and gathers the text files that are not ignored.
 */
module Collect {
  import opened FileSystem
  import opened EngineRules
  import opened Ignore
  import opened Sorting
  import opened Binary

  /** `items.sort()` on the entry names. */
  function ByName(children: seq<Node>): (r: seq<Node>)
    ensures multiset(r) == multiset(children)
    ensures forall x :: x in r ==> x in children
  {
    var r := Sort(children, (a: Node, b: Node) => StrLe(a.name, b.name));
    assert forall x :: x in r ==> x in multiset(children);
    r
  }

  /** An entry at which the walk ends: it is not ignored and its `statSync` throws. */
  predicate StopsWalk(item: Node, rel: Path, rules: Rules) {
    item.Dangling? && !ShouldIgnore(rel + [item.name], rules)
  }

  /** The position of the first entry that ends the walk, or the number of entries. */
  function WalkEnd(items: seq<Node>, rel: Path, rules: Rules): (end: nat)
    ensures end <= |items|
    ensures forall j :: 0 <= j < end ==> !StopsWalk(items[j], rel, rules)
    ensures end < |items| ==> StopsWalk(items[end], rel, rules)
  {
    if items == [] then 0
    else if StopsWalk(items[0], rel, rules) then 0
    else
      var end := WalkEnd(items[1..], rel, rules);
      assert forall j :: 1 <= j < 1 + end ==> items[j] == items[1..][j - 1];
      1 + end
  }

  /** `collectFiles(directory, basePath, profile)` for the entry `dir` at `rel` below the root. */
  function CollectFrom(dir: Node, rel: Path, rules: Rules): seq<Path>
    decreases dir, 1, 0
  {
    if !dir.Dir? then []
    else
      var items := ByName(dir.children);
      Gathered(dir, items, WalkEnd(items, rel, rules), rel, rules)
  }

  /** The files gathered from the first `n` entries of the sorted listing of `parent`. */
  function Gathered(parent: Node, items: seq<Node>, n: nat, rel: Path, rules: Rules): seq<Path>
    requires parent.Dir? && n <= |items|
    requires forall x :: x in items ==> x in parent.children
    decreases parent, 0, n
  {
    if n == 0 then []
    else Gathered(parent, items, n - 1, rel, rules) + EntryFiles(parent, items[n - 1], rel, rules)
  }

  /** What one entry adds: itself if it is a text file, its own collection if it is a directory. */
  function EntryFiles(parent: Node, item: Node, rel: Path, rules: Rules): seq<Path>
    requires parent.Dir? && item in parent.children
    decreases parent, 0, 0
  {
    if ShouldIgnore(rel + [item.name], rules) then []
    else if IsRegularFile(item) then
      if IsBinary(item, rules) then [] else [rel + [item.name]]
    else if IsDirectory(item) then CollectFrom(item, rel + [item.name], rules)
    else []
  }

  method CollectFiles(dir: Node, rel: Path, rules: Rules) returns (files: seq<Path>)
    ensures files == CollectFrom(dir, rel, rules)
    decreases dir, 1, 0
  {
    files := [];
    if !dir.Dir? {
      // `readdirSync` throws, and the catch returns no files
      return;
    }
    var items := ByName(dir.children);
    ghost var end := WalkEnd(items, rel, rules);
    var i := 0;
    while i < |items|
      invariant i <= end
      invariant files == Gathered(dir, items, i, rel, rules)
    {
      var found, stop := CollectEntry(dir, items, i, rel, rules);
      WalkEndAt(items, i, rel, rules);
      if stop {
        // `statSync` threw; the catch returns what was gathered so far
        break;
      }
      GatheredStep(dir, items, i, rel, rules);
      files := files + found;
      i := i + 1;
    }
    assert i == end;
  }

  /** Before the end of the walk, an entry ends it exactly when it sits at the end. */
  lemma WalkEndAt(items: seq<Node>, i: nat, rel: Path, rules: Rules)
    requires i <= WalkEnd(items, rel, rules) && i < |items|
    ensures StopsWalk(items[i], rel, rules) <==> i == WalkEnd(items, rel, rules)
  {
  }

  /**
   * The body of `collectFiles`'s loop for the entry `items[i]`: `stop` when
   * its `statSync` throws, otherwise what the entry adds.
   */
  method CollectEntry(parent: Node, items: seq<Node>, i: nat, rel: Path, rules: Rules) returns (found: seq<Path>, stop: bool)
    requires parent.Dir? && i < |items|
    requires forall x :: x in items ==> x in parent.children
    ensures stop <==> StopsWalk(items[i], rel, rules)
    ensures !stop ==> found == EntryFiles(parent, items[i], rel, rules)
    decreases parent, 0, 0
  {
    var item := items[i];
    assert item in items;
    found, stop := [], false;
    if ShouldIgnore(rel + [item.name], rules) {
      return;
    }
    if item.Dangling? {
      stop := true;
    } else if IsRegularFile(item) {
      var binary := IsBinaryFile(item, rules);
      if !binary {
        found := [rel + [item.name]];
      }
    } else if IsDirectory(item) {
      found := CollectFiles(item, rel + [item.name], rules);
    }
  }

  /** One more entry of the walk adds what `EntryFiles` says. */
  lemma GatheredStep(parent: Node, items: seq<Node>, i: nat, rel: Path, rules: Rules)
    requires parent.Dir? && i < |items|
    requires forall x :: x in items ==> x in parent.children
    ensures Gathered(parent, items, i + 1, rel, rules)
      == Gathered(parent, items, i, rel, rules) + EntryFiles(parent, items[i], rel, rules)
  {
  }

  /**
   * The path `s` below `dir`, which sits at `rel`, names a file the walk
   * gathers: each step goes down through a listed directory whose entry is
   * not ignored, and the last step reaches a regular file that is not
   * ignored and not binary.
   */
  ghost predicate Collectible(dir: Node, rel: Path, s: Path, rules: Rules)
    decreases |s|
  {
    && dir.Dir? && |s| > 0 && !ShouldIgnore(rel + [s[0]], rules)
    && exists c :: c in dir.children && c.name == s[0] &&
         if |s| == 1 then IsRegularFile(c) && !IsBinary(c, rules)
         else Collectible(c, rel + [s[0]], s[1..], rules)
  }

  /** A gathered path comes from one of the entries gathered. */
  lemma {:induction false} GatheredOrigin(parent: Node, items: seq<Node>, n: nat, rel: Path, rules: Rules, p: Path)
    requires parent.Dir? && n <= |items|
    requires forall x :: x in items ==> x in parent.children
    requires p in Gathered(parent, items, n, rel, rules)
    ensures exists j :: 0 <= j < n && p in EntryFiles(parent, items[j], rel, rules)
    decreases n
  {
    assert items[n - 1] in items;
    if p !in EntryFiles(parent, items[n - 1], rel, rules) {
      GatheredOrigin(parent, items, n - 1, rel, rules, p);
    }
  }

  /** A path one entry contributes is that entry itself, a text file, or lies in its directory's collection. */
  lemma EntryFilesCases(parent: Node, item: Node, rel: Path, rules: Rules, p: Path)
    requires parent.Dir? && item in parent.children
    requires p in EntryFiles(parent, item, rel, rules)
    ensures !ShouldIgnore(rel + [item.name], rules)
    ensures IsRegularFile(item) ==> p == rel + [item.name] && !IsBinary(item, rules)
    ensures !IsRegularFile(item) ==> item.Dir? && p in CollectFrom(item, rel + [item.name], rules)
  {
  }

  /** A path that goes down through a suitable entry of `dir` is collectible from `dir`. */
  lemma CollectibleFromChild(dir: Node, rel: Path, c: Node, s: Path, rules: Rules)
    requires dir.Dir? && c in dir.children && |s| > 0 && c.name == s[0] && !ShouldIgnore(rel + [s[0]], rules)
    requires |s| == 1 ==> IsRegularFile(c) && !IsBinary(c, rules)
    requires |s| > 1 ==> Collectible(c, rel + [s[0]], s[1..], rules)
    ensures Collectible(dir, rel, s, rules)
  {
  }

  /** Every gathered path lies below `rel` and names a collectible file. */
  lemma {:induction false} CollectSound(dir: Node, rel: Path, rules: Rules, p: Path)
    requires p in CollectFrom(dir, rel, rules)
    ensures |p| > |rel| && p[..|rel|] == rel
    ensures Collectible(dir, rel, p[|rel|..], rules)
    decreases dir, 1
  {
    var items := ByName(dir.children);
    GatheredOrigin(dir, items, WalkEnd(items, rel, rules), rel, rules, p);
    var j :| 0 <= j < |items| && p in EntryFiles(dir, items[j], rel, rules);
    assert items[j] in items;
    EntrySound(dir, items[j], rel, rules, p);
  }

  /** A path one entry contributes lies below `rel` and names a collectible file. */
  lemma {:induction false} EntrySound(parent: Node, item: Node, rel: Path, rules: Rules, p: Path)
    requires parent.Dir? && item in parent.children
    requires p in EntryFiles(parent, item, rel, rules)
    ensures |p| > |rel| && p[..|rel|] == rel
    ensures Collectible(parent, rel, p[|rel|..], rules)
    decreases parent, 0
  {
    EntryFilesCases(parent, item, rel, rules, p);
    if !IsRegularFile(item) {
      CollectSound(item, rel + [item.name], rules, p);
    }
    PathBelow(p, rel, item.name);
    CollectibleFromChild(parent, rel, item, p[|rel|..], rules);
  }

  /** A path contributed by one of the first `n` entries of the listing is gathered. */
  lemma {:induction false} GatheredIncludes(parent: Node, items: seq<Node>, n: nat, j: nat, rel: Path, rules: Rules, p: Path)
    requires parent.Dir? && j < n <= |items|
    requires forall x :: x in items ==> x in parent.children
    requires p in EntryFiles(parent, items[j], rel, rules)
    ensures p in Gathered(parent, items, n, rel, rules)
  {
    GatheredIncludesLast(parent, items, j, rel, rules, p);
    var k := j + 1;
    while k < n
      invariant j < k <= n
      invariant p in Gathered(parent, items, k, rel, rules)
    {
      GatheredKeeps(parent, items, k, rel, rules, p);
      k := k + 1;
    }
  }

  /** What entry j adds is among the files gathered from the first j + 1. */
  lemma GatheredIncludesLast(parent: Node, items: seq<Node>, j: nat, rel: Path, rules: Rules, p: Path)
    requires parent.Dir? && j < |items|
    requires forall x :: x in items ==> x in parent.children
    requires p in EntryFiles(parent, items[j], rel, rules)
    ensures p in Gathered(parent, items, j + 1, rel, rules)
  {
    GatheredStep(parent, items, j, rel, rules);
    InConcat(p, EntryFiles(parent, items[j], rel, rules), Gathered(parent, items, j, rel, rules));
  }

  /** Files gathered from the first k entries stay gathered from the first k + 1. */
  lemma GatheredKeeps(parent: Node, items: seq<Node>, k: nat, rel: Path, rules: Rules, p: Path)
    requires parent.Dir? && k < |items|
    requires forall x :: x in items ==> x in parent.children
    requires p in Gathered(parent, items, k, rel, rules)
    ensures p in Gathered(parent, items, k + 1, rel, rules)
  {
    GatheredStep(parent, items, k, rel, rules);
    InConcat(p, Gathered(parent, items, k, rel, rules), EntryFiles(parent, items[k], rel, rules));
  }

  /** An element of either part is an element of the concatenation, in either order. */
  lemma InConcat<T>(x: T, a: seq<T>, b: seq<T>)
    requires x in a
    ensures x in a + b && x in b + a
  {
  }

  /** The entry through which a collectible path goes down. */
  lemma CollectibleChild(dir: Node, rel: Path, s: Path, rules: Rules) returns (c: Node)
    requires Collectible(dir, rel, s, rules)
    ensures dir.Dir? && c in dir.children && c.name == s[0] && !ShouldIgnore(rel + [c.name], rules)
    ensures |s| == 1 ==> IsRegularFile(c) && !IsBinary(c, rules)
    ensures |s| > 1 ==> c.Dir? && Collectible(c, rel + [c.name], s[1..], rules)
  {
    c :| c in dir.children && c.name == s[0] &&
      if |s| == 1 then IsRegularFile(c) && !IsBinary(c, rules)
      else Collectible(c, rel + [s[0]], s[1..], rules);
  }

  /** An entry that is not ignored contributes itself when it is a text file, and its directory's files. */
  lemma EntryFilesIncludes(parent: Node, item: Node, rel: Path, rules: Rules, rest: Path)
    requires parent.Dir? && item in parent.children && !ShouldIgnore(rel + [item.name], rules)
    requires rest == [] ==> IsRegularFile(item) && !IsBinary(item, rules)
    requires rest != [] ==> item.Dir? && rel + [item.name] + rest in CollectFrom(item, rel + [item.name], rules)
    ensures rel + [item.name] + rest in EntryFiles(parent, item, rel, rules)
  {
    assert rest == [] ==> rel + [item.name] + rest == rel + [item.name];
  }

  /** When no entry fails to stat, the walk reaches every entry and keeps all it contributes. */
  lemma ChildFilesCollected(dir: Node, c: Node, rel: Path, rules: Rules, p: Path)
    requires dir.Dir? && NoDangling(dir) && c in dir.children
    requires p in EntryFiles(dir, c, rel, rules)
    ensures p in CollectFrom(dir, rel, rules)
  {
    var items := ByName(dir.children);
    assert c in multiset(items);
    var j :| 0 <= j < |items| && items[j] == c;
    GatheredIncludes(dir, items, WalkEnd(items, rel, rules), j, rel, rules, p);
  }

  /** When every entry can be stat'ed, every collectible file is gathered. */
  lemma {:induction false} CollectComplete(dir: Node, rel: Path, s: Path, rules: Rules)
    requires NoDangling(dir) && Collectible(dir, rel, s, rules)
    ensures rel + s in CollectFrom(dir, rel, rules)
    decreases |s|
  {
    var c := CollectibleChild(dir, rel, s, rules);
    if |s| > 1 {
      CollectComplete(c, rel + [c.name], s[1..], rules);
    }
    PathCons(rel, s);
    EntryFilesIncludes(dir, c, rel, rules, s[1..]);
    ChildFilesCollected(dir, c, rel, rules, rel + s);
  }

  /**
   * With no entry that fails to stat, the walk gathers exactly the
   * collectible files: the regular files that are not ignored, not binary
   * and below no ignored directory.
   */
  lemma CollectExactly(dir: Node, rel: Path, rules: Rules)
    requires NoDangling(dir)
    ensures forall p :: p in CollectFrom(dir, rel, rules) ==> IsPrefix(rel, p) && |p| > |rel|
    ensures forall s :: rel + s in CollectFrom(dir, rel, rules) <==> Collectible(dir, rel, s, rules)
  {
    forall p | p in CollectFrom(dir, rel, rules)
      ensures IsPrefix(rel, p) && |p| > |rel|
    {
      CollectSound(dir, rel, rules, p);
    }
    forall s
      ensures rel + s in CollectFrom(dir, rel, rules) <==> Collectible(dir, rel, s, rules)
    {
      if Collectible(dir, rel, s, rules) {
        CollectComplete(dir, rel, s, rules);
      }
      if rel + s in CollectFrom(dir, rel, rules) {
        CollectSound(dir, rel, rules, rel + s);
        assert (rel + s)[|rel|..] == s;
      }
    }
  }

  /** `p` comes before `q`: at the first segment where they differ, `p`'s is smaller in default string order. */
  predicate PathBefore(p: Path, q: Path) {
    exists k :: 0 <= k < |p| && k < |q| && p[..k] == q[..k] && StrLt(p[k], q[k])
  }

  /** Each path comes before every later one. */
  predicate Ascending(files: seq<Path>) {
    forall i, j :: 0 <= i < j < |files| ==> PathBefore(files[i], files[j])
  }

  predicate NoDuplicates(files: seq<Path>) {
    forall i, j :: 0 <= i < j < |files| ==> files[i] != files[j]
  }

  /** No path comes before itself, so an ascending list repeats no path. */
  lemma AscendingHasNoDuplicates(files: seq<Path>)
    requires Ascending(files)
    ensures NoDuplicates(files)
  {
    forall i, j | 0 <= i < j < |files|
      ensures files[i] != files[j]
    {
      var k :| 0 <= k < |files[i]| && k < |files[j]| && files[i][..k] == files[j][..k] && StrLt(files[i][k], files[j][k]);
    }
  }

  lemma PathBeforeAt(p: Path, q: Path, rel: Path, a: string, b: string)
    requires |p| > |rel| && p[..|rel| + 1] == rel + [a]
    requires |q| > |rel| && q[..|rel| + 1] == rel + [b]
    requires StrLt(a, b)
    ensures PathBefore(p, q)
  {
    PathBelow(p, rel, a);
    PathBelow(q, rel, b);
    assert p[|rel|] == p[|rel|..][0] && q[|rel|] == q[|rel|..][0];
  }

  lemma AscendingConcat(a: seq<Path>, b: seq<Path>)
    requires Ascending(a) && Ascending(b)
    requires forall p, q :: p in a && q in b ==> PathBefore(p, q)
    ensures Ascending(a + b)
  {
    forall i, j | 0 <= i < j < |a + b|
      ensures PathBefore((a + b)[i], (a + b)[j])
    {
      if j < |a| {
        assert (a + b)[i] == a[i] && (a + b)[j] == a[j];
      } else if i < |a| {
        assert (a + b)[i] == a[i] && (a + b)[j] == b[j - |a|];
        assert a[i] in a && b[j - |a|] in b;
      } else {
        assert (a + b)[i] == b[i - |a|] && (a + b)[j] == b[j - |a|];
      }
    }
  }

  /** Sorting entries whose names are pairwise distinct puts the names in strictly ascending order. */
  lemma ByNameStrictlyAscending(children: seq<Node>)
    requires forall i, j :: 0 <= i < j < |children| ==> children[i].name != children[j].name
    ensures var items := ByName(children);
      forall j, k :: 0 <= j < k < |items| ==> StrLt(items[j].name, items[k].name)
  {
    var le := (a: Node, b: Node) => StrLe(a.name, b.name);
    var differ := (a: Node, b: Node) => a.name != b.name;
    forall a: Node, b: Node
      ensures le(a, b) || le(b, a)
    {
      StrLeTotal(a.name, b.name);
    }
    forall a: Node, b: Node, c: Node | le(a, b) && le(b, c)
      ensures le(a, c)
    {
      StrLeTransitive(a.name, b.name, c.name);
    }
    SortOrdered(children, le);
    SortKeepsPairwise(children, le, differ);
  }

  /** A path one entry contributes starts with that entry's name. */
  lemma EntryPrefix(parent: Node, item: Node, rel: Path, rules: Rules, p: Path)
    requires parent.Dir? && item in parent.children
    requires p in EntryFiles(parent, item, rel, rules)
    ensures |p| > |rel| && p[..|rel| + 1] == rel + [item.name]
  {
    EntryFilesCases(parent, item, rel, rules, p);
    if !IsRegularFile(item) {
      CollectSound(item, rel + [item.name], rules, p);
    }
  }

  /**
   * With distinct names in every directory, the collected paths are in
   * strictly ascending order, segment by segment: each directory's entries
   * are visited in default string order and a subdirectory's files are
   * spliced in where its name falls. In particular no path is collected twice.
   */
  lemma {:induction false} CollectAscending(dir: Node, rel: Path, rules: Rules)
    requires DistinctNames(dir)
    ensures Ascending(CollectFrom(dir, rel, rules))
    ensures NoDuplicates(CollectFrom(dir, rel, rules))
    decreases dir, 1, 0
  {
    if dir.Dir? {
      var items := ByName(dir.children);
      ByNameStrictlyAscending(dir.children);
      GatheredAscending(dir, items, WalkEnd(items, rel, rules), rel, rules);
    }
    AscendingHasNoDuplicates(CollectFrom(dir, rel, rules));
  }

  lemma {:induction false} GatheredAscending(parent: Node, items: seq<Node>, n: nat, rel: Path, rules: Rules)
    requires parent.Dir? && DistinctNames(parent) && n <= |items|
    requires forall x :: x in items ==> x in parent.children
    requires forall j, k :: 0 <= j < k < |items| ==> StrLt(items[j].name, items[k].name)
    ensures Ascending(Gathered(parent, items, n, rel, rules))
    decreases parent, 0, n
  {
    if n > 0 {
      var item := items[n - 1];
      assert item in items;
      GatheredAscending(parent, items, n - 1, rel, rules);
      EntryAscending(parent, item, rel, rules);
      var before := Gathered(parent, items, n - 1, rel, rules);
      var last := EntryFiles(parent, item, rel, rules);
      forall p, q | p in before && q in last
        ensures PathBefore(p, q)
      {
        GatheredOrigin(parent, items, n - 1, rel, rules, p);
        var j :| 0 <= j < n - 1 && p in EntryFiles(parent, items[j], rel, rules);
        assert items[j] in items;
        EntryPrefix(parent, items[j], rel, rules, p);
        EntryPrefix(parent, item, rel, rules, q);
        PathBeforeAt(p, q, rel, items[j].name, item.name);
      }
      AscendingConcat(before, last);
    }
  }

  lemma {:induction false} EntryAscending(parent: Node, item: Node, rel: Path, rules: Rules)
    requires parent.Dir? && DistinctNames(parent) && item in parent.children
    ensures Ascending(EntryFiles(parent, item, rel, rules))
    decreases parent, 0, 0
  {
    if !ShouldIgnore(rel + [item.name], rules) && !IsRegularFile(item) && IsDirectory(item) {
      CollectAscending(item, rel + [item.name], rules);
    }
  }
}
