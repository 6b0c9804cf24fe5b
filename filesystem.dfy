/**
 * The filesystem as the documentation engine sees it. Every `fs` call of the
 * engine (readdirSync, statSync, openSync/readSync) becomes a lookup in this
 * tree: a directory's children are kept in the order `readdirSync` returns them.
 */
module FileSystem {

  newtype byte = b: int | 0 <= b < 256

  datatype Option<+T> = None | Some(value: T)

  /** A path relative to the project root, one string per segment. */
  type Path = seq<string>

  datatype Node =
    | File(name: string, bytes: seq<byte>)        // a regular file that can be opened
    | Dir(name: string, children: seq<Node>)      // a directory that can be listed
    | LockedDir(name: string)                     // a directory whose listing fails
    | LockedFile(name: string, size: nat)         // a regular file that cannot be opened
    | Dangling(name: string)                      // an entry whose stat fails (a broken link)

  /** `stats.isDirectory()` */
  predicate IsDirectory(n: Node) {
    n.Dir? || n.LockedDir?
  }

  /** `stats.isFile()` */
  predicate IsRegularFile(n: Node) {
    n.File? || n.LockedFile?
  }

  /** `stats.size` of a regular file. */
  function Size(n: Node): nat
    requires IsRegularFile(n)
  {
    match n
    case File(_, b) => |b|
    case LockedFile(_, s) => s
  }

  predicate IsPrefix<T(==)>(p: seq<T>, s: seq<T>) {
    |p| <= |s| && s[..|p|] == p
  }

  lemma ConcatAssoc<T>(a: seq<T>, b: seq<T>, c: seq<T>)
    ensures (a + b) + c == a + (b + c)
  {
  }

  /** A path that starts with `rel + [name]` is `rel`, then `name`, then the rest. */
  lemma PathBelow(p: Path, rel: Path, name: string)
    requires |p| > |rel| && p[..|rel| + 1] == rel + [name]
    ensures p[..|rel|] == rel
    ensures p[|rel|..] == [name] + p[|rel| + 1..]
  {
    assert p[..|rel|] == p[..|rel| + 1][..|rel|];
    assert p[|rel|..] == [p[|rel|]] + p[|rel| + 1..];
    assert p[|rel|] == p[..|rel| + 1][|rel|];
  }

  /** A non-empty path below `rel` is its first segment below `rel`, then the rest. */
  lemma PathCons(rel: Path, s: Path)
    requires |s| > 0
    ensures rel + s == rel + [s[0]] + s[1..]
  {
    assert s == [s[0]] + s[1..];
  }

  /** No entry anywhere below `n` fails to stat. */
  ghost predicate NoDangling(n: Node) {
    n.Dir? ==> forall c :: c in n.children ==> !c.Dangling? && NoDangling(c)
  }

  /** Within every directory below `n` the entry names are pairwise distinct, as `readdirSync` guarantees. */
  ghost predicate DistinctNames(n: Node) {
    n.Dir? ==>
      && (forall i, j :: 0 <= i < j < |n.children| ==> n.children[i].name != n.children[j].name)
      && (forall c :: c in n.children ==> DistinctNames(c))
  }

  /** The first entry of a listing with the given name. */
  function Find(children: seq<Node>, name: string): (r: Option<Node>)
    ensures r.Some? ==> r.value in children && r.value.name == name
    ensures r.None? ==> forall c :: c in children ==> c.name != name
  {
    if children == [] then None
    else if children[0].name == name then Some(children[0])
    else Find(children[1..], name)
  }

  /** With distinct names, the entry found by a name is the one that carries it. */
  lemma FindDistinct(children: seq<Node>, c: Node)
    requires forall i, j :: 0 <= i < j < |children| ==> children[i].name != children[j].name
    requires c in children
    ensures Find(children, c.name) == Some(c)
  {
    var f := Find(children, c.name);
    var i :| 0 <= i < |children| && children[i] == c;
    var j :| 0 <= j < |children| && children[j] == f.value;
    assert !(i < j || j < i);
  }

  /**
   * Resolving the path `s` below `dir` as `statSync` does: each segment but
   * the last must name a directory that can be listed.
   */
  function Lookup(dir: Node, s: Path): Option<Node>
    decreases |s|
  {
    if s == [] then Some(dir)
    else if !dir.Dir? then None
    else
      match Find(dir.children, s[0])
      case None => None
      case Some(c) => Lookup(c, s[1..])
  }
}
