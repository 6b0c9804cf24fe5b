/**
 * `shouldIgnore` and `isDirectoryEmpty`. A path is judged by its segments
 * relative to the project root and by the extension of its last segment.
 */
module Ignore {
  import opened FileSystem
  import opened PathExt
  import opened EngineRules

  /** The early-return search over the relative path's segments. */
  function SegmentIgnored(parts: Path, ignorePaths: seq<string>): (r: bool)
    ensures r <==> exists k :: 0 <= k < |parts| && parts[k] in ignorePaths
  {
    if parts == [] then false
    else if parts[0] in ignorePaths then true
    else
      assert forall k :: 1 <= k < |parts| ==> parts[k] == parts[1..][k - 1];
      SegmentIgnored(parts[1..], ignorePaths)
  }

  /**
   * `shouldIgnore(fullPath, basePath, profile)` for the entry at `rel` below
   * the root. The engine only asks about entries below the root, so `rel`
   * has at least one segment.
   */
  function ShouldIgnore(rel: Path, rules: Rules): (r: bool)
    requires |rel| > 0
    ensures r <==>
      || (exists k :: 0 <= k < |rel| && rel[k] in rules.ignorePaths)
      || Extname(rel[|rel| - 1]) in rules.ignoreExtensions
  {
    if SegmentIgnored(rel, rules.ignorePaths) then true
    else Extname(rel[|rel| - 1]) in rules.ignoreExtensions
  }

  /** Once a directory is ignored by one of its segments, so is everything below it. */
  lemma IgnoredSegmentCoversDescendants(rel: Path, below: Path, rules: Rules)
    requires |rel| > 0 && SegmentIgnored(rel, rules.ignorePaths)
    ensures ShouldIgnore(rel + below, rules)
  {
    var k :| 0 <= k < |rel| && rel[k] in rules.ignorePaths;
    assert (rel + below)[k] == rel[k];
  }

  /**
   * An ignore-path entry holding a '/' never equals a segment: when no
   * segment holds a '/', the entries `segmentEntries` that hold none decide
   * alone whether a segment matches.
   */
  lemma SlashEntriesNeverMatch(parts: Path, ignorePaths: seq<string>, segmentEntries: seq<string>)
    requires forall k :: 0 <= k < |parts| ==> '/' !in parts[k]
    requires forall p :: p in segmentEntries <==> p in ignorePaths && '/' !in p
    ensures SegmentIgnored(parts, ignorePaths) == SegmentIgnored(parts, segmentEntries)
  {
    if SegmentIgnored(parts, ignorePaths) {
      var k :| 0 <= k < |parts| && parts[k] in ignorePaths;
      assert parts[k] in segmentEntries;
    }
  }

  /** How a call that may throw ended. */
  datatype Outcome<T> = Returned(value: T) | Threw

  /**
   * A `shouldIgnore` call with a profile that may be missing: with none,
   * the first `profile.ignorePaths()` throws a TypeError.
   */
  function ShouldIgnoreCall(rel: Path, profile: Option<Rules>): (r: Outcome<bool>)
    requires |rel| > 0
    ensures profile.None? <==> r.Threw?
    ensures profile.Some? ==> r == Returned(ShouldIgnore(rel, profile.value))
  {
    match profile
    case None => Threw
    case Some(rules) => Returned(ShouldIgnore(rel, rules))
  }

  /** `items.filter(item => !shouldIgnore(join(directory, item), basePath, profile))`; a throw ends the filter. */
  function KeptItems(rel: Path, names: seq<string>, profile: Option<Rules>): (r: Outcome<seq<string>>)
    ensures profile.None? ==> (r.Threw? <==> names != [])
    ensures profile.Some? ==>
      && r.Returned?
      && forall x :: x in r.value <==> x in names && !ShouldIgnore(rel + [x], profile.value)
  {
    if names == [] then Returned([])
    else match ShouldIgnoreCall(rel + [names[0]], profile)
      case Threw => Threw
      case Returned(ignored) =>
        match KeptItems(rel, names[1..], profile)
        case Threw => Threw
        case Returned(rest) =>
          assert forall x :: x in names <==> x == names[0] || x in names[1..];
          Returned(if ignored then rest else [names[0]] + rest)
  }

  function Names(entries: seq<Node>): (r: seq<string>)
    ensures |r| == |entries| && forall k :: 0 <= k < |r| ==> r[k] == entries[k].name
  {
    if entries == [] then [] else [entries[0].name] + Names(entries[1..])
  }

  /**
   * `isDirectoryEmpty(fullPath, basePath)`. It is called without a profile,
   * so the filter throws on the first entry and the catch answers false; an
   * unreadable listing also lands in the catch.
   */
  function IsDirectoryEmpty(dir: Node, rel: Path): bool {
    if !dir.Dir? then false
    else
      match KeptItems(rel, Names(dir.children), None)
      case Returned(kept) => |kept| == 0
      case Threw => false
  }

  /** A directory counts as empty exactly when its raw listing is empty; ignore rules play no part. */
  lemma IsDirectoryEmptyIff(dir: Node, rel: Path)
    ensures IsDirectoryEmpty(dir, rel) <==> dir.Dir? && dir.children == []
  {
  }
}
