/**
 * The profile object the engine consults. The base class records command-line
 * ignores; the `generic` and `flutter` subclasses override its getters with
 * constant lists. The subclass is kept as a `Kind` tag and each overridden
 * getter dispatches on it.
 */
module ProjectProfile {
  import GenericProfile
  import FlutterProfile
  import opened EngineRules

  datatype Kind = Base | Generic | Flutter

  predicate StartsWithDot(s: string) {
    |s| > 0 && s[0] == '.'
  }

  /** The items of `list` that start with '.', in order. */
  function Dotted(list: seq<string>): seq<string>
  {
    if list == [] then []
    else
      var last := list[|list| - 1];
      Dotted(list[..|list| - 1]) + (if StartsWithDot(last) then [last] else [])
  }

  /** The items of `list` that do not start with '.', in order. */
  function Undotted(list: seq<string>): seq<string>
  {
    if list == [] then []
    else
      var last := list[|list| - 1];
      Undotted(list[..|list| - 1]) + (if StartsWithDot(last) then [] else [last])
  }

  /** Filtering a list extended by one item extends the matching filtered list by that item. */
  lemma FiltersSnoc(init: seq<string>, x: string)
    ensures Dotted(init + [x]) == Dotted(init) + (if StartsWithDot(x) then [x] else [])
    ensures Undotted(init + [x]) == Undotted(init) + (if StartsWithDot(x) then [] else [x])
  {
    assert (init + [x])[..|init|] == init;
  }

  /** Filtering one more item of `list`. */
  lemma FiltersStep(list: seq<string>, i: nat)
    requires i < |list|
    ensures Dotted(list[..i + 1]) == Dotted(list[..i]) + (if StartsWithDot(list[i]) then [list[i]] else [])
    ensures Undotted(list[..i + 1]) == Undotted(list[..i]) + (if StartsWithDot(list[i]) then [] else [list[i]])
  {
    assert list[..i + 1] == list[..i] + [list[i]];
    FiltersSnoc(list[..i], list[i]);
  }

  /** The extensions recorded are the dotted items, the paths recorded the others. */
  lemma {:induction false} FiltersMembers(list: seq<string>)
    ensures forall x :: x in Dotted(list) <==> x in list && StartsWithDot(x)
    ensures forall x :: x in Undotted(list) <==> x in list && !StartsWithDot(x)
  {
    if list != [] {
      var init, last := list[..|list| - 1], list[|list| - 1];
      FiltersMembers(init);
      assert list == init + [last];
      FiltersSnoc(init, last);
    }
  }

  /** Each command-line item lands in exactly one of the two lists, and nothing else is added. */
  lemma {:induction false} CliItemsPartitioned(list: seq<string>)
    ensures multiset(Dotted(list)) + multiset(Undotted(list)) == multiset(list)
    ensures |Dotted(list)| + |Undotted(list)| == |list|
  {
    if list != [] {
      var init, last := list[..|list| - 1], list[|list| - 1];
      CliItemsPartitioned(init);
      assert list == init + [last];
      FiltersSnoc(init, last);
    }
  }

  class Profile {
    const kind: Kind
    var projectRoot: string
    var cliIgnorePaths: seq<string>
    var cliIgnoreExtensions: seq<string>

    constructor (kind: Kind, projectRoot: string)
      ensures this.kind == kind && this.projectRoot == projectRoot
      ensures cliIgnorePaths == [] && cliIgnoreExtensions == []
    {
      this.kind := kind;
      this.projectRoot := projectRoot;
      cliIgnorePaths := [];
      cliIgnoreExtensions := [];
    }

    /** Appends each item starting with '.' to the extensions, every other item to the paths. */
    method ApplyCliIgnores(list: seq<string>)
      modifies this
      ensures projectRoot == old(projectRoot)
      ensures cliIgnoreExtensions == old(cliIgnoreExtensions) + Dotted(list)
      ensures cliIgnorePaths == old(cliIgnorePaths) + Undotted(list)
    {
      var i := 0;
      while i < |list|
        invariant 0 <= i <= |list|
        invariant projectRoot == old(projectRoot)
        invariant cliIgnoreExtensions == old(cliIgnoreExtensions) + Dotted(list[..i])
        invariant cliIgnorePaths == old(cliIgnorePaths) + Undotted(list[..i])
      {
        var item := list[i];
        if StartsWithDot(item) {
          cliIgnoreExtensions := cliIgnoreExtensions + [item];
        } else {
          cliIgnorePaths := cliIgnorePaths + [item];
        }
        FiltersStep(list, i);
        i := i + 1;
      }
      assert list[..|list|] == list;
    }

    function Name(): string {
      match kind
      case Base => "base"
      case Generic => GenericProfile.Name
      case Flutter => FlutterProfile.Name
    }

    function IgnorePaths(): seq<string>
      reads this
    {
      match kind
      case Base => cliIgnorePaths
      case Generic => GenericProfile.IgnorePaths
      case Flutter => FlutterProfile.IgnorePaths
    }

    function IgnoreExtensions(): seq<string>
      reads this
    {
      match kind
      case Base => cliIgnoreExtensions
      case Generic => GenericProfile.IgnoreExtensions
      case Flutter => FlutterProfile.IgnoreExtensions
    }

    function BinaryExtensions(): seq<string>
      reads this
    {
      match kind
      case Base => []
      case Generic => GenericProfile.BinaryExtensions
      case Flutter => IgnoreExtensions()
    }

    /** No profile auto-detects its project; the subclasses inherit this. */
    function Detect(): bool {
      false
    }

    /** What `shouldIgnore` and `isBinaryFile` read from the profile. */
    function CurrentRules(): Rules
      reads this
    {
      Rules(IgnorePaths(), IgnoreExtensions(), BinaryExtensions())
    }
  }

  /** The base profile's lists are exactly what the command line recorded; it has no binary extensions. */
  lemma BaseGetters(p: Profile)
    requires p.kind == Base
    ensures p.Name() == "base" && !p.Detect()
    ensures p.CurrentRules() == Rules(p.cliIgnorePaths, p.cliIgnoreExtensions, [])
  {
  }

  /** A preset's lists do not depend on what `ApplyCliIgnores` recorded. */
  lemma PresetsDiscardCliIgnores(p: Profile)
    requires p.kind != Base
    ensures p.kind == Generic ==>
      && p.Name() == "generic"
      && p.CurrentRules() == Rules(GenericProfile.IgnorePaths, GenericProfile.IgnoreExtensions, GenericProfile.BinaryExtensions)
    ensures p.kind == Flutter ==>
      && p.Name() == "flutter"
      && p.CurrentRules() == Rules(FlutterProfile.IgnorePaths, FlutterProfile.IgnoreExtensions, FlutterProfile.IgnoreExtensions)
  {
  }

  /** A dotted name such as ".git" given on the command line is recorded as an extension, never as a path. */
  lemma DottedNameIsAnExtension(list: seq<string>, x: string)
    requires x in list && StartsWithDot(x)
    ensures x in Dotted(list) && x !in Undotted(list)
  {
    FiltersMembers(list);
  }
}
