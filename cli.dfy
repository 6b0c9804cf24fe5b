/**
 * `main`: the argument loop, profile resolution, and the call that
 * generates the document.
 */
module Cli {
  import opened FileSystem
  import opened ProjectProfile
  import opened Registry
  import opened Presets
  import opened Tree
  import opened Document

  const DefaultProjectPath := "."
  const DefaultOutputFile := "PROJECT_DOCUMENTATION.md"

  predicate IsPresetFlag(arg: string) {
    arg == "--project-type" || arg == "--preset"
  }

  /**
   * The preset the arguments from position `i` on leave selected, `current`
   * being the one selected before: a flag takes the next argument (nothing
   * when it is the last one) and skips it; the last flag wins.
   */
  function PresetFrom(args: seq<string>, i: nat, current: Option<string>): Option<string>
    decreases |args| - i
  {
    if i >= |args| then current
    else if IsPresetFlag(args[i]) then PresetFrom(args, i + 2, if i + 1 < |args| then Some(args[i + 1]) else None)
    else PresetFrom(args, i + 1, current)
  }

  /**
   * The argument loop of `main`. The project path and the output file start
   * non-empty, so the branches that would take a positional argument never
   * run and both keep their defaults.
   */
  method ParseArgs(args: seq<string>) returns (projectPath: string, outputFile: string, projectType: Option<string>)
    ensures projectPath == DefaultProjectPath && outputFile == DefaultOutputFile
    ensures projectType == PresetFrom(args, 0, None)
  {
    projectPath := DefaultProjectPath;
    outputFile := DefaultOutputFile;
    projectType := None;
    var i := 0;
    while i < |args|
      invariant i <= |args| + 1
      invariant projectPath == DefaultProjectPath && outputFile == DefaultOutputFile
      invariant PresetFrom(args, i, projectType) == PresetFrom(args, 0, None)
      decreases |args| + 1 - i
    {
      var arg := args[i];
      if IsPresetFlag(arg) {
        projectType := if i + 1 < |args| then Some(args[i + 1]) else None;
        i := i + 1;
      } else if projectPath == "" {
        projectPath := arg;
      } else if outputFile == "" {
        outputFile := arg;
      }
      i := i + 1;
    }
  }

  /** Arguments without a flag leave the selection as it was. */
  lemma {:induction false} FlagFreeKeeps(args: seq<string>, i: nat, current: Option<string>)
    requires forall k :: i <= k < |args| ==> !IsPresetFlag(args[k])
    ensures PresetFrom(args, i, current) == current
    decreases |args| - i
  {
    if i < |args| {
      FlagFreeKeeps(args, i + 1, current);
    }
  }

  /** Flag-free arguments before position `j` are stepped over one by one. */
  lemma {:induction false} FlagFreeSkipped(args: seq<string>, i: nat, j: nat, current: Option<string>)
    requires i <= j <= |args|
    requires forall k :: i <= k < j ==> !IsPresetFlag(args[k])
    ensures PresetFrom(args, i, current) == PresetFrom(args, j, current)
    decreases j - i
  {
    if i < j {
      FlagFreeSkipped(args, i + 1, j, current);
    }
  }

  /** Without a flag no preset is selected. */
  lemma NoFlagNoPreset(args: seq<string>)
    requires forall k :: 0 <= k < |args| ==> !IsPresetFlag(args[k])
    ensures PresetFrom(args, 0, None) == None
  {
    FlagFreeKeeps(args, 0, None);
  }

  /** Where the pieces of `before + [flag, value] + after` sit. */
  lemma FlagPosition(before: seq<string>, flag: string, value: string, after: seq<string>)
    ensures var args := before + [flag, value] + after;
      && |args| == |before| + 2 + |after|
      && (forall k :: 0 <= k < |before| ==> args[k] == before[k])
      && args[|before|] == flag && args[|before| + 1] == value
      && (forall k :: |before| + 2 <= k < |args| ==> args[k] == after[k - |before| - 2])
  {
  }

  /** The argument after the only flag is the preset, whatever it is. */
  lemma PresetNamed(before: seq<string>, flag: string, value: string, after: seq<string>)
    requires IsPresetFlag(flag)
    requires forall k :: 0 <= k < |before| ==> !IsPresetFlag(before[k])
    requires forall k :: 0 <= k < |after| ==> !IsPresetFlag(after[k])
    ensures PresetFrom(before + [flag, value] + after, 0, None) == Some(value)
  {
    var args := before + [flag, value] + after;
    FlagPosition(before, flag, value, after);
    FlagFreeSkipped(args, 0, |before|, None);
    FlagFreeKeeps(args, |before| + 2, Some(value));
  }

  /** A flag given last, with no value after it, selects no preset. */
  lemma TrailingFlagSelectsNothing(before: seq<string>, flag: string)
    requires IsPresetFlag(flag)
    requires forall k :: 0 <= k < |before| ==> !IsPresetFlag(before[k])
    ensures PresetFrom(before + [flag], 0, None) == None
  {
    var args := before + [flag];
    FlagFreeSkipped(args, 0, |before|, None);
    assert args[|before|] == flag;
  }

  /**
   * Profile resolution in `main`: the registry by the preset named on the
   * command line; when that gives nothing, a Flutter project was detected
   * and stdin is a terminal, the registry by the preset the user picks;
   * the fallback when both gave nothing.
   */
  method ResolveProfile(projectType: Option<string>, projectPath: string, flutterDetected: bool, isTTY: bool,
                        selected: string)
    returns (profile: Profile)
    ensures fresh(profile)
    ensures profile.kind == Generic && profile.projectRoot == projectPath
    ensures profile.cliIgnorePaths == [] && profile.cliIgnoreExtensions == []
  {
    var found := GetByName(projectType, projectPath);
    if found == null && flutterDetected && isTTY {
      found := GetByName(Some(selected), projectPath);
    }
    if found == null {
      found := Fallback(projectPath);
    }
    profile := found;
  }

  /**
   * `main` from the arguments to the document: `root` is the entry at the
   * project path, `absPath` its absolute form. Whatever the arguments and
   * whatever the user picks, the document is generated with the generic
   * preset's lists.
   */
  method Run(args: seq<string>, root: Node, absPath: string, flutterDetected: bool, isTTY: bool, selected: string,
             collate: Collation, decode: seq<byte> -> string, failure: Path -> string, latin1: Path -> Option<string>)
    returns (outputFile: string, document: Option<string>)
    ensures outputFile == DefaultOutputFile
    ensures document.None? <==> root.Dangling?
    ensures document.Some? ==> document.value == Documentation(root, absPath, GenericRules, collate, decode, failure, latin1)
  {
    var projectPath, projectType;
    projectPath, outputFile, projectType := ParseArgs(args);
    var profile := ResolveProfile(projectType, projectPath, flutterDetected, isTTY, selected);
    var rules := profile.CurrentRules();
    document := GenerateDocumentation(root, absPath, rules, collate, decode, failure, latin1);
  }
}
