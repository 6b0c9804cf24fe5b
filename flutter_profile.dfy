/** The `flutter` preset: constant lists; its binary extensions are its ignored extensions. */
module FlutterProfile {

  const Name: string := "flutter"

  /** Path entries to ignore; several of them span more than one segment. */
  const IgnorePaths: seq<string> := [
    ".dart_tool", "build", ".flutter-plugins", ".flutter-plugins-dependencies",
    "android/.gradle", "android/build", "android/app/build",
    "ios/Flutter/ephemeral", "ios/Runner.xcodeproj", "ios/Runner.xcworkspace",
    "macos/Flutter/ephemeral", "macos/Runner.xcodeproj",
    "build/web",
    "windows/build",
    "linux/build",
    ".git", ".idea", ".vscode", ".DS_Store"
  ]

  const IgnoreExtensions: seq<string> := [
    ".png", ".jpg", ".jpeg", ".gif", ".svg", ".ico",
    ".mp4", ".mp3", ".wav",
    ".ttf", ".otf", ".woff", ".woff2",
    ".zip", ".rar", ".tar", ".gz",
    ".exe", ".dll", ".so", ".dylib"
  ]

  /** The entries that are a single segment; only these can equal a path component. */
  const SegmentEntries: seq<string> := [
    ".dart_tool", "build", ".flutter-plugins", ".flutter-plugins-dependencies",
    ".git", ".idea", ".vscode", ".DS_Store"
  ]

  /** `SegmentEntries` is exactly the part of `IgnorePaths` without a '/'. */
  lemma SegmentEntriesAreTheSlashFreeOnes()
    ensures forall p :: p in SegmentEntries <==> p in IgnorePaths && '/' !in p
  {
    SegmentEntriesAreEntries();
    SlashFreeEntriesAreSegments();
  }

  lemma SegmentEntriesAreEntries()
    ensures forall p :: p in SegmentEntries ==> p in IgnorePaths && '/' !in p
  {
    forall k | 0 <= k < |SegmentEntries|
      ensures SegmentEntries[k] in IgnorePaths && '/' !in SegmentEntries[k]
    {
    }
  }

  lemma SlashFreeEntriesAreSegments()
    ensures forall p :: p in IgnorePaths && '/' !in p ==> p in SegmentEntries
  {
    forall k | 0 <= k < |IgnorePaths| && '/' !in IgnorePaths[k]
      ensures IgnorePaths[k] in SegmentEntries
    {
    }
  }

  lemma ExtensionsStartWithDot()
    ensures forall e :: e in IgnoreExtensions ==> |e| > 1 && e[0] == '.'
  {
  }
}
