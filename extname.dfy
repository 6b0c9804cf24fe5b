/**
 * Node.js `path.extname` on a POSIX path, applied to the path's final
 * segment (a directory entry name, which holds no '/').
 */
module PathExt {

  /** Index of the last '.' in `s`, or -1 when there is none. */
  function LastDot(s: string): (d: int)
    ensures -1 <= d < |s|
    ensures d >= 0 ==> s[d] == '.' && forall k :: d < k < |s| ==> s[k] != '.'
    ensures d == -1 ==> forall k :: 0 <= k < |s| ==> s[k] != '.'
  {
    if |s| == 0 then -1
    else if s[|s| - 1] == '.' then |s| - 1
    else LastDot(s[..|s| - 1])
  }

  /**
   * The extension of `name`: from its last '.' to the end, or "" when it has
   * no '.', when its only candidate '.' is its first character (".env"), or
   * when it is exactly "..".
   */
  function Extname(name: string): (ext: string)
    ensures ext == "" <==> name == ".." || forall k :: 0 < k < |name| ==> name[k] != '.'
    ensures ext != "" ==>
      && 0 < |ext| < |name|
      && ext == name[|name| - |ext|..]
      && ext[0] == '.'
      && forall k :: 0 < k < |ext| ==> ext[k] != '.'
  {
    var d := LastDot(name);
    if d <= 0 || name == ".." then "" else name[d..]
  }

  /** A leading dot alone is not an extension; a trailing dot is one; no dot, no extension. */
  lemma ExtnameEdges()
    ensures Extname(".env") == ""
    ensures Extname("a.") == "."
    ensures Extname("Makefile") == ""
  {
  }

  /** Only the last dot counts. */
  lemma ExtnameLastDotWins()
    ensures Extname("archive.tar.gz") == ".gz"
  {
    var n := "archive.tar.gz";
    assert n[11] == '.' && n[12] == 'g' && n[13] == 'z';
    assert LastDot(n) == 11 by {
      assert n[..13][..12] == n[..12];
    }
  }

  /** A dotfile with an extension of its own has that extension. */
  lemma ExtnameOfDottedDotfile()
    ensures Extname(".a.b") == ".b"
  {
    var m := ".a.b";
    assert m[2] == '.' && m[3] == 'b';
    assert LastDot(m) == 2 by {
      assert m[..3] == ".a.";
    }
  }
}
