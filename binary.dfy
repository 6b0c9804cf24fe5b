/**
 * `isBinaryFile`: a file is binary when its extension is listed as binary,
 * when it cannot be opened and read, or when a zero byte occurs among the
 * first 1024 bytes it holds.
 */
module Binary {
  import opened FileSystem
  import opened PathExt
  import opened EngineRules

  /** The size of the buffer the first bytes are read into. */
  const SniffLength: nat := 1024

  /** The bytes a read of `SniffLength` bytes from offset 0 returns. */
  function Sniffed(bytes: seq<byte>): (head: seq<byte>)
    ensures |head| == if |bytes| < SniffLength then |bytes| else SniffLength
    ensures IsPrefix(head, bytes)
  {
    if |bytes| < SniffLength then bytes else bytes[..SniffLength]
  }

  /** What `isBinaryFile(fullPath, profile)` answers for the entry `node`. */
  predicate IsBinary(node: Node, rules: Rules) {
    || Extname(node.name) in rules.binaryExtensions
    || !node.File?
    || 0 in Sniffed(node.bytes)
  }

  /** `fs.readSync(fd, buffer, 0, 1024, 0)` on a file that opened: copies the first bytes into the buffer. */
  method ReadSync(buffer: array<byte>, bytes: seq<byte>) returns (bytesRead: nat)
    requires buffer.Length == SniffLength
    modifies buffer
    ensures bytesRead == |Sniffed(bytes)| <= buffer.Length
    ensures buffer[..bytesRead] == Sniffed(bytes)
    ensures buffer[bytesRead..] == old(buffer[bytesRead..])
  {
    bytesRead := if |bytes| < SniffLength then |bytes| else SniffLength;
    var i := 0;
    while i < bytesRead
      invariant 0 <= i <= bytesRead
      invariant buffer[..i] == bytes[..i]
      invariant buffer[i..] == old(buffer[i..])
    {
      buffer[i] := bytes[i];
      i := i + 1;
    }
  }

  method IsBinaryFile(node: Node, rules: Rules) returns (binary: bool)
    ensures binary == IsBinary(node, rules)
  {
    var ext := Extname(node.name);
    if ext in rules.binaryExtensions {
      return true;
    }
    if !node.File? {
      // opening or reading throws, and the catch answers true
      return true;
    }
    var buffer := new byte[SniffLength];
    var bytesRead := ReadSync(buffer, node.bytes);
    var i := 0;
    while i < bytesRead
      invariant 0 <= i <= bytesRead
      invariant forall k :: 0 <= k < i ==> buffer[k] != 0
    {
      if buffer[i] == 0 {
        assert buffer[..bytesRead][i] == 0;
        return true;
      }
      i := i + 1;
    }
    assert forall k :: 0 <= k < bytesRead ==> buffer[..bytesRead][k] != 0;
    return false;
  }

  /** Bytes beyond the first `SniffLength` never change the answer. */
  lemma BytesPastSniffIgnored(name: string, bytes: seq<byte>, more: seq<byte>, rules: Rules)
    requires |bytes| >= SniffLength
    ensures IsBinary(File(name, bytes + more), rules) == IsBinary(File(name, bytes), rules)
  {
    assert (bytes + more)[..SniffLength] == bytes[..SniffLength];
  }

  /** A file shorter than the buffer is judged on all of its bytes. */
  lemma ShortFileScannedWhole(name: string, bytes: seq<byte>, rules: Rules)
    requires |bytes| <= SniffLength
    ensures IsBinary(File(name, bytes), rules) <==> Extname(name) in rules.binaryExtensions || 0 in bytes
  {
    if |bytes| == SniffLength {
      assert bytes[..SniffLength] == bytes;
    }
  }

  /** An empty file whose extension is not listed as binary is text. */
  lemma EmptyFileIsText(name: string, rules: Rules)
    requires Extname(name) !in rules.binaryExtensions
    ensures !IsBinary(File(name, []), rules)
  {
  }

  /** A file that cannot be opened always counts as binary, so it is never embedded. */
  lemma LockedFileIsBinary(name: string, size: nat, rules: Rules)
    ensures IsBinary(LockedFile(name, size), rules)
  {
  }
}
