/** generate_checksum: the md5 of a file, fed to the hasher in 4096-byte
    chunks, written as one line `<digest> <marker><relative path>` next to it. */
module Checksum {
  import opened Wrappers
  import opened Paths
  import opened Disk

  /** `'*'` for a binary file, `' '` for a text file. */
  function Marker(isBinary: bool): char {
    if isBinary then '*' else ' '
  }

  /** The line written to the checksum file. */
  function ChecksumLine(digest: HexDigest, isBinary: bool, relpath: string): (line: string)
    ensures |line| == 35 + |relpath|
    ensures line[..32] == digest && line[32] == ' ' && line[33] == Marker(isBinary)
    ensures line[34..|line| - 1] == relpath && line[|line| - 1] == '\n'
  {
    var line := digest + " " + [Marker(isBinary)] + relpath + "\n";
    assert line[34..|line| - 1] == relpath;
    line
  }

  /** Reads a checksum line back: digest, binary flag and relative path. */
  function ParseChecksumLine(line: string): Option<(HexDigest, bool, string)> {
    if |line| >= 35 && (forall i :: 0 <= i < 32 ==> HexChar(line[i]))
       && line[32] == ' ' && (line[33] == '*' || line[33] == ' ') && line[|line| - 1] == '\n'
    then
      var digest: HexDigest := line[..32];
      Some((digest, line[33] == '*', line[34..|line| - 1]))
    else None
  }

  /** A checksum line reads back as the digest, flag and path written into it. */
  lemma ParseChecksumLineOfLine(digest: HexDigest, isBinary: bool, relpath: string)
    ensures ParseChecksumLine(ChecksumLine(digest, isBinary, relpath)) == Some((digest, isBinary, relpath))
  {
    var l := ChecksumLine(digest, isBinary, relpath);
    assert forall i :: 0 <= i < 32 ==> l[i] == digest[i];
  }

  /** Every line the parser accepts is the rendering of what it read. */
  lemma ChecksumLineOfParse(line: string)
    requires ParseChecksumLine(line).Some?
    ensures var (d, b, r) := ParseChecksumLine(line).value;
      ChecksumLine(d, b, r) == line
  {
    var (d, b, r) := ParseChecksumLine(line).value;
    var l2 := ChecksumLine(d, b, r);
    assert |l2| == |line|;
    forall i | 0 <= i < |line|
      ensures l2[i] == line[i]
    {
      if i < 32 {
        assert l2[i] == l2[..32][i];
      } else if 34 <= i < |line| - 1 {
        assert l2[i] == l2[34..|l2| - 1][i - 34];
        assert line[i] == line[34..|line| - 1][i - 34];
      }
    }
  }

  /** Where the checksum goes: the given path, or the file's path plus `.md5`. */
  function ChecksumPath(archivePath: string, checksumPath: Option<string>): string {
    match checksumPath
    case None => archivePath + ".md5"
    case Some(p) => p
  }

  /** The whole of generate_checksum on a disk. The relative path is taken
      before anything is opened; posixpath.relpath refuses an empty path. */
  function ChecksumStep(d: State, lib: Libraries, archivePath: string, isBinary: bool,
                        checksumPath: Option<string>): (s: Step<()>)
    ensures s.result.Ok? <==>
      archivePath != "" && archivePath in d.files
      && ChecksumPath(archivePath, checksumPath) !in d.dirs
      && ParentExists(d, ChecksumPath(archivePath, checksumPath))
    ensures s.result.Ok? ==>
      var cp := ChecksumPath(archivePath, checksumPath);
      var line := ChecksumLine(lib.md5(d.files[archivePath]), isBinary, RelPath(archivePath, Dirname(cp)));
      s.disk == State(d.files[cp := lib.encodeText(line)], d.dirs)
    ensures s.result.Err? ==> s.disk == d
  {
    var cp := ChecksumPath(archivePath, checksumPath);
    if archivePath == "" then Step(Err(NoPathSpecified), d)
    else
      var rel := RelPath(archivePath, Dirname(cp));
      match ReadResult(d, archivePath)
      case Err(e) => Step(Err(e), d)
      case Ok(data) => WriteStep(d, cp, lib.encodeText(ChecksumLine(lib.md5(data), isBinary, rel)))
  }

  /** After a checksum is written, the file is unchanged and the checksum
      file holds the digest of its contents. */
  lemma ChecksumWritten(d: State, lib: Libraries, archivePath: string, isBinary: bool, checksumPath: Option<string>,
                        data: Bytes)
    requires archivePath in d.files && d.files[archivePath] == data
    requires ChecksumPath(archivePath, checksumPath) != archivePath
    requires ChecksumStep(d, lib, archivePath, isBinary, checksumPath).result.Ok?
    ensures var cp := ChecksumPath(archivePath, checksumPath);
      var e := ChecksumStep(d, lib, archivePath, isBinary, checksumPath).disk;
      && archivePath in e.files && e.files[archivePath] == data
      && cp in e.files
      && e.files[cp] == lib.encodeText(ChecksumLine(lib.md5(data), isBinary, RelPath(archivePath, Dirname(cp))))
  {
  }

  /** With the default checksum path, the line names the file by its basename,
      so the checksum file stays valid wherever the pair of files is moved. */
  lemma DefaultChecksumNamesBasename(d: State, lib: Libraries, archivePath: string, isBinary: bool)
    requires Basename(archivePath) != "" && Basename(archivePath) != "." && Basename(archivePath) != ".."
    requires ChecksumStep(d, lib, archivePath, isBinary, None).result.Ok?
    ensures var line := ChecksumLine(lib.md5(d.files[archivePath]), isBinary, Basename(archivePath));
      && ChecksumStep(d, lib, archivePath, isBinary, None).disk.files[archivePath + ".md5"] == lib.encodeText(line)
      && ParseChecksumLine(line) == Some((lib.md5(d.files[archivePath]), isBinary, Basename(archivePath)))
  {
    var b := Basename(archivePath);
    Md5SuffixNoSlash();
    RelPathToSibling(archivePath, ".md5");
    DefaultChecksumFile(d, lib, archivePath, isBinary, b);
    ParseChecksumLineOfLine(lib.md5(d.files[archivePath]), isBinary, b);
  }

  /** The checksum suffix keeps a file in its directory. */
  lemma Md5SuffixNoSlash()
    ensures NoSlash(".md5")
  {
    var m := ".md5";
    assert m[0] == '.' && m[1] == 'm' && m[2] == 'd' && m[3] == '5';
  }

  /** The default checksum file holds the line for the given relative path. */
  lemma DefaultChecksumFile(d: State, lib: Libraries, archivePath: string, isBinary: bool, rel: string)
    requires ChecksumStep(d, lib, archivePath, isBinary, None).result.Ok?
    requires rel == RelPath(archivePath, Dirname(archivePath + ".md5"))
    ensures ChecksumStep(d, lib, archivePath, isBinary, None).disk.files[archivePath + ".md5"]
      == lib.encodeText(ChecksumLine(lib.md5(d.files[archivePath]), isBinary, rel))
  {
  }

  /** An open file read from the start, `read(n)` at a time. */
  class Reader {
    const data: Bytes
    var pos: nat

    constructor (data: Bytes)
      ensures this.data == data && pos == 0
    {
      this.data := data;
      pos := 0;
    }

    /** read(n): up to n bytes from the current position; b'' at the end. */
    method Read(n: nat) returns (chunk: Bytes)
      requires pos <= |data|
      modifies this
      ensures pos == if old(pos) + n <= |data| then old(pos) + n else |data|
      ensures chunk == data[old(pos)..pos]
    {
      var end := if pos + n <= |data| then pos + n else |data|;
      chunk := data[pos..end];
      pos := end;
    }
  }

  /** A `hashlib.md5()` object: it digests everything it was fed, in order. */
  class Hasher {
    var fed: Bytes

    constructor ()
      ensures fed == []
    {
      fed := [];
    }

    method Update(chunk: Bytes)
      modifies this
      ensures fed == old(fed) + chunk
    {
      fed := fed + chunk;
    }

    function HexDigest(lib: Libraries): HexDigest
      reads this
    {
      lib.md5(fed)
    }
  }

  /** The read loop of generate_checksum: feeding the file in chunks of 4096
      bytes until read returns b'' digests exactly the file's contents. */
  method FileDigest(data: Bytes, lib: Libraries) returns (digest: HexDigest)
    ensures digest == lib.md5(data)
  {
    var contents := new Reader(data);
    var checksum := new Hasher();
    var chunk := contents.Read(4096);
    while chunk != []
      invariant contents.data == data && contents.pos <= |data|
      invariant checksum.fed + chunk == data[..contents.pos]
      invariant chunk == [] ==> contents.pos == |data|
      decreases |data| - |checksum.fed|
    {
      checksum.Update(chunk);
      chunk := contents.Read(4096);
    }
    assert data[..contents.pos] == data;
    digest := checksum.HexDigest(lib);
  }

  /** generate_checksum on the file system. */
  method GenerateChecksum(fs: FileSystem, lib: Libraries, archivePath: string, isBinary: bool,
                          checksumPath: Option<string>) returns (r: Result<()>)
    modifies fs
    ensures r == ChecksumStep(old(fs.Disk()), lib, archivePath, isBinary, checksumPath).result
    ensures fs.Disk() == ChecksumStep(old(fs.Disk()), lib, archivePath, isBinary, checksumPath).disk
  {
    var cp := ChecksumPath(archivePath, checksumPath);
    if archivePath == "" {
      return Err(NoPathSpecified);
    }
    var checksumDirname := Dirname(cp);
    var archiveRelpath := RelPath(archivePath, checksumDirname);
    var contents := fs.Read(archivePath);
    if contents.Err? {
      return Err(contents.error);
    }
    var digest := FileDigest(contents.value, lib);
    var line := ChecksumLine(digest, isBinary, archiveRelpath);
    r := fs.Write(cp, lib.encodeText(line));
  }
}
