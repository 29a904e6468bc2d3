/** The part of the operating system and of the libraries the builder touches.
    The disk is a map from file paths to contents plus a set of directory
    paths, both keyed by the path strings the builder forms. The libraries the
    builder calls (hashlib, ElementTree, gzip, zipfile, os.walk, tempfile,
    GitPython, the text encoder of io.open) are total functions handed in as a
    `Libraries` value: the model says where their results go, not how they are
    computed. */
module Disk {
  import opened Wrappers
  import opened Paths
  import opened Metadata

  newtype byte = b: int | 0 <= b < 256
  type Bytes = seq<byte>

  predicate HexChar(c: char) {
    '0' <= c <= '9' || 'a' <= c <= 'f'
  }

  /** What `hashlib.md5().hexdigest()` returns: 32 lower-case hex digits. */
  type HexDigest = s: string | |s| == 32 && forall i :: 0 <= i < |s| ==> HexChar(s[i])
    witness "00000000000000000000000000000000"

  /** An absolute path, as tempfile.mkdtemp returns. */
  type AbsolutePath = s: string | |s| > 0 && s[0] == '/' witness "/"

  /** One entry of a zip archive: its member name and its contents. */
  datatype ZipMember = ZipMember(name: string, data: Bytes)

  /** The files and directories on disk. */
  datatype State = State(files: map<string, Bytes>, dirs: set<string>)

  /** What one call did: its result, and the disk it left behind. */
  datatype Step<T> = Step(result: Result<T>, disk: State)

  datatype Libraries = Libraries(
    md5: Bytes -> HexDigest,                                 // hashlib.md5 over all chunks
    parseXml: Bytes -> Option<Element>,                      // ElementTree.parse; None: ParseError
    writeXml: Element -> Bytes,                              // ElementTree.write, UTF-8, with declaration
    gzip: Bytes -> Bytes,                                    // gzip.open(..., 'wb')
    encodeText: string -> Bytes,                             // io.open(..., 'w') with the locale encoding
    zip: seq<ZipMember> -> Bytes,                            // zipfile.ZipFile(..., 'w', ZIP_DEFLATED)
    unzip: Bytes -> Option<seq<ZipMember>>,                  // zipfile.ZipFile(...); None: BadZipFile
    walk: (State, string) -> seq<(string, string)>,          // os.walk: (root, file name) in visiting order
    sameFile: (string, string) -> bool,                      // os.path.samefile on two existing paths
    mkdtemp: set<string> -> AbsolutePath,                    // tempfile.mkdtemp('-repo'), given the dirs taken
    gitInstalled: bool,                                      // `import git` succeeds
    gitClone: (string, string) -> Option<map<string, Bytes>>, // Repo.clone_from(repo, folder): files written
    gitCheckout: (map<string, Bytes>, string) -> Option<map<string, Bytes>>, // git checkout <branch>
    gitArchive: (map<string, Bytes>, string, string) -> Option<Bytes>)       // git archive --format zip

  /** The parent directory a new entry needs: the current directory (an empty
      dirname) always exists. The empty path has no entry to create (ENOENT). */
  predicate ParentExists(d: State, p: string) {
    p != "" && (Dirname(p) == "" || Dirname(p) in d.dirs)
  }

  /** os.mkdir: fails when the path is taken or its parent is missing. */
  function MkdirStep(d: State, p: string): (s: Step<()>)
    ensures s.result.Ok? <==> p !in d.dirs && p !in d.files && ParentExists(d, p)
    ensures s.result.Ok? ==> s.disk == State(d.files, d.dirs + {p})
    ensures s.result.Err? ==> s.result.error == OSError(p) && s.disk == d
  {
    if p in d.dirs || p in d.files || !ParentExists(d, p) then Step(Err(OSError(p)), d)
    else Step(Ok(()), d.(dirs := d.dirs + {p}))
  }

  /** `if not os.path.isdir(p): os.mkdir(p)` */
  function EnsureDirStep(d: State, p: string): (s: Step<()>)
    ensures s.result.Ok? <==> IsDir(d, p) || (p !in d.files && ParentExists(d, p))
    ensures s.result.Ok? ==> p != "" && s.disk == State(d.files, d.dirs + {p})
    ensures s.result.Err? ==> s.result.error == OSError(p) && s.disk == d
  {
    if IsDir(d, p) then Step(Ok(()), d) else MkdirStep(d, p)
  }

  /** open(p, 'wb') and a write of `data`: the file is created or truncated;
      a directory in the way or a missing parent is an error. */
  function WriteStep(d: State, p: string, data: Bytes): (s: Step<()>)
    ensures s.result.Ok? <==> p !in d.dirs && ParentExists(d, p)
    ensures s.result.Ok? ==> s.disk == State(d.files[p := data], d.dirs)
    ensures s.result.Err? ==> s.result.error == OSError(p) && s.disk == d
  {
    if p in d.dirs || !ParentExists(d, p) then Step(Err(OSError(p)), d)
    else Step(Ok(()), d.(files := d.files[p := data]))
  }

  /** open(p, 'rb').read(): only a regular file can be read. */
  function ReadResult(d: State, p: string): (r: Result<Bytes>)
    ensures r.Ok? <==> p in d.files
    ensures r.Ok? ==> r.value == d.files[p]
    ensures r.Err? ==> r.error == OSError(p)
  {
    if p in d.files then Ok(d.files[p]) else Err(OSError(p))
  }

  /** shutil.copyfile: the same path twice is refused (SameFileError), then the
      source is read and the target written. */
  function CopyStep(d: State, src: string, dst: string): (s: Step<()>)
    ensures s.result.Ok? <==> src != dst && src in d.files && dst !in d.dirs && ParentExists(d, dst)
    ensures s.result.Ok? ==> s.disk == State(d.files[dst := d.files[src]], d.dirs)
    ensures s.result.Err? ==> s.disk == d
  {
    if src == dst then Step(Err(OSError(dst)), d)
    else
      match ReadResult(d, src)
      case Err(e) => Step(Err(e), d)
      case Ok(data) => WriteStep(d, dst, data)
  }

  /** Whether os.stat finds `p`: the empty path names nothing. */
  predicate Exists(d: State, p: string) {
    p != "" && (p in d.files || p in d.dirs)
  }

  /** os.path.isdir: the empty path is no directory. */
  predicate IsDir(d: State, p: string) {
    p != "" && p in d.dirs
  }

  /** os.path.isfile: the empty path is no file. */
  predicate IsFile(d: State, p: string) {
    p != "" && p in d.files
  }

  /** os.path.samefile: both paths must exist. */
  function SameFileResult(d: State, lib: Libraries, a: string, b: string): (r: Result<bool>)
    ensures r.Ok? <==> Exists(d, a) && Exists(d, b)
    ensures r.Ok? ==> r.value == lib.sameFile(a, b)
    ensures !Exists(d, a) ==> r == Err(OSError(a))
  {
    if !Exists(d, a) then Err(OSError(a))
    else if !Exists(d, b) then Err(OSError(b))
    else Ok(lib.sameFile(a, b))
  }

  /** Whether `p` is `folder` itself or lies below it. */
  predicate Under(p: string, folder: string) {
    |folder| <= |p| && p[..|folder|] == folder && (|p| == |folder| || p[|folder|] == '/')
  }

  /** shutil.rmtree(folder): the folder and everything below it disappear. */
  function RemoveTree(d: State, folder: string): (e: State)
    ensures forall p :: p in e.files <==> p in d.files && !Under(p, folder)
    ensures forall p :: p in e.files ==> e.files[p] == d.files[p]
    ensures forall p :: p in e.dirs <==> p in d.dirs && !Under(p, folder)
  {
    State(map p | p in d.files && !Under(p, folder) :: d.files[p],
          set p | p in d.dirs && !Under(p, folder))
  }

  /** The disk as a mutable object: each method performs one system call and
      leaves the disk its step function describes. */
  class FileSystem {
    var files: map<string, Bytes>
    var dirs: set<string>

    function Disk(): State
      reads this
    {
      State(files, dirs)
    }

    constructor (initial: State)
      ensures Disk() == initial
    {
      files := initial.files;
      dirs := initial.dirs;
    }

    method Mkdir(p: string) returns (r: Result<()>)
      modifies this
      ensures r == MkdirStep(old(Disk()), p).result
      ensures Disk() == MkdirStep(old(Disk()), p).disk
    {
      if p in dirs || p in files || !ParentExists(Disk(), p) {
        return Err(OSError(p));
      }
      dirs := dirs + {p};
      return Ok(());
    }

    method EnsureDir(p: string) returns (r: Result<()>)
      modifies this
      ensures r == EnsureDirStep(old(Disk()), p).result
      ensures Disk() == EnsureDirStep(old(Disk()), p).disk
    {
      if p != "" && p in dirs {
        return Ok(());
      }
      r := Mkdir(p);
    }

    method Write(p: string, data: Bytes) returns (r: Result<()>)
      modifies this
      ensures r == WriteStep(old(Disk()), p, data).result
      ensures Disk() == WriteStep(old(Disk()), p, data).disk
    {
      if p in dirs || !ParentExists(Disk(), p) {
        return Err(OSError(p));
      }
      files := files[p := data];
      return Ok(());
    }

    method Read(p: string) returns (r: Result<Bytes>)
      ensures r.Ok? <==> p in files
      ensures r.Ok? ==> r.value == files[p]
      ensures r.Err? ==> r.error == OSError(p)
    {
      if p in files {
        return Ok(files[p]);
      }
      return Err(OSError(p));
    }

    method Copy(src: string, dst: string) returns (r: Result<()>)
      modifies this
      ensures r == CopyStep(old(Disk()), src, dst).result
      ensures Disk() == CopyStep(old(Disk()), src, dst).disk
    {
      if src == dst {
        return Err(OSError(dst));
      }
      var data := Read(src);
      if data.Err? {
        return Err(data.error);
      }
      r := Write(dst, data.value);
    }

    /** tempfile.mkdtemp creates the directory it returns. */
    method MakeTempDir(p: AbsolutePath)
      modifies this
      ensures Disk() == State(old(files), old(dirs) + {p})
    {
      dirs := dirs + {p};
    }

    /** A git clone or checkout writes its working tree's files. */
    method WriteTree(tree: map<string, Bytes>)
      modifies this
      ensures Disk() == State(old(files) + tree, old(dirs))
    {
      files := files + tree;
    }

    method RemoveAll(folder: string)
      modifies this
      ensures Disk() == RemoveTree(old(Disk()), folder)
    {
      var d := RemoveTree(Disk(), folder);
      files := d.files;
      dirs := d.dirs;
    }
  }
}
