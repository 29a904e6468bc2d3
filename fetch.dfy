/** The fetchers: fetch_addon_from_folder, fetch_addon_from_git,
    fetch_addon_from_zip and the dispatching fetch_addon. Each fetcher reads
    one addon, writes `<id>-<version>.zip`, its checksum and the side files
    into `<target>/<id>`, and reports the addon's metadata. */
module Fetch {
  import opened Wrappers
  import opened Paths
  import opened Validate
  import opened Names
  import opened Metadata
  import opened Disk
  import opened Checksum
  import opened Sources
  import opened Archive

  /** A step that failed with `e`, leaving the disk `d`. */
  function Fail<T>(e: Error, d: State): Step<T> {
    Step(Err(e), d)
  }

  /** What ElementTree.parse makes of the given bytes. */
  function ParsedBytes(lib: Libraries, data: Bytes): Parsed {
    match lib.parseXml(data)
    case None => NotWellFormed
    case Some(root) => Tree(root)
  }

  /** What ElementTree.parse makes of a path: only a regular file opens, and
      it is found under the spelling the path resolves to. */
  function ParsedFile(d: State, lib: Libraries, path: string): Parsed {
    var key := Resolved(path);
    if key in d.files then ParsedBytes(lib, d.files[key]) else Unopenable
  }

  /** parse_metadata of a descriptor on disk succeeds exactly when the file
      exists, is well-formed and carries a valid id and version, and then the
      metadata is the parsed tree's. */
  lemma ParseFileMeaning(d: State, lib: Libraries, path: string)
    ensures var r := ParseMetadata(ParsedFile(d, lib, path), path);
      var key := Resolved(path);
      && (r.Ok? <==>
            key in d.files && lib.parseXml(d.files[key]).Some?
            && ValidId(Get(lib.parseXml(d.files[key]).value, "id"))
            && ValidVersion(Get(lib.parseXml(d.files[key]).value, "version")))
      && (r.Ok? ==> r.value.root == lib.parseXml(d.files[key]).value)
      && (key !in d.files ==> r == Err(MetadataUnopenable(path)))
  {
  }

  /** parse_metadata on the file system. */
  method ParseMetadataFile(fs: FileSystem, lib: Libraries, path: string) returns (r: Result<AddonMetadata>)
    ensures r == ParseMetadata(ParsedFile(fs.Disk(), lib, path), path)
  {
    var contents := fs.Read(Resolved(path));
    if contents.Err? {
      return Err(MetadataUnopenable(path));
    }
    var tree := lib.parseXml(contents.value);
    if tree.None? {
      return Err(MetadataMalformed(path));
    }
    r := ParseMetadata(Tree(tree.value), path);
  }

  // ---------------------------------------------------------------------------
  // The archive and its checksum

  /** The checksum file beside `archivePath` holds the digest of the archive's
      current contents, marked binary, naming the archive relative to itself. */
  predicate ChecksumHolds(e: State, lib: Libraries, archivePath: string) {
    && archivePath in e.files && archivePath + ".md5" in e.files
    && e.files[archivePath + ".md5"]
       == lib.encodeText(ChecksumLine(lib.md5(e.files[archivePath]), true,
                                      RelPath(archivePath, Dirname(archivePath + ".md5"))))
  }

  /** A successful generate_checksum with the default path leaves a checksum
      that matches the archive. */
  lemma ChecksumStepHolds(d: State, lib: Libraries, archivePath: string)
    requires ChecksumStep(d, lib, archivePath, true, None).result.Ok?
    ensures ChecksumHolds(ChecksumStep(d, lib, archivePath, true, None).disk, lib, archivePath)
  {
    assert |archivePath + ".md5"| != |archivePath|;
  }

  /** A matching checksum survives any change that leaves both files alone. */
  lemma ChecksumKept(e: State, e': State, lib: Libraries, archivePath: string)
    requires ChecksumHolds(e, lib, archivePath)
    requires forall p | p == archivePath || p == archivePath + ".md5" ::
      p in e'.files && e'.files[p] == e.files[p]
    ensures ChecksumHolds(e', lib, archivePath)
  {
    assert archivePath in e'.files && archivePath + ".md5" in e'.files;
  }

  /** The archive of an addon in its folder ends in 'p', its checksum in '5'. */
  lemma ArchivePathEnds(folder: string, m: AddonMetadata)
    ensures var ap := ArchivePath(folder, m);
      && ap != "" && ap[|ap| - 1] == 'p'
      && (ap + ".md5")[|ap + ".md5"| - 1] == '5'
  {
    var ab := ArchiveBasename(m.id, m.version);
    assert ab[|ab| - 1] == ".zip"[3];
    JoinLast(folder, ab);
  }

  /** copy_metadata_files does not touch an archive or its checksum. */
  lemma CopyKeepsChecksum(d: State, lib: Libraries, source: string, folder: string, m: AddonMetadata)
    requires ChecksumHolds(d, lib, ArchivePath(folder, m))
    ensures ChecksumHolds(CopyMetadataStep(d, source, folder, m.version).disk, lib, ArchivePath(folder, m))
  {
    var ap := ArchivePath(folder, m);
    var pairs := MetadataBasenames(m.version);
    ArchivePathEnds(folder, m);
    NotAMetadataTarget(folder, m.version, ap);
    NotAMetadataTarget(folder, m.version, ap + ".md5");
    CopyPairsFrame(d, source, folder, pairs, ap);
    CopyPairsFrame(d, source, folder, pairs, ap + ".md5");
    ChecksumKept(d, CopyMetadataStep(d, source, folder, m.version).disk, lib, ap);
  }

  // ---------------------------------------------------------------------------
  // fetch_addon_from_folder

  /** fetch_addon_from_folder: parse `<addon>/addon.xml`, then publish the
      addon into `<target>/<id>`. */
  function FolderFetchStep(d: State, lib: Libraries, addonPath: string, targetFolder: string): Step<AddonMetadata> {
    var metadataPath := Join(addonPath, InfoBasename);
    match ParseMetadata(ParsedFile(d, lib, metadataPath), metadataPath)
    case Err(e) => Fail(e, d)
    case Ok(m) => PublishFolderStep(d, lib, addonPath, Join(targetFolder, m.id), m)
  }

  /** Archive the addon folder into its folder of the repository, then finish. */
  function PublishFolderStep(d: State, lib: Libraries, addonPath: string, folder: string, m: AddonMetadata)
    : Step<AddonMetadata>
  {
    var a := FolderArchiveStep(d, lib, folder, m, addonPath);
    if a.result.Err? then Fail(a.result.error, a.disk)
    else FinishFolderStep(a.disk, lib, a.result.value, addonPath, folder, m)
  }

  /** Write the archive's checksum, and copy the side files unless the addon
      folder is the repository's folder for it. */
  function FinishFolderStep(d: State, lib: Libraries, archivePath: string, addonPath: string, folder: string,
                            m: AddonMetadata): Step<AddonMetadata>
  {
    var c := ChecksumStep(d, lib, archivePath, true, None);
    if c.result.Err? then Fail(c.result.error, c.disk)
    else
      match SameFileResult(c.disk, lib, addonPath, folder)
      case Err(e) => Fail(e, c.disk)
      case Ok(same) =>
        if same then Step(Ok(m), c.disk)
        else
          var k := CopyMetadataStep(c.disk, addonPath, folder, m.version);
          if k.result.Err? then Fail(k.result.error, k.disk) else Step(Ok(m), k.disk)
  }

  /** The tail of fetch_addon_from_folder on the disk `d` that holds the
      archive: the checksum is written and matches; when os.path.samefile says
      the addon folder is the target folder nothing else changes, and
      otherwise every side file the addon has is copied in. */
  lemma FinishFolderResult(d: State, lib: Libraries, archivePath: string, addonPath: string, folder: string,
                           m: AddonMetadata)
    requires archivePath == ArchivePath(folder, m) && NoSlash(m.version)
    requires FinishFolderStep(d, lib, archivePath, addonPath, folder, m).result.Ok?
    ensures var e := FinishFolderStep(d, lib, archivePath, addonPath, folder, m).disk;
      && FinishFolderStep(d, lib, archivePath, addonPath, folder, m).result == Ok(m)
      && ChecksumHolds(e, lib, archivePath)
      && e.dirs == d.dirs
      && archivePath in d.files && e.files[archivePath] == d.files[archivePath]
      && (lib.sameFile(addonPath, folder) ==> UnchangedOutside(d, e, {archivePath + ".md5"}))
      && (!lib.sameFile(addonPath, folder) && Parts(addonPath) != Parts(folder) ==>
            && TargetsCopied(d, e, addonPath, folder, MetadataBasenames(m.version))
            && UnchangedOutside(d, e, {archivePath + ".md5"} + Written(d, addonPath, folder, MetadataBasenames(m.version))))
  {
    var c := ChecksumStep(d, lib, archivePath, true, None);
    ChecksumStepHolds(d, lib, archivePath);
    assert |archivePath + ".md5"| != |archivePath|;
    if SameFileResult(c.disk, lib, addonPath, folder) == Ok(false) {
      CopyKeepsChecksum(c.disk, lib, addonPath, folder, m);
      ArchivePathEnds(folder, m);
      NotAMetadataTarget(folder, m.version, archivePath);
      CopyPairsFrame(c.disk, addonPath, folder, MetadataBasenames(m.version), archivePath);
      if Parts(addonPath) != Parts(folder) {
        CopyMetadataEffect(c.disk, addonPath, folder, m.version);
        SourcesAgreeOutside(d, c.disk, addonPath, m.version, archivePath + ".md5");
        var k := CopyMetadataStep(c.disk, addonPath, folder, m.version).disk;
        CopiedFromAgreeing(d, c.disk, k, addonPath, folder, MetadataBasenames(m.version));
        UnchangedCompose(d, c.disk, k, {archivePath + ".md5"}, Written(c.disk, addonPath, folder, MetadataBasenames(m.version)));
      }
    }
  }

  /** Archive, checksum and side files: on top of what the tail promises, the
      archive holds the zip of the members the walk of the addon folder read,
      and the target folder exists. */
  lemma PublishFolderResult(d: State, lib: Libraries, addonPath: string, folder: string, m: AddonMetadata)
    requires NoSlash(m.version)
    requires PublishFolderStep(d, lib, addonPath, folder, m).result.Ok?
    ensures var e := PublishFolderStep(d, lib, addonPath, folder, m).disk;
      var ap := ArchivePath(folder, m);
      var pairs := MetadataBasenames(m.version);
      && PublishFolderStep(d, lib, addonPath, folder, m).result == Ok(m)
      && ChecksumHolds(e, lib, ap)
      && WalkedMembers(d, lib, folder, m, addonPath).1.None?
      && ap in e.files && e.files[ap] == lib.zip(WalkedMembers(d, lib, folder, m, addonPath).0)
      && e.dirs == d.dirs + {folder}
      && (lib.sameFile(addonPath, folder) ==> UnchangedOutside(d, e, {ap, ap + ".md5"}))
      && (!lib.sameFile(addonPath, folder) && Parts(addonPath) != Parts(folder) ==>
            && TargetsCopied(d, e, addonPath, folder, pairs)
            && UnchangedOutside(d, e, {ap, ap + ".md5"} + Written(d, addonPath, folder, pairs)))
  {
    var a := FolderArchiveStep(d, lib, folder, m, addonPath);
    var ap := ArchivePath(folder, m);
    var pairs := MetadataBasenames(m.version);
    var e := PublishFolderStep(d, lib, addonPath, folder, m).disk;
    FinishFolderResult(a.disk, lib, ap, addonPath, folder, m);
    assert UnchangedOutside(d, a.disk, {ap});
    if lib.sameFile(addonPath, folder) {
      UnchangedCompose(d, a.disk, e, {ap}, {ap + ".md5"});
    } else if Parts(addonPath) != Parts(folder) {
      ArchivePathEnds(folder, m);
      CopiesPastArchive(d, a.disk, e, addonPath, folder, m.version, ap);
    }
  }

  /** A folder fetch that succeeds reports the metadata of the folder's
      descriptor and publishes into `<target>/<id>`: the archive holds the zip
      of the walked members and its checksum file matches it; when
      os.path.samefile says the addon folder is that folder nothing else
      changes, and otherwise every side file the addon has is copied in. */
  lemma FolderFetchResult(d: State, lib: Libraries, addonPath: string, targetFolder: string)
    requires FolderFetchStep(d, lib, addonPath, targetFolder).result.Ok?
    ensures var metadataPath := Join(addonPath, InfoBasename);
      var m := FolderFetchStep(d, lib, addonPath, targetFolder).result.value;
      var e := FolderFetchStep(d, lib, addonPath, targetFolder).disk;
      var folder := Join(targetFolder, m.id);
      var ap := ArchivePath(folder, m);
      var pairs := MetadataBasenames(m.version);
      && ParseMetadata(ParsedFile(d, lib, metadataPath), metadataPath) == Ok(m)
      && ChecksumHolds(e, lib, ap)
      && WalkedMembers(d, lib, folder, m, addonPath).1.None?
      && ap in e.files && e.files[ap] == lib.zip(WalkedMembers(d, lib, folder, m, addonPath).0)
      && e.dirs == d.dirs + {folder}
      && (lib.sameFile(addonPath, folder) ==> UnchangedOutside(d, e, {ap, ap + ".md5"}))
      && (!lib.sameFile(addonPath, folder) && Parts(addonPath) != Parts(folder) ==>
            && TargetsCopied(d, e, addonPath, folder, pairs)
            && UnchangedOutside(d, e, {ap, ap + ".md5"} + Written(d, addonPath, folder, pairs)))
  {
    var metadataPath := Join(addonPath, InfoBasename);
    var parsed := ParseMetadata(ParsedFile(d, lib, metadataPath), metadataPath);
    var m := parsed.value;
    ValidVersionHasNoSlash(m.version);
    PublishFolderResult(d, lib, addonPath, Join(targetFolder, m.id), m);
  }

  /** fetch_addon_from_folder on the file system. */
  method FetchAddonFromFolder(fs: FileSystem, lib: Libraries, addonPath: string, targetFolder: string)
    returns (r: Result<AddonMetadata>)
    modifies fs
    ensures r == FolderFetchStep(old(fs.Disk()), lib, addonPath, targetFolder).result
    ensures fs.Disk() == FolderFetchStep(old(fs.Disk()), lib, addonPath, targetFolder).disk
  {
    var metadataPath := Join(addonPath, InfoBasename);
    var metadata := ParseMetadataFile(fs, lib, metadataPath);
    if metadata.Err? {
      return Err(metadata.error);
    }
    var m := metadata.value;
    var folder := Join(targetFolder, m.id);
    var archivePath := CreateFolderArchive(fs, lib, folder, m, addonPath);
    if archivePath.Err? {
      return Err(archivePath.error);
    }
    var checksum := GenerateChecksum(fs, lib, archivePath.value, true, None);
    if checksum.Err? {
      return Err(checksum.error);
    }
    var same := SameFile(fs, lib, addonPath, folder);
    if same.Err? {
      return Err(same.error);
    }
    if !same.value {
      var copied := CopyMetadataFiles(fs, addonPath, folder, m);
      if copied.Err? {
        return Err(copied.error);
      }
    }
    return Ok(m);
  }

  /** os.path.samefile on the file system. */
  method SameFile(fs: FileSystem, lib: Libraries, a: string, b: string) returns (r: Result<bool>)
    ensures r == SameFileResult(fs.Disk(), lib, a, b)
  {
    if !Exists(fs.Disk(), a) {
      return Err(OSError(a));
    }
    if !Exists(fs.Disk(), b) {
      return Err(OSError(b));
    }
    return Ok(lib.sameFile(a, b));
  }

  // ---------------------------------------------------------------------------
  // fetch_addon_from_git

  /** The source folder of a clone: mkdtemp's absolute path joined to itself,
      which posixpath.join turns back into the clone folder. */
  function SourceFolder(cloneFolder: AbsolutePath): (s: string)
    ensures s == cloneFolder
  {
    JoinAbsoluteWithItself(cloneFolder);
    Join(cloneFolder, cloneFolder)
  }

  /** The working tree after the clone: the cloned files, or what checking
      out the named branch leaves; None when the checkout fails. */
  function WorkTree(lib: Libraries, g: GitSource, tree: map<string, Bytes>): Option<map<string, Bytes>> {
    if g.branch.None? then Some(tree) else lib.gitCheckout(tree, g.branch.value)
  }

  /** The working tree of a clone of `g` into `cloneFolder`, if cloning and
      checking out succeed. */
  function GitWork(lib: Libraries, g: GitSource, cloneFolder: string): Option<map<string, Bytes>> {
    match lib.gitClone(g.repo, cloneFolder)
    case None => None
    case Some(tree) => WorkTree(lib, g, tree)
  }

  /** The disk once the clone and the checkout have written their files. */
  function ClonedDisk(d: State, g: GitSource, tree: map<string, Bytes>, work: map<string, Bytes>): State {
    if g.branch.None? then State(d.files + tree, d.dirs) else State(d.files + tree + work, d.dirs)
  }

  /** The body of the try block of fetch_addon_from_git, in the freshly made
      clone folder: clone, check out the branch if one is named, parse the
      descriptor at the sub-path, archive the sub-path at HEAD, write the
      checksum and copy the side files from the clone's top folder. */
  function CloneAndFetchStep(d: State, lib: Libraries, g: GitSource, cloneFolder: AbsolutePath,
                             targetFolder: string): Step<AddonMetadata>
  {
    if !lib.gitInstalled then Fail(UndefinedName("git"), d)
    else
      match lib.gitClone(g.repo, cloneFolder)
      case None => Fail(GitCommandFailed("clone"), d)
      case Some(tree) =>
        match WorkTree(lib, g, tree)
        case None => Fail(GitCommandFailed("checkout"), State(d.files + tree, d.dirs))
        case Some(work) =>
          var d2 := ClonedDisk(d, g, tree, work);
          var clonePath := ClonePath(g);
          var sourceFolder := SourceFolder(cloneFolder);
          var metadataPath := Join(Join(sourceFolder, clonePath), InfoBasename);
          match ParseMetadata(ParsedFile(d2, lib, metadataPath), metadataPath)
          case Err(e) => Fail(e, d2)
          case Ok(m) => PublishGitStep(d2, lib, sourceFolder, clonePath, work, Join(targetFolder, m.id), m)
  }

  /** With no sub-path in the source, the descriptor the git fetcher parses
      is the clone's top-level addon.xml, the file its side-file copy starts
      from: the "./" sub-path vanishes on lookup. */
  lemma DefaultGitDescriptor(d: State, lib: Libraries, g: GitSource, cloneFolder: AbsolutePath)
    requires g.path.None? && cloneFolder[|cloneFolder| - 1] != '/'
    ensures ParsedFile(d, lib, Join(Join(SourceFolder(cloneFolder), ClonePath(g)), InfoBasename))
         == ParsedFile(d, lib, Join(cloneFolder, InfoBasename))
  {
    DefaultClonePath(g);
    ResolvedThroughDot(cloneFolder, InfoBasename);
  }

  /** Archive the sub-path at HEAD into the addon's folder of the repository,
      write the checksum and copy the side files from the clone. */
  function PublishGitStep(d: State, lib: Libraries, sourceFolder: string, clonePath: string, work: map<string, Bytes>,
                          folder: string, m: AddonMetadata): Step<AddonMetadata>
  {
    var a := GitArchiveStep(d, lib, folder, m, clonePath, work);
    if a.result.Err? then Fail(a.result.error, a.disk)
    else FinishGitStep(a.disk, lib, a.result.value, sourceFolder, folder, m)
  }

  function FinishGitStep(d: State, lib: Libraries, archivePath: string, sourceFolder: string, folder: string,
                         m: AddonMetadata): Step<AddonMetadata>
  {
    var c := ChecksumStep(d, lib, archivePath, true, None);
    if c.result.Err? then Fail(c.result.error, c.disk)
    else
      var k := CopyMetadataStep(c.disk, sourceFolder, folder, m.version);
      if k.result.Err? then Fail(k.result.error, k.disk) else Step(Ok(m), k.disk)
  }

  /** The tail of fetch_addon_from_git on the disk `d` that holds the
      archive: the checksum is written and matches, and every side file in
      the clone's top folder is copied in. */
  lemma FinishGitResult(d: State, lib: Libraries, archivePath: string, sourceFolder: string, folder: string,
                        m: AddonMetadata)
    requires archivePath == ArchivePath(folder, m) && NoSlash(m.version)
    requires FinishGitStep(d, lib, archivePath, sourceFolder, folder, m).result.Ok?
    ensures var e := FinishGitStep(d, lib, archivePath, sourceFolder, folder, m).disk;
      && FinishGitStep(d, lib, archivePath, sourceFolder, folder, m).result == Ok(m)
      && ChecksumHolds(e, lib, archivePath)
      && e.dirs == d.dirs
      && archivePath in d.files && e.files[archivePath] == d.files[archivePath]
      && (Parts(sourceFolder) != Parts(folder) ==>
            && TargetsCopied(d, e, sourceFolder, folder, MetadataBasenames(m.version))
            && UnchangedOutside(d, e, {archivePath + ".md5"} + Written(d, sourceFolder, folder, MetadataBasenames(m.version))))
  {
    var c := ChecksumStep(d, lib, archivePath, true, None);
    ChecksumStepHolds(d, lib, archivePath);
    assert |archivePath + ".md5"| != |archivePath|;
    CopyKeepsChecksum(c.disk, lib, sourceFolder, folder, m);
    ArchivePathEnds(folder, m);
    NotAMetadataTarget(folder, m.version, archivePath);
    CopyPairsFrame(c.disk, sourceFolder, folder, MetadataBasenames(m.version), archivePath);
    if Parts(sourceFolder) != Parts(folder) {
      CopyMetadataEffect(c.disk, sourceFolder, folder, m.version);
      SourcesAgreeOutside(d, c.disk, sourceFolder, m.version, archivePath + ".md5");
      var k := CopyMetadataStep(c.disk, sourceFolder, folder, m.version).disk;
      CopiedFromAgreeing(d, c.disk, k, sourceFolder, folder, MetadataBasenames(m.version));
      UnchangedCompose(d, c.disk, k, {archivePath + ".md5"}, Written(c.disk, sourceFolder, folder, MetadataBasenames(m.version)));
    }
  }

  /** Archive, checksum and side files: on top of what the tail promises, the
      archive holds what `git archive` made of the sub-path at HEAD, and the
      target folder exists. */
  lemma PublishGitResult(d: State, lib: Libraries, sourceFolder: string, clonePath: string, work: map<string, Bytes>,
                         folder: string, m: AddonMetadata)
    requires NoSlash(m.version)
    requires PublishGitStep(d, lib, sourceFolder, clonePath, work, folder, m).result.Ok?
    ensures var e := PublishGitStep(d, lib, sourceFolder, clonePath, work, folder, m).disk;
      var ap := ArchivePath(folder, m);
      var pairs := MetadataBasenames(m.version);
      var archived := lib.gitArchive(work, "HEAD:" + clonePath, GitArchivePrefix(m.id));
      && PublishGitStep(d, lib, sourceFolder, clonePath, work, folder, m).result == Ok(m)
      && ChecksumHolds(e, lib, ap)
      && archived.Some? && ap in e.files && e.files[ap] == archived.value
      && e.dirs == d.dirs + {folder}
      && (Parts(sourceFolder) != Parts(folder) ==>
            && TargetsCopied(d, e, sourceFolder, folder, pairs)
            && UnchangedOutside(d, e, {ap, ap + ".md5"} + Written(d, sourceFolder, folder, pairs)))
  {
    PublishGitArchive(d, lib, sourceFolder, clonePath, work, folder, m);
    if Parts(sourceFolder) != Parts(folder) {
      PublishGitCopies(d, lib, sourceFolder, clonePath, work, folder, m);
    }
  }

  /** The archive and its checksum as PublishGitStep leaves them. */
  lemma PublishGitArchive(d: State, lib: Libraries, sourceFolder: string, clonePath: string, work: map<string, Bytes>,
                          folder: string, m: AddonMetadata)
    requires NoSlash(m.version)
    requires PublishGitStep(d, lib, sourceFolder, clonePath, work, folder, m).result.Ok?
    ensures var e := PublishGitStep(d, lib, sourceFolder, clonePath, work, folder, m).disk;
      var ap := ArchivePath(folder, m);
      var archived := lib.gitArchive(work, "HEAD:" + clonePath, GitArchivePrefix(m.id));
      && PublishGitStep(d, lib, sourceFolder, clonePath, work, folder, m).result == Ok(m)
      && ChecksumHolds(e, lib, ap)
      && archived.Some? && ap in e.files && e.files[ap] == archived.value
      && e.dirs == d.dirs + {folder}
  {
    var a := GitArchiveStep(d, lib, folder, m, clonePath, work);
    FinishGitResult(a.disk, lib, ArchivePath(folder, m), sourceFolder, folder, m);
  }

  /** The side files as PublishGitStep leaves them, when the source folder and
      the addon's folder have different components. */
  lemma PublishGitCopies(d: State, lib: Libraries, sourceFolder: string, clonePath: string, work: map<string, Bytes>,
                         folder: string, m: AddonMetadata)
    requires NoSlash(m.version) && Parts(sourceFolder) != Parts(folder)
    requires PublishGitStep(d, lib, sourceFolder, clonePath, work, folder, m).result.Ok?
    ensures var e := PublishGitStep(d, lib, sourceFolder, clonePath, work, folder, m).disk;
      var ap := ArchivePath(folder, m);
      var pairs := MetadataBasenames(m.version);
      && TargetsCopied(d, e, sourceFolder, folder, pairs)
      && UnchangedOutside(d, e, {ap, ap + ".md5"} + Written(d, sourceFolder, folder, pairs))
  {
    var a := GitArchiveStep(d, lib, folder, m, clonePath, work);
    var ap := ArchivePath(folder, m);
    FinishGitResult(a.disk, lib, ap, sourceFolder, folder, m);
    assert UnchangedOutside(d, a.disk, {ap});
    ArchivePathEnds(folder, m);
    CopiesPastArchive(d, a.disk, PublishGitStep(d, lib, sourceFolder, clonePath, work, folder, m).disk,
                      sourceFolder, folder, m.version, ap);
  }

  /** Side files copied after the archive `ap` was written: the archive is not
      one of their sources, so they are copies of the sources before it. */
  lemma CopiesPastArchive(d: State, a: State, e: State, source: string, folder: string, version: string, ap: string)
    requires ap != "" && ap[|ap| - 1] == 'p'
    requires UnchangedOutside(d, a, {ap})
    requires TargetsCopied(a, e, source, folder, MetadataBasenames(version))
    requires UnchangedOutside(a, e, {ap + ".md5"} + Written(a, source, folder, MetadataBasenames(version)))
    ensures var pairs := MetadataBasenames(version);
      && TargetsCopied(d, e, source, folder, pairs)
      && UnchangedOutside(d, e, {ap, ap + ".md5"} + Written(d, source, folder, pairs))
  {
    var pairs := MetadataBasenames(version);
    SourcesAgreeOutside(d, a, source, version, ap);
    CopiedFromAgreeing(d, a, e, source, folder, pairs);
    ComposePastArchive(d, a, e, ap, Written(d, source, folder, pairs));
  }

  /** The archive written first, then its checksum and the copies. */
  lemma ComposePastArchive(d: State, a: State, e: State, ap: string, w: set<string>)
    requires UnchangedOutside(d, a, {ap}) && UnchangedOutside(a, e, {ap + ".md5"} + w)
    ensures UnchangedOutside(d, e, {ap, ap + ".md5"} + w)
  {
    UnchangedCompose(d, a, e, {ap}, {ap + ".md5"} + w);
  }

  /** fetch_addon_from_git: the clone folder is made by mkdtemp and removed
      with everything in it whether the fetch succeeds or fails. */
  function GitFetchStep(d: State, lib: Libraries, addonPath: string, targetFolder: string): (s: Step<AddonMetadata>)
    ensures forall p :: Under(p, lib.mkdtemp(d.dirs)) ==> p !in s.disk.files && p !in s.disk.dirs
  {
    var cloneFolder := lib.mkdtemp(d.dirs);
    var inner := CloneAndFetchStep(State(d.files, d.dirs + {cloneFolder}), lib, SplitGitSource(addonPath),
                                   cloneFolder, targetFolder);
    Step(inner.result, RemoveTree(inner.disk, cloneFolder))
  }

  /** A git fetch that succeeds reports the metadata of the descriptor at the
      sub-path of the clone. Of what it publishes, whatever lies outside the
      temporary clone folder survives its removal: the archive with what
      `git archive` made of the sub-path at HEAD, its matching checksum, and
      each side file of the clone's top folder. */
  lemma GitFetchResult(d: State, lib: Libraries, addonPath: string, targetFolder: string, m: AddonMetadata)
    requires GitFetchStep(d, lib, addonPath, targetFolder).result == Ok(m)
    ensures var cloneFolder := lib.mkdtemp(d.dirs);
      var g := SplitGitSource(addonPath);
      var e := GitFetchStep(d, lib, addonPath, targetFolder).disk;
      var folder := Join(targetFolder, m.id);
      var ap := ArchivePath(folder, m);
      var pairs := MetadataBasenames(m.version);
      && lib.gitInstalled && lib.gitClone(g.repo, cloneFolder).Some? && GitWork(lib, g, cloneFolder).Some?
      && (var work := GitWork(lib, g, cloneFolder).value;
          var cloned := ClonedDisk(State(d.files, d.dirs + {cloneFolder}), g, lib.gitClone(g.repo, cloneFolder).value, work);
          var metadataPath := Join(Join(cloneFolder, ClonePath(g)), InfoBasename);
          var archived := lib.gitArchive(work, "HEAD:" + ClonePath(g), GitArchivePrefix(m.id));
          && ParseMetadata(ParsedFile(cloned, lib, metadataPath), metadataPath) == Ok(m)
          && archived.Some?
          && (!Under(ap, cloneFolder) ==> ap in e.files && e.files[ap] == archived.value)
          && (!Under(ap, cloneFolder) && !Under(ap + ".md5", cloneFolder) ==> ChecksumHolds(e, lib, ap))
          && (Parts(cloneFolder) != Parts(folder) ==>
                forall i :: 0 <= i < |pairs| && Src(cloneFolder, pairs[i]) in cloned.files
                              && !Under(Dst(folder, pairs[i]), cloneFolder) ==>
                  Dst(folder, pairs[i]) in e.files && e.files[Dst(folder, pairs[i])] == cloned.files[Src(cloneFolder, pairs[i])]))
  {
    var cloneFolder := lib.mkdtemp(d.dirs);
    var d0 := State(d.files, d.dirs + {cloneFolder});
    var g := SplitGitSource(addonPath);
    var inner := CloneAndFetchStep(d0, lib, g, cloneFolder, targetFolder);
    CloneAndFetchResult(d0, lib, g, cloneFolder, targetFolder, m);
    var ap := ArchivePath(Join(targetFolder, m.id), m);
    if !Under(ap, cloneFolder) && !Under(ap + ".md5", cloneFolder) {
      ChecksumKept(inner.disk, RemoveTree(inner.disk, cloneFolder), lib, ap);
    }
  }

  /** The try block of fetch_addon_from_git, when it succeeds: git is
      installed, the clone and the checkout worked, the metadata is that of
      the descriptor at the sub-path of the clone, the archive holds what `git
      archive` made of the sub-path at HEAD and its checksum file matches it,
      and every side file of the clone's top folder is copied in. */
  lemma CloneAndFetchResult(d: State, lib: Libraries, g: GitSource, cloneFolder: AbsolutePath,
                            targetFolder: string, m: AddonMetadata)
    requires CloneAndFetchStep(d, lib, g, cloneFolder, targetFolder).result == Ok(m)
    ensures var e := CloneAndFetchStep(d, lib, g, cloneFolder, targetFolder).disk;
      var folder := Join(targetFolder, m.id);
      var ap := ArchivePath(folder, m);
      var pairs := MetadataBasenames(m.version);
      && lib.gitInstalled && lib.gitClone(g.repo, cloneFolder).Some? && GitWork(lib, g, cloneFolder).Some?
      && (var work := GitWork(lib, g, cloneFolder).value;
          var cloned := ClonedDisk(d, g, lib.gitClone(g.repo, cloneFolder).value, work);
          var metadataPath := Join(Join(cloneFolder, ClonePath(g)), InfoBasename);
          var archived := lib.gitArchive(work, "HEAD:" + ClonePath(g), GitArchivePrefix(m.id));
          && ParseMetadata(ParsedFile(cloned, lib, metadataPath), metadataPath) == Ok(m)
          && ChecksumHolds(e, lib, ap)
          && archived.Some? && ap in e.files && e.files[ap] == archived.value
          && e.dirs == d.dirs + {folder}
          && (Parts(cloneFolder) != Parts(folder) ==>
                && TargetsCopied(cloned, e, cloneFolder, folder, pairs)
                && UnchangedOutside(cloned, e, {ap, ap + ".md5"} + Written(cloned, cloneFolder, folder, pairs))))
  {
    var tree := lib.gitClone(g.repo, cloneFolder).value;
    var work := WorkTree(lib, g, tree).value;
    var cloned := ClonedDisk(d, g, tree, work);
    var metadataPath := Join(Join(SourceFolder(cloneFolder), ClonePath(g)), InfoBasename);
    var m' := ParseMetadata(ParsedFile(cloned, lib, metadataPath), metadataPath).value;
    ValidVersionHasNoSlash(m'.version);
    PublishGitResult(cloned, lib, SourceFolder(cloneFolder), ClonePath(g), work, Join(targetFolder, m'.id), m');
  }

  /** fetch_addon_from_git on the file system. */
  method FetchAddonFromGit(fs: FileSystem, lib: Libraries, addonPath: string, targetFolder: string)
    returns (r: Result<AddonMetadata>)
    modifies fs
    ensures r == GitFetchStep(old(fs.Disk()), lib, addonPath, targetFolder).result
    ensures fs.Disk() == GitFetchStep(old(fs.Disk()), lib, addonPath, targetFolder).disk
  {
    var g := SplitGitSource(addonPath);
    var cloneFolder := lib.mkdtemp(fs.dirs);
    fs.MakeTempDir(cloneFolder);
    r := CloneAndFetch(fs, lib, g, cloneFolder, targetFolder);
    fs.RemoveAll(cloneFolder);
  }

  /** The try block of fetch_addon_from_git on the file system. */
  method CloneAndFetch(fs: FileSystem, lib: Libraries, g: GitSource, cloneFolder: AbsolutePath, targetFolder: string)
    returns (r: Result<AddonMetadata>)
    modifies fs
    ensures r == CloneAndFetchStep(old(fs.Disk()), lib, g, cloneFolder, targetFolder).result
    ensures fs.Disk() == CloneAndFetchStep(old(fs.Disk()), lib, g, cloneFolder, targetFolder).disk
  {
    if !lib.gitInstalled {
      return Err(UndefinedName("git"));
    }
    var cloned := lib.gitClone(g.repo, cloneFolder);
    if cloned.None? {
      return Err(GitCommandFailed("clone"));
    }
    fs.WriteTree(cloned.value);
    var work := cloned.value;
    if g.branch.Some? {
      var checkedOut := lib.gitCheckout(cloned.value, g.branch.value);
      if checkedOut.None? {
        return Err(GitCommandFailed("checkout"));
      }
      work := checkedOut.value;
      fs.WriteTree(work);
    }
    var clonePath := ClonePath(g);
    var sourceFolder := SourceFolder(cloneFolder);
    var metadataPath := Join(Join(sourceFolder, clonePath), InfoBasename);
    var metadata := ParseMetadataFile(fs, lib, metadataPath);
    if metadata.Err? {
      return Err(metadata.error);
    }
    var m := metadata.value;
    var folder := Join(targetFolder, m.id);
    var archivePath := CreateGitArchive(fs, lib, folder, m, clonePath, work);
    if archivePath.Err? {
      return Err(archivePath.error);
    }
    var checksum := GenerateChecksum(fs, lib, archivePath.value, true, None);
    if checksum.Err? {
      return Err(checksum.error);
    }
    var copied := CopyMetadataFiles(fs, sourceFolder, folder, m);
    if copied.Err? {
      return Err(copied.error);
    }
    return Ok(m);
  }

  // ---------------------------------------------------------------------------
  // fetch_addon_from_zip

  /** ZipFile.open(name): the member stored under the name, the last one when
      the name repeats; None stands for the KeyError of a missing member. */
  function Lookup(members: seq<ZipMember>, name: string): (r: Option<Bytes>)
    ensures r.None? <==> forall k :: 0 <= k < |members| ==> members[k].name != name
    decreases |members|
  {
    if members == [] then None
    else
      var last := |members| - 1;
      if members[last].name == name then Some(members[last].data)
      else
        var r := Lookup(members[..last], name);
        assert forall k :: 0 <= k < last ==> members[..last][k] == members[k];
        r
  }

  /** The lookup finds the data of the last member stored under the name. */
  lemma {:induction false} LookupFindsLast(members: seq<ZipMember>, name: string, k: nat)
    requires k < |members| && members[k].name == name
    requires forall j :: k < j < |members| ==> members[j].name != name
    ensures Lookup(members, name) == Some(members[k].data)
    decreases |members|
  {
    var last := |members| - 1;
    if k < last {
      var init := members[..last];
      assert forall j :: k < j < last ==> init[j] == members[j];
      LookupFindsLast(init, name, k);
    }
  }

  /** The extraction loop: each side file the archive holds under its root is
      written to its target; the first failing write ends the loop. */
  function ExtractPairsStep(d: State, members: seq<ZipMember>, root: string, target: string,
                            pairs: seq<(string, string)>): Step<()>
    decreases |pairs|
  {
    if pairs == [] then Step(Ok(()), d)
    else
      match Lookup(members, Join(root, pairs[0].0))
      case None => ExtractPairsStep(d, members, root, target, pairs[1..])
      case Some(data) =>
        var w := WriteStep(d, Dst(target, pairs[0]), data);
        if w.result.Err? then w else ExtractPairsStep(w.disk, members, root, target, pairs[1..])
  }

  /** Every extraction that is attempted can write its target. */
  predicate ExtractionsFit(d: State, members: seq<ZipMember>, root: string, target: string,
                           pairs: seq<(string, string)>)
  {
    forall i :: 0 <= i < |pairs| && Lookup(members, Join(root, pairs[i].0)).Some? ==>
      Dst(target, pairs[i]) !in d.dirs && ParentExists(d, Dst(target, pairs[i]))
  }

  /** Each side file the archive holds is on disk under its target name. */
  predicate Extracted(e: State, members: seq<ZipMember>, root: string, target: string,
                      pairs: seq<(string, string)>)
  {
    forall i :: 0 <= i < |pairs| && Lookup(members, Join(root, pairs[i].0)).Some? ==>
      Dst(target, pairs[i]) in e.files
      && e.files[Dst(target, pairs[i])] == Lookup(members, Join(root, pairs[i].0)).value
  }

  /** A path no extraction targets keeps its contents, and no directory changes. */
  lemma {:induction false} ExtractPairsFrame(d: State, members: seq<ZipMember>, root: string, target: string,
                                             pairs: seq<(string, string)>, p: string)
    requires forall i :: 0 <= i < |pairs| ==> Dst(target, pairs[i]) != p
    ensures var e := ExtractPairsStep(d, members, root, target, pairs).disk;
      && e.dirs == d.dirs
      && (p in e.files <==> p in d.files)
      && (p in d.files ==> e.files[p] == d.files[p])
    decreases |pairs|
  {
    if pairs != [] {
      var rest := pairs[1..];
      assert forall i :: 0 <= i < |rest| ==> rest[i] == pairs[i + 1];
      match Lookup(members, Join(root, pairs[0].0))
      case None =>
        ExtractPairsFrame(d, members, root, target, rest, p);
      case Some(data) =>
        var w := WriteStep(d, Dst(target, pairs[0]), data);
        if w.result.Ok? {
          ExtractPairsFrame(w.disk, members, root, target, rest, p);
        }
    }
  }

  /** With distinct targets, the extraction loop succeeds exactly when every
      attempted write fits, and then every side file the archive holds is on
      disk with the archived contents. */
  lemma {:induction false} ExtractPairsEffect(d: State, members: seq<ZipMember>, root: string, target: string,
                                              pairs: seq<(string, string)>)
    requires DistinctTargets(target, pairs)
    ensures ExtractPairsStep(d, members, root, target, pairs).result.Ok?
      <==> ExtractionsFit(d, members, root, target, pairs)
    ensures ExtractPairsStep(d, members, root, target, pairs).result.Ok? ==>
      Extracted(ExtractPairsStep(d, members, root, target, pairs).disk, members, root, target, pairs)
    decreases |pairs|
  {
    if pairs != [] {
      var rest := pairs[1..];
      assert forall i :: 0 <= i < |rest| ==> rest[i] == pairs[i + 1];
      assert DistinctTargets(target, rest);
      match Lookup(members, Join(root, pairs[0].0))
      case None =>
        ExtractPairsEffect(d, members, root, target, rest);
        ExtractSkip(d, ExtractPairsStep(d, members, root, target, rest), members, root, target, pairs);
      case Some(data) =>
        var w := WriteStep(d, Dst(target, pairs[0]), data);
        if w.result.Ok? {
          ExtractPairsEffect(w.disk, members, root, target, rest);
          ExtractPairsFrame(w.disk, members, root, target, rest, Dst(target, pairs[0]));
          ExtractFirst(d, w.disk, ExtractPairsStep(w.disk, members, root, target, rest), members, root, target,
                       pairs, data);
        }
    }
  }

  lemma ExtractSkip(d: State, s: Step<()>, members: seq<ZipMember>, root: string, target: string,
                    pairs: seq<(string, string)>)
    requires |pairs| > 0 && Lookup(members, Join(root, pairs[0].0)).None?
    requires s.result.Ok? <==> ExtractionsFit(d, members, root, target, pairs[1..])
    requires s.result.Ok? ==> Extracted(s.disk, members, root, target, pairs[1..])
    ensures s.result.Ok? <==> ExtractionsFit(d, members, root, target, pairs)
    ensures s.result.Ok? ==> Extracted(s.disk, members, root, target, pairs)
  {
    var rest := pairs[1..];
    assert forall i :: 0 < i < |pairs| ==> pairs[i] == rest[i - 1];
  }

  lemma ExtractFirst(d: State, d1: State, s: Step<()>, members: seq<ZipMember>, root: string, target: string,
                     pairs: seq<(string, string)>, data: Bytes)
    requires |pairs| > 0 && Lookup(members, Join(root, pairs[0].0)) == Some(data)
    requires Dst(target, pairs[0]) !in d.dirs && ParentExists(d, Dst(target, pairs[0]))
    requires d1 == State(d.files[Dst(target, pairs[0]) := data], d.dirs)
    requires s.result.Ok? <==> ExtractionsFit(d1, members, root, target, pairs[1..])
    requires s.result.Ok? ==> Extracted(s.disk, members, root, target, pairs[1..])
    requires s.disk.dirs == d1.dirs
    requires Dst(target, pairs[0]) in s.disk.files <==> Dst(target, pairs[0]) in d1.files
    requires Dst(target, pairs[0]) in d1.files ==> s.disk.files[Dst(target, pairs[0])] == d1.files[Dst(target, pairs[0])]
    ensures s.result.Ok? <==> ExtractionsFit(d, members, root, target, pairs)
    ensures s.result.Ok? ==> Extracted(s.disk, members, root, target, pairs)
  {
    var rest := pairs[1..];
    assert forall i :: 0 < i < |pairs| ==> pairs[i] == rest[i - 1];
  }

  /** The root folder and the metadata of an archive: exactly one top-level
      folder, a descriptor `<root>/addon.xml` in it, and a valid descriptor. */
  function ArchiveMetadata(lib: Libraries, members: seq<ZipMember>): Result<(string, AddonMetadata)> {
    match ArchiveRoot(MemberNames(members))
    case Err(e) => Err(e)
    case Ok(root) =>
      var infoName := Join(root, InfoBasename);
      match Lookup(members, infoName)
      case None => Err(ArchiveMemberMissing(infoName))
      case Some(info) =>
        match ParseMetadata(ParsedBytes(lib, info), infoName)
        case Err(e) => Err(e)
        case Ok(m) => Ok((root, m))
  }

  /** The archive names its metadata only when it holds a descriptor in its
      root folder that parse_metadata accepts, and the metadata is that
      descriptor's. */
  lemma ArchiveMetadataDescriptor(lib: Libraries, members: seq<ZipMember>, root: string, m: AddonMetadata)
    requires ArchiveMetadata(lib, members) == Ok((root, m))
    ensures Lookup(members, Join(root, InfoBasename)).Some?
    ensures ParseMetadata(ParsedBytes(lib, Lookup(members, Join(root, InfoBasename)).value), Join(root, InfoBasename))
      == Ok(m)
  {
  }

  /** The folder an archive's metadata is read from holds every member. */
  lemma ArchiveMetadataRoot(lib: Libraries, members: seq<ZipMember>, root: string, m: AddonMetadata)
    requires ArchiveMetadata(lib, members) == Ok((root, m))
    ensures forall k :: 0 <= k < |members| ==> FirstSegment(members[k].name) == root
  {
    MembersUnderRoot(members, root);
  }

  lemma MembersUnderRoot(members: seq<ZipMember>, root: string)
    requires ArchiveRoot(MemberNames(members)) == Ok(root)
    ensures forall k :: 0 <= k < |members| ==> FirstSegment(members[k].name) == root
  {
    var names := MemberNames(members);
    forall k | 0 <= k < |members|
      ensures FirstSegment(members[k].name) == root
    {
      assert names[k] in names;
    }
  }

  /** Inside the addon's folder of the repository: make it, extract the side
      files, then copy the archive in unless it already is the archive the
      repository expects there. */
  function ExtractStep(d: State, lib: Libraries, addonPath: string, members: seq<ZipMember>, root: string,
                       folder: string, m: AddonMetadata): Step<()>
  {
    var made := EnsureDirStep(d, folder);
    if made.result.Err? then made
    else
      var x := ExtractPairsStep(made.disk, members, root, folder, MetadataBasenames(m.version));
      if x.result.Err? then x
      else
        var archiveBasename := ArchiveBasename(m.id, m.version);
        match SameFileResult(x.disk, lib, Dirname(addonPath), folder)
        case Err(e) => Fail(e, x.disk)
        case Ok(same) =>
          if !same || Basename(addonPath) != archiveBasename
          then CopyStep(x.disk, addonPath, Join(folder, archiveBasename))
          else x
  }

  /** Whether fetch_addon_from_zip copies the archive into the addon's folder:
      unless os.path.samefile says the archive already lies there under its
      repository name. */
  predicate ArchiveCopied(lib: Libraries, addonPath: string, folder: string, m: AddonMetadata) {
    !lib.sameFile(Dirname(addonPath), folder) || Basename(addonPath) != ArchiveBasename(m.id, m.version)
  }

  /** `p` is none of the side files written into `folder`. */
  predicate NoSideFileAt(folder: string, version: string, p: string) {
    forall i :: 0 <= i < |MetadataBasenames(version)| ==> Dst(folder, MetadataBasenames(version)[i]) != p
  }

  /** A successful extraction leaves every side file the archive holds in the
      folder, which now exists. When the archive is copied, the repository's
      archive holds the bytes of the given archive (unless an extracted side
      file overwrote it first); otherwise the archive already there is kept. */
  lemma ExtractResult(d: State, lib: Libraries, addonPath: string, members: seq<ZipMember>, root: string,
                      folder: string, m: AddonMetadata)
    requires ExtractStep(d, lib, addonPath, members, root, folder, m).result.Ok?
    ensures var e := ExtractStep(d, lib, addonPath, members, root, folder, m).disk;
      var ap := ArchivePath(folder, m);
      && Extracted(e, members, root, folder, MetadataBasenames(m.version))
      && e.dirs == d.dirs + {folder}
      && (ArchiveCopied(lib, addonPath, folder, m) && NoSideFileAt(folder, m.version, addonPath) ==>
            addonPath in d.files && ap in e.files && e.files[ap] == d.files[addonPath])
      && (!ArchiveCopied(lib, addonPath, folder, m) ==>
            (ap in e.files <==> ap in d.files) && (ap in d.files ==> e.files[ap] == d.files[ap]))
  {
    var pairs := MetadataBasenames(m.version);
    var ap := ArchivePath(folder, m);
    var made := EnsureDirStep(d, folder);
    MetadataDistinctTargets(folder, m.version);
    ExtractPairsEffect(made.disk, members, root, folder, pairs);
    var x := ExtractPairsStep(made.disk, members, root, folder, pairs);
    CopyKeepsExtracted(x.disk, addonPath, members, root, folder, m);
    ArchivePathEnds(folder, m);
    NotAMetadataTarget(folder, m.version, ap);
    ExtractPairsFrame(made.disk, members, root, folder, pairs, ap);
    if ArchiveCopied(lib, addonPath, folder, m) && NoSideFileAt(folder, m.version, addonPath) {
      ExtractPairsFrame(made.disk, members, root, folder, pairs, addonPath);
    }
  }

  /** Copying the archive into the addon's folder keeps the side files. */
  lemma CopyKeepsExtracted(e: State, addonPath: string, members: seq<ZipMember>, root: string, folder: string,
                           m: AddonMetadata)
    requires Extracted(e, members, root, folder, MetadataBasenames(m.version))
    ensures Extracted(CopyStep(e, addonPath, ArchivePath(folder, m)).disk, members, root, folder,
                      MetadataBasenames(m.version))
  {
    var ap := ArchivePath(folder, m);
    ArchivePathEnds(folder, m);
    NotAMetadataTarget(folder, m.version, ap);
    ExtractedKept(e, CopyStep(e, addonPath, ap).disk, members, root, folder, MetadataBasenames(m.version), ap);
  }

  /** The side files land on five different paths. */
  lemma MetadataDistinctTargets(folder: string, version: string)
    ensures DistinctTargets(folder, MetadataBasenames(version))
  {
    var pairs := MetadataBasenames(version);
    MetadataTargetsDistinct(version);
    assert SideFiles == ["addon.xml", "icon.png", "fanart.jpg", "LICENSE.txt"];
    forall i, j | 0 <= i < j < 5
      ensures Dst(folder, pairs[i]) != Dst(folder, pairs[j])
    {
      JoinInjective(folder, pairs[i].1, pairs[j].1);
    }
  }

  /** Writing a path no side file targets keeps the side files. */
  lemma ExtractedKept(e: State, e': State, members: seq<ZipMember>, root: string, target: string,
                      pairs: seq<(string, string)>, p: string)
    requires Extracted(e, members, root, target, pairs)
    requires forall i :: 0 <= i < |pairs| ==> Dst(target, pairs[i]) != p
    requires forall q :: q != p && q in e.files ==> q in e'.files && e'.files[q] == e.files[q]
    ensures Extracted(e', members, root, target, pairs)
  {
  }

  /** A bare archive file name has an empty dirname, which os.path.samefile
      cannot stat: such an archive is never extracted. */
  lemma ExtractRefusesBareName(d: State, lib: Libraries, addonPath: string, members: seq<ZipMember>, root: string,
                               folder: string, m: AddonMetadata)
    requires NoSlash(addonPath)
    ensures ExtractStep(d, lib, addonPath, members, root, folder, m).result.Err?
  {
    NoSlashLast(addonPath);
    assert Dirname(addonPath) == "";
  }

  /** fetch_addon_from_zip up to the copy of the archive: read and open the
      archive, find its metadata, extract into `<target>/<id>`. */
  function ZipImportStep(d: State, lib: Libraries, addonPath: string, targetFolder: string): Step<AddonMetadata> {
    match ReadResult(d, addonPath)
    case Err(e) => Fail(e, d)
    case Ok(bytes) =>
      match lib.unzip(bytes)
      case None => Fail(BadZipFile(addonPath), d)
      case Some(members) =>
        match ArchiveMetadata(lib, members)
        case Err(e) => Fail(e, d)
        case Ok((root, m)) =>
          var x := ExtractStep(d, lib, addonPath, members, root, Join(targetFolder, m.id), m);
          if x.result.Err? then Fail(x.result.error, x.disk) else Step(Ok(m), x.disk)
  }

  /** fetch_addon_from_zip as written: after the archive is in place the
      builder asks for `cls.get_checksum_path`, which KodiRepository does not
      define, so every call that gets that far raises AttributeError. */
  function ZipFetchAsWritten(d: State, lib: Libraries, addonPath: string, targetFolder: string): (s: Step<AddonMetadata>)
    ensures s.result.Err?
    ensures ZipImportStep(d, lib, addonPath, targetFolder).result.Ok? ==>
      s.result == Err(UndefinedAttribute("get_checksum_path"))
  {
    var s := ZipImportStep(d, lib, addonPath, targetFolder);
    if s.result.Err? then s
    else
      Fail(UndefinedAttribute("get_checksum_path"), s.disk)
  }

  /** fetch_addon_from_zip as evidently intended, like the other fetchers:
      the archive's checksum is written beside it. */
  function ZipFetchStep(d: State, lib: Libraries, addonPath: string, targetFolder: string): Step<AddonMetadata> {
    var s := ZipImportStep(d, lib, addonPath, targetFolder);
    if s.result.Err? then s
    else
      var m := s.result.value;
      var c := ChecksumStep(s.disk, lib, ArchivePath(Join(targetFolder, m.id), m), true, None);
      if c.result.Err? then Fail(c.result.error, c.disk) else Step(Ok(m), c.disk)
  }

  /** A zip fetch that succeeds reports the metadata of the archive's
      descriptor, leaves the side files extracted into the addon's folder and
      an archive whose checksum file matches it. The archive holds the given
      archive's bytes when it was copied (and no side file was extracted over
      the given archive), and is the one already in place when it was not. */
  lemma ZipFetchResult(d: State, lib: Libraries, addonPath: string, targetFolder: string)
    requires ZipFetchStep(d, lib, addonPath, targetFolder).result.Ok?
    ensures var m := ZipFetchStep(d, lib, addonPath, targetFolder).result.value;
      var e := ZipFetchStep(d, lib, addonPath, targetFolder).disk;
      var folder := Join(targetFolder, m.id);
      var ap := ArchivePath(folder, m);
      && addonPath in d.files && lib.unzip(d.files[addonPath]).Some?
      && ArchiveMetadata(lib, lib.unzip(d.files[addonPath]).value).Ok?
      && ArchiveMetadata(lib, lib.unzip(d.files[addonPath]).value).value.1 == m
      && ChecksumHolds(e, lib, ap)
      && Extracted(e, lib.unzip(d.files[addonPath]).value, ArchiveMetadata(lib, lib.unzip(d.files[addonPath]).value).value.0,
                   folder, MetadataBasenames(m.version))
      && e.dirs == d.dirs + {folder}
      && (ArchiveCopied(lib, addonPath, folder, m) && NoSideFileAt(folder, m.version, addonPath) ==>
            e.files[ap] == d.files[addonPath])
      && (!ArchiveCopied(lib, addonPath, folder, m) ==> ap in d.files && e.files[ap] == d.files[ap])
  {
    var s := ZipImportStep(d, lib, addonPath, targetFolder);
    ZipImportResult(d, lib, addonPath, targetFolder);
    var members := lib.unzip(d.files[addonPath]).value;
    var (root, m) := ArchiveMetadata(lib, members).value;
    var folder := Join(targetFolder, m.id);
    ZipChecksumKeepsExtracted(s.disk, lib, members, root, folder, m);
    assert |ArchivePath(folder, m) + ".md5"| != |ArchivePath(folder, m)|;
  }

  /** The import part of a zip fetch: the metadata is the archive's, the side
      files are extracted, and the archive is copied or kept as ExtractResult
      says. */
  lemma ZipImportResult(d: State, lib: Libraries, addonPath: string, targetFolder: string)
    requires ZipImportStep(d, lib, addonPath, targetFolder).result.Ok?
    ensures var m := ZipImportStep(d, lib, addonPath, targetFolder).result.value;
      var e := ZipImportStep(d, lib, addonPath, targetFolder).disk;
      var folder := Join(targetFolder, m.id);
      var ap := ArchivePath(folder, m);
      && addonPath in d.files && lib.unzip(d.files[addonPath]).Some?
      && ArchiveMetadata(lib, lib.unzip(d.files[addonPath]).value).Ok?
      && ArchiveMetadata(lib, lib.unzip(d.files[addonPath]).value).value.1 == m
      && Extracted(e, lib.unzip(d.files[addonPath]).value, ArchiveMetadata(lib, lib.unzip(d.files[addonPath]).value).value.0,
                   folder, MetadataBasenames(m.version))
      && e.dirs == d.dirs + {folder}
      && (ArchiveCopied(lib, addonPath, folder, m) && NoSideFileAt(folder, m.version, addonPath) ==>
            ap in e.files && e.files[ap] == d.files[addonPath])
      && (!ArchiveCopied(lib, addonPath, folder, m) ==>
            (ap in e.files <==> ap in d.files) && (ap in d.files ==> e.files[ap] == d.files[ap]))
  {
    var members := lib.unzip(d.files[addonPath]).value;
    var (root, m) := ArchiveMetadata(lib, members).value;
    ExtractResult(d, lib, addonPath, members, root, Join(targetFolder, m.id), m);
  }

  /** Writing the archive's checksum keeps the extracted side files. */
  lemma ZipChecksumKeepsExtracted(e: State, lib: Libraries, members: seq<ZipMember>, root: string, folder: string,
                                  m: AddonMetadata)
    requires Extracted(e, members, root, folder, MetadataBasenames(m.version))
    requires ChecksumStep(e, lib, ArchivePath(folder, m), true, None).result.Ok?
    ensures var c := ChecksumStep(e, lib, ArchivePath(folder, m), true, None).disk;
      && ChecksumHolds(c, lib, ArchivePath(folder, m))
      && Extracted(c, members, root, folder, MetadataBasenames(m.version))
  {
    var ap := ArchivePath(folder, m);
    ChecksumStepHolds(e, lib, ap);
    ArchivePathEnds(folder, m);
    NotAMetadataTarget(folder, m.version, ap + ".md5");
    ExtractedKept(e, ChecksumStep(e, lib, ap, true, None).disk, members, root, folder,
                  MetadataBasenames(m.version), ap + ".md5");
  }

  /** An archive given by a bare file name is never fetched. */
  lemma ZipFetchRefusesBareName(d: State, lib: Libraries, addonPath: string, targetFolder: string)
    requires NoSlash(addonPath)
    ensures ZipFetchStep(d, lib, addonPath, targetFolder).result.Err?
    ensures ZipFetchAsWritten(d, lib, addonPath, targetFolder).result.Err?
  {
    if addonPath in d.files && lib.unzip(d.files[addonPath]).Some? {
      var members := lib.unzip(d.files[addonPath]).value;
      if ArchiveMetadata(lib, members).Ok? {
        var (root, m) := ArchiveMetadata(lib, members).value;
        ExtractRefusesBareName(d, lib, addonPath, members, root, Join(targetFolder, m.id), m);
      }
    }
  }

  /** The extraction loop of fetch_addon_from_zip on the file system. */
  method ExtractSideFiles(fs: FileSystem, members: seq<ZipMember>, root: string, folder: string, version: string)
    returns (r: Result<()>)
    modifies fs
    ensures r == ExtractPairsStep(old(fs.Disk()), members, root, folder, MetadataBasenames(version)).result
    ensures fs.Disk() == ExtractPairsStep(old(fs.Disk()), members, root, folder, MetadataBasenames(version)).disk
  {
    var pairs := MetadataBasenames(version);
    for i := 0 to |pairs|
      invariant ExtractPairsStep(fs.Disk(), members, root, folder, pairs[i..])
             == ExtractPairsStep(old(fs.Disk()), members, root, folder, pairs)
    {
      assert pairs[i..][1..] == pairs[i + 1..];
      var (sourceBasename, targetBasename) := pairs[i];
      var sourceFile := Lookup(members, Join(root, sourceBasename));
      if sourceFile.Some? {
        r := fs.Write(Join(folder, targetBasename), sourceFile.value);
        if r.Err? {
          return;
        }
      }
    }
    return Ok(());
  }

  /** Making the addon's folder, extracting and copying the archive, on the
      file system. */
  method Extract(fs: FileSystem, lib: Libraries, addonPath: string, members: seq<ZipMember>, root: string,
                 folder: string, m: AddonMetadata) returns (r: Result<()>)
    modifies fs
    ensures r == ExtractStep(old(fs.Disk()), lib, addonPath, members, root, folder, m).result
    ensures fs.Disk() == ExtractStep(old(fs.Disk()), lib, addonPath, members, root, folder, m).disk
  {
    r := fs.EnsureDir(folder);
    if r.Err? {
      return;
    }
    r := ExtractSideFiles(fs, members, root, folder, m.version);
    if r.Err? {
      return;
    }
    var archiveBasename := ArchiveBasename(m.id, m.version);
    var same := SameFile(fs, lib, Dirname(addonPath), folder);
    if same.Err? {
      return Err(same.error);
    }
    if !same.value || Basename(addonPath) != archiveBasename {
      r := fs.Copy(addonPath, Join(folder, archiveBasename));
    }
  }

  /** fetch_addon_from_zip, as evidently intended, on the file system. */
  method FetchAddonFromZip(fs: FileSystem, lib: Libraries, addonPath: string, targetFolder: string)
    returns (r: Result<AddonMetadata>)
    modifies fs
    ensures r == ZipFetchStep(old(fs.Disk()), lib, addonPath, targetFolder).result
    ensures fs.Disk() == ZipFetchStep(old(fs.Disk()), lib, addonPath, targetFolder).disk
  {
    var contents := fs.Read(addonPath);
    if contents.Err? {
      return Err(contents.error);
    }
    var archive := lib.unzip(contents.value);
    if archive.None? {
      return Err(BadZipFile(addonPath));
    }
    var found := ArchiveMetadata(lib, archive.value);
    if found.Err? {
      return Err(found.error);
    }
    var (root, m) := found.value;
    var folder := Join(targetFolder, m.id);
    var extracted := Extract(fs, lib, addonPath, archive.value, root, folder, m);
    if extracted.Err? {
      return Err(extracted.error);
    }
    var checksum := GenerateChecksum(fs, lib, Join(folder, ArchiveBasename(m.id, m.version)), true, None);
    if checksum.Err? {
      return Err(checksum.error);
    }
    return Ok(m);
  }

  // ---------------------------------------------------------------------------
  // fetch_addon

  /** What a worker appends to its result slot: the metadata, or the
      exception it caught. */
  datatype WorkerResult = Succeeded(metadata: AddonMetadata) | Failed(error: Error)

  function Report(r: Result<AddonMetadata>): (w: WorkerResult)
    ensures w.Succeeded? <==> r.Ok?
    ensures r.Ok? ==> w.metadata == r.value
    ensures r.Err? ==> w.error == r.error
  {
    match r
    case Ok(m) => Succeeded(m)
    case Err(e) => Failed(e)
  }

  /** fetch_addon: a URL is cloned with git, a directory is read as an addon
      folder, a regular file as an addon archive; anything else is missing. */
  function FetchStep(d: State, lib: Libraries, addonPath: string, targetFolder: string): Step<AddonMetadata> {
    if IsUrl(addonPath) then GitFetchStep(d, lib, addonPath, targetFolder)
    else if IsDir(d, addonPath) then FolderFetchStep(d, lib, addonPath, targetFolder)
    else if IsFile(d, addonPath) then ZipFetchStep(d, lib, addonPath, targetFolder)
    else Fail(PathNotFound(addonPath), d)
  }

  /** Whatever the source, a fetch either fails or publishes an archive whose
      checksum file matches it (for a git source, provided the archive lies
      outside the temporary clone); a path that is neither a URL nor on disk
      is reported missing and changes nothing. */
  lemma FetchResult(d: State, lib: Libraries, addonPath: string, targetFolder: string)
    ensures var s := FetchStep(d, lib, addonPath, targetFolder);
      s.result.Ok? && !IsUrl(addonPath) ==>
        ChecksumHolds(s.disk, lib, ArchivePath(Join(targetFolder, s.result.value.id), s.result.value))
    ensures var s := FetchStep(d, lib, addonPath, targetFolder);
      var clone := lib.mkdtemp(d.dirs);
      s.result.Ok? && IsUrl(addonPath)
      && !Under(ArchivePath(Join(targetFolder, s.result.value.id), s.result.value), clone)
      && !Under(ArchivePath(Join(targetFolder, s.result.value.id), s.result.value) + ".md5", clone) ==>
        ChecksumHolds(s.disk, lib, ArchivePath(Join(targetFolder, s.result.value.id), s.result.value))
    ensures !IsUrl(addonPath) && !IsDir(d, addonPath) && !IsFile(d, addonPath) ==>
      FetchStep(d, lib, addonPath, targetFolder) == Step(Err(PathNotFound(addonPath)), d)
  {
    if IsUrl(addonPath) {
      var r := GitFetchStep(d, lib, addonPath, targetFolder).result;
      if r.Ok? {
        GitFetchResult(d, lib, addonPath, targetFolder, r.value);
      }
    } else {
      if IsDir(d, addonPath) {
        if FolderFetchStep(d, lib, addonPath, targetFolder).result.Ok? {
          FolderFetchResult(d, lib, addonPath, targetFolder);
        }
      } else if IsFile(d, addonPath) {
        if ZipFetchStep(d, lib, addonPath, targetFolder).result.Ok? {
          ZipFetchResult(d, lib, addonPath, targetFolder);
        }
      }
    }
  }

  /** A worker's result slot, the list fetch_addon appends to. */
  class ResultSlot {
    var results: seq<WorkerResult>

    constructor ()
      ensures results == []
    {
      results := [];
    }

    method Append(w: WorkerResult)
      modifies this
      ensures results == old(results) + [w]
    {
      results := results + [w];
    }
  }

  /** fetch_addon on the file system: every outcome, success or exception,
      is appended to the slot as exactly one result. */
  method FetchAddon(fs: FileSystem, lib: Libraries, addonPath: string, targetFolder: string, slot: ResultSlot)
    modifies fs, slot
    ensures slot.results == old(slot.results) + [Report(FetchStep(old(fs.Disk()), lib, addonPath, targetFolder).result)]
    ensures fs.Disk() == FetchStep(old(fs.Disk()), lib, addonPath, targetFolder).disk
  {
    var r: Result<AddonMetadata>;
    if IsUrl(addonPath) {
      r := FetchAddonFromGit(fs, lib, addonPath, targetFolder);
    } else if IsDir(fs.Disk(), addonPath) {
      r := FetchAddonFromFolder(fs, lib, addonPath, targetFolder);
    } else if IsFile(fs.Disk(), addonPath) {
      r := FetchAddonFromZip(fs, lib, addonPath, targetFolder);
    } else {
      r := Err(PathNotFound(addonPath));
    }
    slot.Append(Report(r));
  }
}
