/** What the fetchers write into an addon's folder of the repository:
    copy_metadata_files, create_folder_archive and create_git_archive. */
module Archive {
  import opened Wrappers
  import opened Paths
  import opened Names
  import opened Metadata
  import opened Disk
  import opened Sources

  /** os.path.sep on the POSIX systems the model describes. */
  const Sep: char := '/'

  // ---------------------------------------------------------------------------
  // copy_metadata_files

  function Src(source: string, pair: (string, string)): string {
    Join(source, pair.0)
  }

  function Dst(target: string, pair: (string, string)): string {
    Join(target, pair.1)
  }

  /** The copy loop: each source that is a regular file is copied to its
      target; the first failing copy ends the loop with its error. */
  function CopyPairsStep(d: State, source: string, target: string, pairs: seq<(string, string)>): (s: Step<()>)
    decreases |pairs|
  {
    if pairs == [] then Step(Ok(()), d)
    else if Src(source, pairs[0]) in d.files then
      var c := CopyStep(d, Src(source, pairs[0]), Dst(target, pairs[0]));
      if c.result.Err? then c else CopyPairsStep(c.disk, source, target, pairs[1..])
    else CopyPairsStep(d, source, target, pairs[1..])
  }

  /** No copy reads a file another copy writes. */
  predicate Disjoint(source: string, target: string, pairs: seq<(string, string)>) {
    forall i, j :: 0 <= i < |pairs| && 0 <= j < |pairs| ==> Src(source, pairs[i]) != Dst(target, pairs[j])
  }

  predicate DistinctTargets(target: string, pairs: seq<(string, string)>) {
    forall i, j :: 0 <= i < j < |pairs| ==> Dst(target, pairs[i]) != Dst(target, pairs[j])
  }

  /** The targets of the sources that exist. */
  function Written(d: State, source: string, target: string, pairs: seq<(string, string)>): set<string> {
    set i | 0 <= i < |pairs| && Src(source, pairs[i]) in d.files :: Dst(target, pairs[i])
  }

  /** Every copy that is attempted can write its target. */
  predicate CopiesFit(d: State, source: string, target: string, pairs: seq<(string, string)>) {
    forall i :: 0 <= i < |pairs| && Src(source, pairs[i]) in d.files ==>
      Dst(target, pairs[i]) !in d.dirs && ParentExists(d, Dst(target, pairs[i]))
  }

  /** `e` is `d` with every existing source copied to its target and nothing
      else changed. */
  ghost predicate Copied(d: State, e: State, source: string, target: string, pairs: seq<(string, string)>) {
    && e.dirs == d.dirs
    && TargetsCopied(d, e, source, target, pairs)
    && UnchangedOutside(d, e, Written(d, source, target, pairs))
  }

  /** Each existing source's target in `e` holds the source's contents in `d`. */
  predicate TargetsCopied(d: State, e: State, source: string, target: string, pairs: seq<(string, string)>) {
    forall i :: 0 <= i < |pairs| && Src(source, pairs[i]) in d.files ==>
      Dst(target, pairs[i]) in e.files && e.files[Dst(target, pairs[i])] == d.files[Src(source, pairs[i])]
  }

  /** Outside the paths `w`, the files of `e` are those of `d`. */
  ghost predicate UnchangedOutside(d: State, e: State, w: set<string>) {
    forall p :: p !in w ==> (p in e.files <==> p in d.files) && (p in e.files ==> e.files[p] == d.files[p])
  }

  /** When no copy reads what another writes and the targets are distinct, the
      loop succeeds exactly when every attempted copy can write its target, and
      then each target holds its source's contents and nothing else changed. */
  lemma {:induction false} CopyPairsEffect(d: State, source: string, target: string, pairs: seq<(string, string)>)
    requires Disjoint(source, target, pairs) && DistinctTargets(target, pairs)
    ensures CopyPairsStep(d, source, target, pairs).result.Ok? <==> CopiesFit(d, source, target, pairs)
    ensures CopyPairsStep(d, source, target, pairs).result.Ok? ==>
      Copied(d, CopyPairsStep(d, source, target, pairs).disk, source, target, pairs)
    decreases |pairs|
  {
    if pairs == [] {
      assert Written(d, source, target, pairs) == {};
    } else {
      var rest := pairs[1..];
      assert Disjoint(source, target, rest);
      assert DistinctTargets(target, rest);
      var src0, dst0 := Src(source, pairs[0]), Dst(target, pairs[0]);
      if src0 in d.files {
        var c := CopyStep(d, src0, dst0);
        if c.result.Ok? {
          CopyPairsEffect(c.disk, source, target, rest);
          CopyFirstPair(d, c.disk, CopyPairsStep(c.disk, source, target, rest), source, target, pairs);
        } else {
          assert !CopiesFit(d, source, target, pairs);
        }
      } else {
        CopyPairsEffect(d, source, target, rest);
        SkipFirstPair(d, CopyPairsStep(d, source, target, rest), source, target, pairs);
      }
    }
  }

  lemma CopyFirstPair(d: State, d1: State, s: Step<()>, source: string, target: string, pairs: seq<(string, string)>)
    requires Disjoint(source, target, pairs) && DistinctTargets(target, pairs)
    requires |pairs| > 0 && Src(source, pairs[0]) in d.files
    requires d1 == State(d.files[Dst(target, pairs[0]) := d.files[Src(source, pairs[0])]], d.dirs)
    requires Dst(target, pairs[0]) !in d.dirs && ParentExists(d, Dst(target, pairs[0]))
    requires s.result.Ok? <==> CopiesFit(d1, source, target, pairs[1..])
    requires s.result.Ok? ==> Copied(d1, s.disk, source, target, pairs[1..])
    ensures s.result.Ok? <==> CopiesFit(d, source, target, pairs)
    ensures s.result.Ok? ==> Copied(d, s.disk, source, target, pairs)
  {
    var rest := pairs[1..];
    var dst0 := Dst(target, pairs[0]);
    forall i | 0 <= i < |rest|
      ensures (Src(source, rest[i]) in d1.files <==> Src(source, rest[i]) in d.files)
      ensures Src(source, rest[i]) in d.files ==> d1.files[Src(source, rest[i])] == d.files[Src(source, rest[i])]
    {
      assert rest[i] == pairs[i + 1];
    }
    assert CopiesFit(d1, source, target, rest) <==> CopiesFit(d, source, target, pairs) by {
      if CopiesFit(d1, source, target, rest) {
        forall i | 0 <= i < |pairs| && Src(source, pairs[i]) in d.files
          ensures Dst(target, pairs[i]) !in d.dirs && ParentExists(d, Dst(target, pairs[i]))
        {
          if i > 0 {
            assert pairs[i] == rest[i - 1];
          }
        }
      }
      if CopiesFit(d, source, target, pairs) {
        forall i | 0 <= i < |rest| && Src(source, rest[i]) in d1.files
          ensures Dst(target, rest[i]) !in d1.dirs && ParentExists(d1, Dst(target, rest[i]))
        {
          assert rest[i] == pairs[i + 1];
        }
      }
    }
    if s.result.Ok? {
      var e := s.disk;
      forall i | 0 <= i < |rest|
        ensures Dst(target, rest[i]) != dst0
      {
        assert rest[i] == pairs[i + 1];
      }
      assert dst0 !in Written(d1, source, target, rest);
      forall i | 0 <= i < |pairs| && Src(source, pairs[i]) in d.files
        ensures Dst(target, pairs[i]) in e.files && e.files[Dst(target, pairs[i])] == d.files[Src(source, pairs[i])]
      {
        if i > 0 {
          assert pairs[i] == rest[i - 1];
        }
      }
      forall p | p !in Written(d, source, target, pairs)
        ensures (p in e.files <==> p in d.files) && (p in e.files ==> e.files[p] == d.files[p])
      {
        assert p != dst0;
        forall i | 0 <= i < |rest| && Src(source, rest[i]) in d1.files
          ensures Dst(target, rest[i]) != p
        {
          assert rest[i] == pairs[i + 1];
        }
        assert p !in Written(d1, source, target, rest);
      }
    }
  }

  lemma SkipFirstPair(d: State, s: Step<()>, source: string, target: string, pairs: seq<(string, string)>)
    requires |pairs| > 0 && Src(source, pairs[0]) !in d.files
    requires s.result.Ok? <==> CopiesFit(d, source, target, pairs[1..])
    requires s.result.Ok? ==> Copied(d, s.disk, source, target, pairs[1..])
    ensures s.result.Ok? <==> CopiesFit(d, source, target, pairs)
    ensures s.result.Ok? ==> Copied(d, s.disk, source, target, pairs)
  {
    FitSkip(d, source, target, pairs);
    if s.result.Ok? {
      CopiedSkip(d, s.disk, source, target, pairs);
    }
  }

  lemma CopiedSkip(d: State, e: State, source: string, target: string, pairs: seq<(string, string)>)
    requires |pairs| > 0 && Src(source, pairs[0]) !in d.files
    requires Copied(d, e, source, target, pairs[1..])
    ensures Copied(d, e, source, target, pairs)
  {
    TargetsSkip(d, e, source, target, pairs);
    WrittenSkip(d, source, target, pairs);
  }

  lemma TargetsSkip(d: State, e: State, source: string, target: string, pairs: seq<(string, string)>)
    requires |pairs| > 0 && Src(source, pairs[0]) !in d.files
    requires TargetsCopied(d, e, source, target, pairs[1..])
    ensures TargetsCopied(d, e, source, target, pairs)
  {
    var rest := pairs[1..];
    forall i | 0 <= i < |pairs| && Src(source, pairs[i]) in d.files
      ensures Dst(target, pairs[i]) in e.files && e.files[Dst(target, pairs[i])] == d.files[Src(source, pairs[i])]
    {
      var j := i - 1;
      assert 0 <= j < |rest| && rest[j] == pairs[i];
    }
  }

  lemma WrittenSkip(d: State, source: string, target: string, pairs: seq<(string, string)>)
    requires |pairs| > 0 && Src(source, pairs[0]) !in d.files
    ensures Written(d, source, target, pairs) == Written(d, source, target, pairs[1..])
  {
    var rest := pairs[1..];
    forall p | p in Written(d, source, target, pairs) ensures p in Written(d, source, target, rest) {
      var i :| 0 <= i < |pairs| && Src(source, pairs[i]) in d.files && Dst(target, pairs[i]) == p;
      assert i > 0 && pairs[i] == rest[i - 1];
    }
    forall p | p in Written(d, source, target, rest) ensures p in Written(d, source, target, pairs) {
      var i :| 0 <= i < |rest| && Src(source, rest[i]) in d.files && Dst(target, rest[i]) == p;
      assert rest[i] == pairs[i + 1];
    }
  }

  lemma FitSkip(d: State, source: string, target: string, pairs: seq<(string, string)>)
    requires |pairs| > 0 && Src(source, pairs[0]) !in d.files
    ensures CopiesFit(d, source, target, pairs[1..]) <==> CopiesFit(d, source, target, pairs)
  {
    var rest := pairs[1..];
    if CopiesFit(d, source, target, rest) {
      forall i | 0 <= i < |pairs| && Src(source, pairs[i]) in d.files
        ensures Dst(target, pairs[i]) !in d.dirs && ParentExists(d, Dst(target, pairs[i]))
      {
        assert i > 0 && pairs[i] == rest[i - 1];
      }
    }
    if CopiesFit(d, source, target, pairs) {
      forall i | 0 <= i < |rest| && Src(source, rest[i]) in d.files
        ensures Dst(target, rest[i]) !in d.dirs && ParentExists(d, Dst(target, rest[i]))
      {
        assert rest[i] == pairs[i + 1];
      }
    }
  }

  /** A path no copy targets keeps its contents, and no directory changes. */
  lemma {:induction false} CopyPairsFrame(d: State, source: string, target: string, pairs: seq<(string, string)>, p: string)
    requires forall i :: 0 <= i < |pairs| ==> Dst(target, pairs[i]) != p
    ensures var e := CopyPairsStep(d, source, target, pairs).disk;
      && e.dirs == d.dirs
      && (p in e.files <==> p in d.files)
      && (p in d.files ==> e.files[p] == d.files[p])
    decreases |pairs|
  {
    if pairs != [] {
      var rest := pairs[1..];
      assert forall i :: 0 <= i < |rest| ==> rest[i] == pairs[i + 1];
      if Src(source, pairs[0]) in d.files {
        var c := CopyStep(d, Src(source, pairs[0]), Dst(target, pairs[0]));
        if c.result.Ok? {
          CopyPairsFrame(c.disk, source, target, rest, p);
        }
      } else {
        CopyPairsFrame(d, source, target, rest, p);
      }
    }
  }

  /** posixpath.join ends with its second argument's last character. */
  lemma JoinLast(a: string, b: string)
    requires b != ""
    ensures Join(a, b) != "" && Join(a, b)[|Join(a, b)| - 1] == b[|b| - 1]
  {
  }

  /** A path ending in 'p' (an archive) or '5' (a checksum) is not one of the
      side files copy_metadata_files writes. */
  lemma NotAMetadataTarget(folder: string, version: string, p: string)
    requires p != "" && (p[|p| - 1] == 'p' || p[|p| - 1] == '5')
    ensures forall i :: 0 <= i < |MetadataBasenames(version)| ==> Dst(folder, MetadataBasenames(version)[i]) != p
  {
    var pairs := MetadataBasenames(version);
    assert SideFiles == ["addon.xml", "icon.png", "fanart.jpg", "LICENSE.txt"];
    forall i | 0 <= i < 5
      ensures Dst(folder, pairs[i]) != p
    {
      var b := pairs[i].1;
      assert b != "" && b[|b| - 1] != 'p' && b[|b| - 1] != '5';
      JoinLast(folder, b);
    }
  }

  /** A path ending in 'p' (an archive) or '5' (a checksum) is not one of the
      files copy_metadata_files reads. */
  lemma NotAMetadataSource(folder: string, version: string, p: string)
    requires p != "" && (p[|p| - 1] == 'p' || p[|p| - 1] == '5')
    ensures forall i :: 0 <= i < |MetadataBasenames(version)| ==> Src(folder, MetadataBasenames(version)[i]) != p
  {
    var pairs := MetadataBasenames(version);
    assert SideFiles == ["addon.xml", "icon.png", "fanart.jpg", "LICENSE.txt"];
    forall i | 0 <= i < 5
      ensures Src(folder, pairs[i]) != p
    {
      var b := pairs[i].0;
      assert b != "" && b[|b| - 1] != 'p' && b[|b| - 1] != '5';
      JoinLast(folder, b);
    }
  }

  /** Two disks that hold the same sources: each source exists in both or in
      neither, with the same contents. */
  predicate SourcesAgree(d: State, d': State, source: string, pairs: seq<(string, string)>) {
    forall i :: 0 <= i < |pairs| ==>
      (Src(source, pairs[i]) in d.files <==> Src(source, pairs[i]) in d'.files)
      && (Src(source, pairs[i]) in d.files ==> d'.files[Src(source, pairs[i])] == d.files[Src(source, pairs[i])])
  }

  /** A disk that differs from `d` only at an archive or a checksum holds the
      same side files as `d`. */
  lemma SourcesAgreeOutside(d: State, d': State, source: string, version: string, x: string)
    requires UnchangedOutside(d, d', {x})
    requires x != "" && (x[|x| - 1] == 'p' || x[|x| - 1] == '5')
    ensures SourcesAgree(d, d', source, MetadataBasenames(version))
  {
    NotAMetadataSource(source, version, x);
  }

  /** Changes at `w1` followed by changes at `w2` change nothing outside both. */
  lemma UnchangedCompose(d: State, d': State, e: State, w1: set<string>, w2: set<string>)
    requires UnchangedOutside(d, d', w1) && UnchangedOutside(d', e, w2)
    ensures UnchangedOutside(d, e, w1 + w2)
  {
  }

  /** A copy made on `d'` is a copy of `d`'s sources when the two hold the
      same sources, and it writes the same targets. */
  lemma CopiedFromAgreeing(d: State, d': State, e: State, source: string, target: string,
                           pairs: seq<(string, string)>)
    requires SourcesAgree(d, d', source, pairs)
    requires TargetsCopied(d', e, source, target, pairs)
    ensures TargetsCopied(d, e, source, target, pairs)
    ensures Written(d', source, target, pairs) == Written(d, source, target, pairs)
  {
  }

  /** copy_metadata_files for an addon of the given version. */
  function CopyMetadataStep(d: State, source: string, target: string, version: string): Step<()> {
    CopyPairsStep(d, source, target, MetadataBasenames(version))
  }

  /** posixpath.join appends a relative name after the same prefix. */
  lemma JoinInjective(a: string, b1: string, b2: string)
    requires !IsAbsolute(b1) && !IsAbsolute(b2) && b1 != b2
    ensures Join(a, b1) != Join(a, b2)
  {
    if a == "" || a[|a| - 1] == '/' {
      assert Join(a, b1)[|a|..] == b1 && Join(a, b2)[|a|..] == b2;
    } else {
      assert Join(a, b1)[|a| + 1..] == b1 && Join(a, b2)[|a| + 1..] == b2;
    }
  }

  lemma PartsOfJoinedName(folder: string, name: string)
    requires NoSlash(name) && name != "" && name != "."
    ensures Parts(Join(folder, name)) == Parts(folder) + [name]
  {
    PartsJoin(folder, name);
    NoSlashLast(name);
  }

  /** Copying between two folders with different components: every side file
      the addon has lands under its target name with the same contents, the
      copy fails only when a target cannot be written, and nothing else on
      disk changes. */
  lemma CopyMetadataEffect(d: State, source: string, target: string, version: string)
    requires Parts(source) != Parts(target)
    requires NoSlash(version)
    ensures CopyMetadataStep(d, source, target, version).result.Ok? <==>
      CopiesFit(d, source, target, MetadataBasenames(version))
    ensures CopyMetadataStep(d, source, target, version).result.Ok? ==>
      Copied(d, CopyMetadataStep(d, source, target, version).disk, source, target, MetadataBasenames(version))
  {
    var pairs := MetadataBasenames(version);
    assert SideFiles == ["addon.xml", "icon.png", "fanart.jpg", "LICENSE.txt"];
    forall k | 0 <= k < 5
      ensures NoSlash(pairs[k].0) && pairs[k].0 != "" && pairs[k].0 != "."
      ensures NoSlash(pairs[k].1) && pairs[k].1 != "" && pairs[k].1 != "."
    {
    }
    assert Disjoint(source, target, pairs) by {
      forall i, j | 0 <= i < 5 && 0 <= j < 5
        ensures Src(source, pairs[i]) != Dst(target, pairs[j])
      {
        PartsOfJoinedName(source, pairs[i].0);
        PartsOfJoinedName(target, pairs[j].1);
        var ps, pt := Parts(source) + [pairs[i].0], Parts(target) + [pairs[j].1];
        assert ps[..|ps| - 1] == Parts(source) && pt[..|pt| - 1] == Parts(target);
      }
    }
    assert DistinctTargets(target, pairs) by {
      MetadataTargetsDistinct(version);
      forall i, j | 0 <= i < j < 5
        ensures Dst(target, pairs[i]) != Dst(target, pairs[j])
      {
        JoinInjective(target, pairs[i].1, pairs[j].1);
      }
    }
    CopyPairsEffect(d, source, target, pairs);
  }

  /** copy_metadata_files on the file system. */
  method CopyMetadataFiles(fs: FileSystem, sourceFolder: string, targetFolder: string, metadata: AddonMetadata)
    returns (r: Result<()>)
    modifies fs
    ensures r == CopyMetadataStep(old(fs.Disk()), sourceFolder, targetFolder, metadata.version).result
    ensures fs.Disk() == CopyMetadataStep(old(fs.Disk()), sourceFolder, targetFolder, metadata.version).disk
  {
    var pairs := MetadataBasenames(metadata.version);
    for i := 0 to |pairs|
      invariant CopyPairsStep(fs.Disk(), sourceFolder, targetFolder, pairs[i..])
             == CopyPairsStep(old(fs.Disk()), sourceFolder, targetFolder, pairs)
    {
      assert pairs[i..][1..] == pairs[i + 1..];
      var (sourceBasename, targetBasename) := pairs[i];
      var sourcePath := Join(sourceFolder, sourceBasename);
      if sourcePath in fs.files {
        r := fs.Copy(sourcePath, Join(targetFolder, targetBasename));
        if r.Err? {
          return;
        }
      }
    }
    return Ok(());
  }

  // ---------------------------------------------------------------------------
  // create_folder_archive

  /** The member name of a walked file: the relative root placed under the
      addon id, the file name appended, as zipfile normalises it. */
  function MemberName(id: string, addonPath: string, root: string, name: string): string {
    ArcName(Join(Join(id, RelPath(root, addonPath)), name))
  }

  /** The member names of one addon's archive. */
  function Namer(id: string, addonPath: string): (string, string) -> string {
    (root, name) => MemberName(id, addonPath, root, name)
  }

  /** The walk loop: every walked file is read and becomes a member, until the
      first file that cannot be read. */
  function ReadMembers(d: State, nameOf: (string, string) -> string, entries: seq<(string, string)>)
    : (r: (seq<ZipMember>, Option<Error>))
    ensures r.1.None? <==> forall k :: 0 <= k < |entries| ==> Join(entries[k].0, entries[k].1) in d.files
    ensures r.1.None? ==> |r.0| == |entries|
    decreases |entries|
  {
    if entries == [] then ([], None)
    else
      var init := entries[..|entries| - 1];
      var r := ReadMembers(d, nameOf, init);
      assert forall k :: 0 <= k < |init| ==> init[k] == entries[k];
      if r.1.Some? then r
      else
        var root, name := entries[|entries| - 1].0, entries[|entries| - 1].1;
        if Join(root, name) in d.files
        then (r.0 + [ZipMember(nameOf(root, name), d.files[Join(root, name)])], None)
        else (r.0, Some(OSError(Join(root, name))))
  }

  /** A walk that reads every file gives one member per walked file, in the
      walk's order, under its member name and with the file's contents. */
  lemma {:induction false} ReadMembersAll(d: State, nameOf: (string, string) -> string, entries: seq<(string, string)>)
    requires ReadMembers(d, nameOf, entries).1.None?
    ensures forall k :: 0 <= k < |entries| ==>
      ReadMembers(d, nameOf, entries).0[k]
        == ZipMember(nameOf(entries[k].0, entries[k].1), d.files[Join(entries[k].0, entries[k].1)])
    decreases |entries|
  {
    if entries != [] {
      var init := entries[..|entries| - 1];
      assert forall k :: 0 <= k < |init| ==> init[k] == entries[k];
      ReadMembersAll(d, nameOf, init);
    }
  }

  function ArchivePath(targetFolder: string, metadata: AddonMetadata): string {
    Join(targetFolder, ArchiveBasename(metadata.id, metadata.version))
  }

  /** The disk once the target folder exists and the archive is created empty:
      the walk sees this disk. */
  function OpenedArchive(d: State, targetFolder: string, archivePath: string): State {
    State(d.files[archivePath := []], d.dirs + {targetFolder})
  }

  /** The members the walk of `addonPath` reads once the archive is open. */
  function WalkedMembers(d: State, lib: Libraries, targetFolder: string, metadata: AddonMetadata,
                         addonPath: string): (seq<ZipMember>, Option<Error>)
  {
    var ready := OpenedArchive(d, targetFolder, ArchivePath(targetFolder, metadata));
    ReadMembers(ready, Namer(metadata.id, addonPath), lib.walk(ready, addonPath))
  }

  /** create_folder_archive: the folder is made if needed, the archive is
      created empty, the walk's files are added, and closing the archive writes
      the members added so far even when the walk fails. On success every
      walked file was read, and the only change to the disk is the target
      folder and the archive, which holds the zip of the walked members. */
  function FolderArchiveStep(d: State, lib: Libraries, targetFolder: string, metadata: AddonMetadata,
                             addonPath: string): (s: Step<string>)
    ensures s.result.Ok? ==> s.result.value == ArchivePath(targetFolder, metadata)
    ensures s.result.Ok? ==> WalkedMembers(d, lib, targetFolder, metadata, addonPath).1.None?
    ensures s.result.Ok? ==> s.disk == State(
      d.files[ArchivePath(targetFolder, metadata) := lib.zip(WalkedMembers(d, lib, targetFolder, metadata, addonPath).0)],
      d.dirs + {targetFolder})
    ensures s.result.Ok? <==> (EnsureDirStep(d, targetFolder).result.Ok?
      && ArchivePath(targetFolder, metadata) !in d.dirs + {targetFolder}
      && ParentExists(EnsureDirStep(d, targetFolder).disk, ArchivePath(targetFolder, metadata))
      && WalkedMembers(d, lib, targetFolder, metadata, addonPath).1.None?)
  {
    var e := EnsureDirStep(d, targetFolder);
    if e.result.Err? then Step(Err(e.result.error), e.disk)
    else
      var archivePath := ArchivePath(targetFolder, metadata);
      var o := WriteStep(e.disk, archivePath, []);
      if o.result.Err? then Step(Err(o.result.error), o.disk)
      else
        var (members, err) := ReadMembers(o.disk, Namer(metadata.id, addonPath), lib.walk(o.disk, addonPath));
        var closed := State(o.disk.files[archivePath := lib.zip(members)], o.disk.dirs);
        if err.Some? then Step(Err(err.value), closed) else Step(Ok(archivePath), closed)
  }

  /** The os.walk loop of create_folder_archive: each walked file is read and
      added under its member name; the first file that cannot be read stops it. */
  method ReadWalk(fs: FileSystem, id: string, addonPath: string, entries: seq<(string, string)>)
    returns (members: seq<ZipMember>, err: Option<Error>)
    ensures (members, err) == ReadMembers(fs.Disk(), Namer(id, addonPath), entries)
  {
    ghost var nameOf := Namer(id, addonPath);
    members := [];
    for i := 0 to |entries|
      invariant ReadMembers(fs.Disk(), nameOf, entries[..i]) == (members, None)
    {
      var (root, relativePath) := entries[i];
      ReadMembersNext(fs.Disk(), nameOf, entries, i);
      var relativeRoot := Join(id, RelPath(root, addonPath));
      var contents := fs.Read(Join(root, relativePath));
      if contents.Err? {
        ReadMembersStops(fs.Disk(), nameOf, entries, i + 1);
        return members, Some(contents.error);
      }
      members := members + [ZipMember(ArcName(Join(relativeRoot, relativePath)), contents.value)];
    }
    assert entries[..|entries|] == entries;
    return members, None;
  }

  /** One more walked file: it is read and added, or its absence stops the walk. */
  lemma ReadMembersNext(d: State, nameOf: (string, string) -> string, entries: seq<(string, string)>, i: nat)
    requires i < |entries| && ReadMembers(d, nameOf, entries[..i]).1.None?
    ensures var (root, name) := entries[i];
      var r := ReadMembers(d, nameOf, entries[..i]);
      ReadMembers(d, nameOf, entries[..i + 1])
        == if Join(root, name) in d.files
           then (r.0 + [ZipMember(nameOf(root, name), d.files[Join(root, name)])], None)
           else (r.0, Some(OSError(Join(root, name))))
  {
    assert entries[..i + 1][..i] == entries[..i];
  }

  /** create_folder_archive on the file system. */
  method CreateFolderArchive(fs: FileSystem, lib: Libraries, targetFolder: string, metadata: AddonMetadata,
                             addonPath: string) returns (r: Result<string>)
    modifies fs
    ensures r == FolderArchiveStep(old(fs.Disk()), lib, targetFolder, metadata, addonPath).result
    ensures fs.Disk() == FolderArchiveStep(old(fs.Disk()), lib, targetFolder, metadata, addonPath).disk
  {
    var made := fs.EnsureDir(targetFolder);
    if made.Err? {
      return Err(made.error);
    }
    var archivePath := Join(targetFolder, ArchiveBasename(metadata.id, metadata.version));
    var created := fs.Write(archivePath, []);
    if created.Err? {
      return Err(created.error);
    }
    var members, err := ReadWalk(fs, metadata.id, addonPath, lib.walk(fs.Disk(), addonPath));
    var closing := fs.Write(archivePath, lib.zip(members));
    if err.Some? {
      return Err(err.value);
    }
    return Ok(archivePath);
  }

  /** Once a prefix of the walk fails, the whole walk fails the same way. */
  lemma {:induction false} ReadMembersStops(d: State, nameOf: (string, string) -> string, entries: seq<(string, string)>, n: nat)
    requires n <= |entries|
    requires ReadMembers(d, nameOf, entries[..n]).1.Some?
    ensures ReadMembers(d, nameOf, entries) == ReadMembers(d, nameOf, entries[..n])
    decreases |entries| - n
  {
    if n < |entries| {
      assert entries[..n + 1][..n] == entries[..n];
      ReadMembersStops(d, nameOf, entries, n + 1);
    } else {
      assert entries[..n] == entries;
    }
  }

  // ---------------------------------------------------------------------------
  // One top-level folder

  /** An addon id usable as a single folder name. */
  predicate PlainName(id: string) {
    id != "" && id != "." && id != ".." && NoSlash(id)
  }

  /** What os.walk(addon_path) yields: roots inside the addon folder whose
      further components are real directory names, and plain file names. */
  predicate WalkedBelow(addonPath: string, root: string, name: string) {
    var sp := NormParts(addonPath);
    var pp := NormParts(root);
    && |sp| <= |pp| && pp[..|sp|] == sp
    && (forall k :: |sp| <= k < |pp| ==> pp[k] != "..")
    && NoSlash(name) && name != "" && name != "." && name != ".."
  }

  /** Every member of a folder archive lies in the folder named after the id. */
  lemma MemberNameFirstSegment(id: string, addonPath: string, root: string, name: string)
    requires PlainName(id) && WalkedBelow(addonPath, root, name)
    ensures FirstSegment(MemberName(id, addonPath, root, name)) == id
  {
    var sp, pp := NormParts(addonPath), NormParts(root);
    var cs := pp[|sp|..];
    var rel := RelPath(root, addonPath);
    NormPartsValid(root);
    RelPathBelow(root, addonPath, rel, sp, pp);
    var q := JoinedMember(id, rel, name, cs);
    var ns := [id] + cs + [name];
    NoUpsInMember(id, cs, name);
    ArcNameOfPlain(q, ns);
    JoinPartsFirstSegment(ns);
  }

  lemma NoUpsInMember(id: string, cs: seq<string>, name: string)
    requires id != ".." && name != ".."
    requires forall k :: 0 <= k < |cs| ==> cs[k] != ".."
    ensures forall k :: 0 <= k < |[id] + cs + [name]| ==> ([id] + cs + [name])[k] != ".."
  {
  }

  /** The relative root of a walked directory: the components below the addon
      folder, as a relative path. */
  lemma RelPathBelow(root: string, addonPath: string, rel: string, sp: seq<string>, pp: seq<string>)
    requires sp == NormParts(addonPath) && pp == NormParts(root) && rel == RelPath(root, addonPath)
    requires |sp| <= |pp| && pp[..|sp|] == sp
    requires forall k :: 0 <= k < |pp| ==> pp[k] != "" && pp[k] != "." && NoSlash(pp[k])
    ensures Parts(rel) == pp[|sp|..] && !IsAbsolute(rel)
  {
    var cs := pp[|sp|..];
    assert pp == sp + cs;
    CommonPrefixOfExtension(sp, cs);
    assert Ups(0) == [];
    assert Ups(|sp| - |sp|) + pp[|sp|..] == cs;
    assert rel == if cs == [] then "." else JoinParts(cs);
    if cs == [] {
      assert Parts(".") == [];
    } else {
      PartsJoinParts(cs);
      JoinPartsHead(cs);
    }
  }

  /** Joining the id, a relative root and a file name gives a relative path
      with exactly those components. */
  lemma JoinedMember(id: string, rel: string, name: string, cs: seq<string>) returns (q: string)
    requires PlainName(id) && NoSlash(name) && name != "" && name != "."
    requires Parts(rel) == cs && !IsAbsolute(rel)
    ensures q == Join(Join(id, rel), name)
    ensures Parts(q) == [id] + cs + [name] && !IsAbsolute(q)
  {
    var relativeRoot := Join(id, rel);
    PartsJoin(id, rel);
    NoSlashLast(id);
    JoinKeepsHead(id, rel);
    q := Join(relativeRoot, name);
    PartsJoin(relativeRoot, name);
    NoSlashLast(name);
    JoinKeepsHead(relativeRoot, name);
  }

  /** A relative path without ".." components is archived under its
      components joined by '/'. */
  lemma ArcNameOfPlain(q: string, ns: seq<string>)
    requires Parts(q) == ns && !IsAbsolute(q) && |ns| > 0
    requires forall k :: 0 <= k < |ns| ==> ns[k] != ".."
    ensures ArcName(q) == JoinParts(ns)
  {
    NormalizeConcat([], ns, false);
    assert [] + ns == ns;
  }

  function MemberNames(members: seq<ZipMember>): (names: seq<string>)
    ensures |names| == |members| && forall k :: 0 <= k < |members| ==> names[k] == members[k].name
  {
    seq(|members|, k requires 0 <= k < |members| => members[k].name)
  }

  /** An archive built from a non-empty addon folder passes the one-folder
      check of the archive fetcher, with the addon id as that folder. */
  lemma FolderArchiveHasOneRoot(d: State, id: string, addonPath: string, entries: seq<(string, string)>)
    requires PlainName(id) && |entries| > 0
    requires forall k :: 0 <= k < |entries| ==> WalkedBelow(addonPath, entries[k].0, entries[k].1)
    requires ReadMembers(d, Namer(id, addonPath), entries).1.None?
    ensures ArchiveRoot(MemberNames(ReadMembers(d, Namer(id, addonPath), entries).0)) == Ok(id)
  {
    var nameOf := Namer(id, addonPath);
    var members := ReadMembers(d, nameOf, entries).0;
    var names := MemberNames(members);
    ReadMembersAll(d, nameOf, entries);
    forall k | 0 <= k < |names|
      ensures FirstSegment(names[k]) == id
    {
      assert names[k] == nameOf(entries[k].0, entries[k].1);
      MemberNameFirstSegment(id, addonPath, entries[k].0, entries[k].1);
    }
    OneRootOf(names, id);
  }

  /** Names that all start with the same folder have that folder as their one root. */
  lemma OneRootOf(names: seq<string>, id: string)
    requires |names| > 0 && forall k :: 0 <= k < |names| ==> FirstSegment(names[k]) == id
    ensures ArchiveRoot(names) == Ok(id)
  {
    assert FirstSegment(names[0]) in ArchiveRoots(names);
    assert ArchiveRoots(names) == {id};
  }

  // ---------------------------------------------------------------------------
  // create_git_archive

  /** The prefix handed to `git archive`: the id followed by a separator. */
  function GitArchivePrefix(id: string): string {
    PosixPath(Join(id, ""), Sep)
  }

  lemma GitArchivePrefixIsFolder(id: string)
    requires PlainName(id)
    ensures GitArchivePrefix(id) == id + "/"
  {
    PosixPathSeparators(Join(id, ""), Sep);
  }

  /** create_git_archive: the folder is made if needed, the archive file is
      created, then `git archive` of the sub-path at HEAD fills it. On success
      the only change to the disk is the target folder and the archive, which
      holds what `git archive` produced. */
  function GitArchiveStep(d: State, lib: Libraries, targetFolder: string, metadata: AddonMetadata,
                          clonePath: string, cloned: map<string, Bytes>): (s: Step<string>)
    ensures s.result.Ok? ==> s.result.value == ArchivePath(targetFolder, metadata)
    ensures s.result.Ok? ==> lib.gitArchive(cloned, "HEAD:" + clonePath, GitArchivePrefix(metadata.id)).Some?
    ensures s.result.Ok? ==> s.disk == State(
      d.files[ArchivePath(targetFolder, metadata) :=
        lib.gitArchive(cloned, "HEAD:" + clonePath, GitArchivePrefix(metadata.id)).value],
      d.dirs + {targetFolder})
    ensures s.result.Ok? <==> (EnsureDirStep(d, targetFolder).result.Ok?
      && ArchivePath(targetFolder, metadata) !in d.dirs + {targetFolder}
      && ParentExists(EnsureDirStep(d, targetFolder).disk, ArchivePath(targetFolder, metadata))
      && lib.gitArchive(cloned, "HEAD:" + clonePath, GitArchivePrefix(metadata.id)).Some?)
  {
    var e := EnsureDirStep(d, targetFolder);
    if e.result.Err? then Step(Err(e.result.error), e.disk)
    else
      var archivePath := ArchivePath(targetFolder, metadata);
      var o := WriteStep(e.disk, archivePath, []);
      if o.result.Err? then Step(Err(o.result.error), o.disk)
      else
        match lib.gitArchive(cloned, "HEAD:" + clonePath, GitArchivePrefix(metadata.id))
        case None => Step(Err(GitCommandFailed("archive")), o.disk)
        case Some(data) => Step(Ok(archivePath), State(o.disk.files[archivePath := data], o.disk.dirs))
  }

  /** create_git_archive on the file system. */
  method CreateGitArchive(fs: FileSystem, lib: Libraries, targetFolder: string, metadata: AddonMetadata,
                          clonePath: string, cloned: map<string, Bytes>) returns (r: Result<string>)
    modifies fs
    ensures r == GitArchiveStep(old(fs.Disk()), lib, targetFolder, metadata, clonePath, cloned).result
    ensures fs.Disk() == GitArchiveStep(old(fs.Disk()), lib, targetFolder, metadata, clonePath, cloned).disk
  {
    var made := fs.EnsureDir(targetFolder);
    if made.Err? {
      return Err(made.error);
    }
    var archivePath := Join(targetFolder, ArchiveBasename(metadata.id, metadata.version));
    var created := fs.Write(archivePath, []);
    if created.Err? {
      return Err(created.error);
    }
    var data := lib.gitArchive(cloned, "HEAD:" + clonePath, PosixPath(Join(metadata.id, ""), Sep));
    if data.None? {
      return Err(GitCommandFailed("archive"));
    }
    var written := fs.Write(archivePath, data.value);
    return Ok(archivePath);
  }
}
