/** create_repository and create: fetch every addon into the output folder,
    collect the workers' results in order, write the `addons` index and its
    checksum. */
module Repository {
  import opened Wrappers
  import opened Paths
  import opened Validate
  import opened Names
  import opened Metadata
  import opened Disk
  import opened Checksum
  import opened Sources
  import opened Fetch

  // ---------------------------------------------------------------------------
  // The workers

  /** The workers, run one after the other in the calling thread
      (`thread.run()`): each fetch starts from the disk the previous one left,
      and reports one result. */
  function RunAll(d: State, lib: Libraries, addonPaths: seq<string>, targetFolder: string)
    : (r: (seq<Result<AddonMetadata>>, State))
    ensures |r.0| == |addonPaths|
    decreases |addonPaths|
  {
    if addonPaths == [] then ([], d)
    else
      var last := |addonPaths| - 1;
      var (results, e) := RunAll(d, lib, addonPaths[..last], targetFolder);
      var s := FetchStep(e, lib, addonPaths[last], targetFolder);
      (results + [s.result], s.disk)
  }

  /** The result slots after the workers ran: one result each. */
  function Slots(results: seq<Result<AddonMetadata>>): (slots: seq<seq<WorkerResult>>)
    ensures |slots| == |results| && forall i :: 0 <= i < |results| ==> slots[i] == [Report(results[i])]
  {
    seq(|results|, i requires 0 <= i < |results| => [Report(results[i])])
  }

  /** The collecting loop: the slots are read in order, and the first one that
      is empty or holds an exception decides the error. */
  function Collect(slots: seq<seq<WorkerResult>>): Result<seq<AddonMetadata>>
    decreases |slots|
  {
    if slots == [] then Ok([])
    else
      match Collect(slots[..|slots| - 1])
      case Err(e) => Err(e)
      case Ok(ms) =>
        var slot := slots[|slots| - 1];
        if slot == [] then Err(WorkerReportedNothing)
        else
          match slot[0]
          case Failed(e) => Err(e)
          case Succeeded(m) => Ok(ms + [m])
  }

  /** When every worker reported exactly one result, collecting succeeds
      exactly when every fetch succeeded, and then lists the metadata in the
      order of the addon paths; otherwise it fails with the error of the
      first fetch that failed, so "did not report result" never happens. */
  lemma CollectReports(results: seq<Result<AddonMetadata>>)
    ensures var c := Collect(Slots(results));
      && (c.Ok? <==> forall i :: 0 <= i < |results| ==> results[i].Ok?)
      && (c.Ok? ==> |c.value| == |results| && forall i :: 0 <= i < |results| ==> c.value[i] == results[i].value)
      && (c.Err? ==> exists i :: 0 <= i < |results| && results[i] == Err(c.error)
                                  && forall j :: 0 <= j < i ==> results[j].Ok?)
  {
    CollectSucceeds(results);
    CollectFirstFailure(results);
  }

  /** Collecting one more reported result: the earlier error, or this one's,
      or the metadata so far with this one's appended. */
  lemma CollectLast(results: seq<Result<AddonMetadata>>)
    requires results != []
    ensures var init := results[..|results| - 1];
      Collect(Slots(results)) ==
        match Collect(Slots(init))
        case Err(e) => Err(e)
        case Ok(ms) =>
          match results[|results| - 1]
          case Err(e) => Err(e)
          case Ok(m) => Ok(ms + [m])
  {
    var last := |results| - 1;
    assert Slots(results)[..last] == Slots(results[..last]);
  }

  lemma {:induction false} CollectSucceeds(results: seq<Result<AddonMetadata>>)
    ensures var c := Collect(Slots(results));
      && (c.Ok? <==> forall i :: 0 <= i < |results| ==> results[i].Ok?)
      && (c.Ok? ==> |c.value| == |results| && forall i :: 0 <= i < |results| ==> c.value[i] == results[i].value)
    decreases |results|
  {
    if results != [] {
      var last := |results| - 1;
      var init := results[..last];
      CollectLast(results);
      CollectSucceeds(init);
      assert forall i :: 0 <= i < last ==> results[i] == init[i];
    }
  }

  lemma {:induction false} CollectFirstFailure(results: seq<Result<AddonMetadata>>)
    ensures var c := Collect(Slots(results));
      c.Err? ==> exists i :: 0 <= i < |results| && results[i] == Err(c.error)
                             && forall j :: 0 <= j < i ==> results[j].Ok?
    decreases |results|
  {
    if results != [] {
      var last := |results| - 1;
      var init := results[..last];
      CollectLast(results);
      var c := Collect(Slots(init));
      if c.Err? {
        CollectFirstFailure(init);
        var i :| 0 <= i < |init| && init[i] == Err(c.error) && forall j :: 0 <= j < i ==> init[j].Ok?;
        assert results[i] == init[i];
        assert forall j :: 0 <= j < i ==> results[j] == init[j];
      } else if results[last].Err? {
        CollectSucceeds(init);
        assert forall j :: 0 <= j < last ==> results[j] == init[j];
        assert Collect(Slots(results)) == Err(results[last].error);
      }
    }
  }

  /** The result slots, as the collecting loop reads them. */
  function Contents(slots: seq<ResultSlot>): (c: seq<seq<WorkerResult>>)
    reads slots
    ensures |c| == |slots| && forall i :: 0 <= i < |slots| ==> c[i] == slots[i].results
  {
    seq(|slots|, i requires 0 <= i < |slots| reads slots => slots[i].results)
  }

  /** The workers of create_repository, one per addon path
      (get_addon_worker): each has a fresh, empty result slot of its own. */
  method AddonWorkers(count: nat) returns (slots: seq<ResultSlot>)
    ensures |slots| == count
    ensures forall j :: 0 <= j < count ==> fresh(slots[j]) && slots[j].results == []
    ensures forall j, k :: 0 <= j < k < count ==> slots[j] != slots[k]
  {
    slots := [];
    for i := 0 to count
      invariant |slots| == i
      invariant forall j :: 0 <= j < i ==> fresh(slots[j]) && slots[j].results == []
      invariant forall j, k :: 0 <= j < k < i ==> slots[j] != slots[k]
    {
      var slot := new ResultSlot();
      slots := slots + [slot];
    }
  }

  /** The workers of create_repository, created first and then run in order:
      each worker's slot receives its fetch's one result. */
  method RunWorkers(fs: FileSystem, lib: Libraries, addonPaths: seq<string>, targetFolder: string)
    returns (slots: seq<ResultSlot>)
    modifies fs
    ensures |slots| == |addonPaths|
    ensures fs.Disk() == RunAll(old(fs.Disk()), lib, addonPaths, targetFolder).1
    ensures Contents(slots) == Slots(RunAll(old(fs.Disk()), lib, addonPaths, targetFolder).0)
  {
    ghost var d0 := fs.Disk();
    ghost var results: seq<Result<AddonMetadata>> := [];
    slots := AddonWorkers(|addonPaths|);
    for i := 0 to |addonPaths|
      invariant forall j, k :: 0 <= j < k < |slots| ==> slots[j] != slots[k]
      invariant forall j :: 0 <= j < |slots| ==> fresh(slots[j])
      invariant (results, fs.Disk()) == RunAll(d0, lib, addonPaths[..i], targetFolder)
      invariant |results| == i
      invariant forall j :: 0 <= j < |slots| ==> slots[j].results == (if j < i then [Report(results[j])] else [])
    {
      results := RunWorker(fs, lib, addonPaths, targetFolder, i, slots[i], d0, results);
    }
    assert addonPaths[..|addonPaths|] == addonPaths;
  }

  /** Worker `i` runs its fetch on the disk the earlier workers left, and its
      slot receives the result. */
  method RunWorker(fs: FileSystem, lib: Libraries, addonPaths: seq<string>, targetFolder: string, i: nat,
                   slot: ResultSlot, ghost d0: State, ghost results: seq<Result<AddonMetadata>>)
    returns (ghost results': seq<Result<AddonMetadata>>)
    requires i < |addonPaths|
    requires (results, fs.Disk()) == RunAll(d0, lib, addonPaths[..i], targetFolder)
    modifies fs, slot
    ensures (results', fs.Disk()) == RunAll(d0, lib, addonPaths[..i + 1], targetFolder)
    ensures |results'| == i + 1 && results'[..i] == results
    ensures slot.results == old(slot.results) + [Report(results'[i])]
  {
    RunAllNext(d0, lib, addonPaths, targetFolder, i);
    ghost var s := FetchStep(fs.Disk(), lib, addonPaths[i], targetFolder);
    FetchAddon(fs, lib, addonPaths[i], targetFolder, slot);
    results' := results + [s.result];
    assert results'[..i] == results;
  }

  /** Running one more worker appends its result and moves the disk on. */
  lemma RunAllNext(d: State, lib: Libraries, addonPaths: seq<string>, targetFolder: string, i: nat)
    requires i < |addonPaths|
    ensures var (results, e) := RunAll(d, lib, addonPaths[..i], targetFolder);
      var s := FetchStep(e, lib, addonPaths[i], targetFolder);
      RunAll(d, lib, addonPaths[..i + 1], targetFolder) == (results + [s.result], s.disk)
  {
    assert addonPaths[..i + 1][..i] == addonPaths[..i];
  }

  /** The collecting loop of create_repository on the result slots. */
  method CollectResults(slots: seq<ResultSlot>) returns (r: Result<seq<AddonMetadata>>)
    ensures r == Collect(Contents(slots))
  {
    var metadata: seq<AddonMetadata> := [];
    for i := 0 to |slots|
      invariant Collect(Contents(slots)[..i]) == Ok(metadata)
    {
      assert Contents(slots)[..i + 1][..i] == Contents(slots)[..i];
      var slot := slots[i].results;
      if slot == [] {
        assert Collect(Contents(slots)[..i + 1]) == Err(WorkerReportedNothing);
        CollectStops(Contents(slots), i + 1);
        return Err(WorkerReportedNothing);
      }
      var result := slot[0];
      if result.Failed? {
        assert Collect(Contents(slots)[..i + 1]) == Err(result.error);
        CollectStops(Contents(slots), i + 1);
        return Err(result.error);
      }
      metadata := metadata + [result.metadata];
    }
    assert Contents(slots)[..|slots|] == Contents(slots);
    return Ok(metadata);
  }

  /** Once the collection of a prefix fails, the whole collection fails the
      same way. */
  lemma {:induction false} CollectStops(slots: seq<seq<WorkerResult>>, n: nat)
    requires n <= |slots| && Collect(slots[..n]).Err?
    ensures Collect(slots) == Collect(slots[..n])
    decreases |slots| - n
  {
    if n < |slots| {
      assert slots[..n + 1][..n] == slots[..n];
      CollectStops(slots, n + 1);
    } else {
      assert slots[..n] == slots;
    }
  }

  // ---------------------------------------------------------------------------
  // The index

  /** The `addons` element with each addon's descriptor root appended, in
      order: a fresh `Element('addons')` has no attributes, text or tail. */
  function AddonsIndex(ms: seq<AddonMetadata>): (root: Element)
    ensures root.tag == "addons" && root.attributes == map[] && root.text.None? && root.tail.None?
    ensures |root.children| == |ms| && forall i :: 0 <= i < |ms| ==> root.children[i] == ms[i].root
    decreases |ms|
  {
    if ms == [] then Element("addons", map[], None, [], None)
    else
      var init := AddonsIndex(ms[..|ms| - 1]);
      Element("addons", map[], None, init.children + [ms[|ms| - 1].root], None)
  }

  /** The index root tells descriptor roots apart element by element, so two
      addons that differ only in the text of their descriptors give
      different index roots. */
  lemma AddonsIndexDistinguishes(ms: seq<AddonMetadata>, ms': seq<AddonMetadata>)
    requires |ms| == |ms'|
    ensures AddonsIndex(ms) == AddonsIndex(ms') <==> forall i :: 0 <= i < |ms| ==> ms[i].root == ms'[i].root
  {
    var r, r' := AddonsIndex(ms), AddonsIndex(ms');
    if forall i :: 0 <= i < |ms| ==> ms[i].root == ms'[i].root {
      assert r.children == r'.children;
    }
  }

  /** The index loop of create_repository: `root.append` for each addon. */
  method BuildIndex(ms: seq<AddonMetadata>) returns (root: Element)
    ensures root == AddonsIndex(ms)
  {
    root := Element("addons", map[], None, [], None);
    for i := 0 to |ms|
      invariant root == AddonsIndex(ms[..i])
    {
      assert ms[..i + 1][..i] == ms[..i];
      root := root.(children := root.children + [ms[i].root]);
    }
    assert ms[..|ms|] == ms;
  }

  /** The bytes of the index file: the XML document, gzipped when compressed. */
  function InfoBytes(lib: Libraries, root: Element, isCompressed: bool): Bytes {
    var xml := lib.writeXml(root);
    if isCompressed then lib.gzip(xml) else xml
  }

  // ---------------------------------------------------------------------------
  // create_repository

  /** create_repository: check GitPython when a URL is among the paths, make
      the output folder, run the workers, collect their metadata, write the
      index and then its checksum (binary exactly when compressed). */
  function CreateRepositoryStep(d: State, lib: Libraries, addonPaths: seq<string>, targetFolder: string,
                                infoPath: string, checksumPath: Option<string>, isCompressed: bool): Step<()>
  {
    match ImportGit(addonPaths, lib.gitInstalled)
    case Err(e) => Fail(e, d)
    case Ok(_) =>
      var made := EnsureDirStep(d, targetFolder);
      if made.result.Err? then made
      else
        var (results, e) := RunAll(made.disk, lib, addonPaths, targetFolder);
        match Collect(Slots(results))
        case Err(err) => Fail(err, e)
        case Ok(ms) => PublishIndexStep(e, lib, ms, infoPath, checksumPath, isCompressed)
  }

  /** Write the index of the collected metadata and its checksum. */
  function PublishIndexStep(d: State, lib: Libraries, ms: seq<AddonMetadata>, infoPath: string,
                            checksumPath: Option<string>, isCompressed: bool): Step<()>
  {
    var w := WriteStep(d, infoPath, InfoBytes(lib, AddonsIndex(ms), isCompressed));
    if w.result.Err? then w
    else ChecksumStep(w.disk, lib, infoPath, isCompressed, checksumPath)
  }

  /** After a successful publication the index file holds the index and the
      checksum file holds the index's digest, naming the index relative to
      the checksum's folder. */
  lemma PublishIndexResult(d: State, lib: Libraries, ms: seq<AddonMetadata>, infoPath: string,
                           checksumPath: Option<string>, isCompressed: bool)
    requires ChecksumPath(infoPath, checksumPath) != infoPath
    requires PublishIndexStep(d, lib, ms, infoPath, checksumPath, isCompressed).result.Ok?
    ensures var e := PublishIndexStep(d, lib, ms, infoPath, checksumPath, isCompressed).disk;
      var cp := ChecksumPath(infoPath, checksumPath);
      && infoPath in e.files && e.files[infoPath] == InfoBytes(lib, AddonsIndex(ms), isCompressed)
      && cp in e.files
      && e.files[cp] == lib.encodeText(ChecksumLine(lib.md5(InfoBytes(lib, AddonsIndex(ms), isCompressed)),
                                                    isCompressed, RelPath(infoPath, Dirname(cp))))
  {
    var bytes := InfoBytes(lib, AddonsIndex(ms), isCompressed);
    var w := WriteStep(d, infoPath, bytes);
    ChecksumWritten(w.disk, lib, infoPath, isCompressed, checksumPath, bytes);
  }

  /** A repository that is created lists every addon, in the order of the
      addon paths, after every fetch succeeded; one that is not fails with
      the first failing fetch's error or earlier, and a missing GitPython is
      reported before anything is written. */
  lemma CreateRepositoryResult(d: State, lib: Libraries, addonPaths: seq<string>, targetFolder: string,
                               infoPath: string, checksumPath: Option<string>, isCompressed: bool)
    requires ChecksumPath(infoPath, checksumPath) != infoPath
    ensures var s := CreateRepositoryStep(d, lib, addonPaths, targetFolder, infoPath, checksumPath, isCompressed);
      s.result.Ok? ==>
        var made := EnsureDirStep(d, targetFolder).disk;
        var results := RunAll(made, lib, addonPaths, targetFolder).0;
        && (forall i :: 0 <= i < |addonPaths| ==> results[i].Ok?)
        && infoPath in s.disk.files
        && s.disk.files[infoPath] == InfoBytes(lib, AddonsIndex(seq(|results|, i requires 0 <= i < |results| && results[i].Ok? => results[i].value)), isCompressed)
    ensures (exists i :: 0 <= i < |addonPaths| && IsUrl(addonPaths[i])) && !lib.gitInstalled ==>
      CreateRepositoryStep(d, lib, addonPaths, targetFolder, infoPath, checksumPath, isCompressed)
        == Step(Err(GitPythonMissing), d)
  {
    var s := CreateRepositoryStep(d, lib, addonPaths, targetFolder, infoPath, checksumPath, isCompressed);
    if s.result.Ok? {
      var made := EnsureDirStep(d, targetFolder).disk;
      var (results, e) := RunAll(made, lib, addonPaths, targetFolder);
      CollectReports(results);
      var ms := Collect(Slots(results)).value;
      assert ms == seq(|results|, i requires 0 <= i < |results| && results[i].Ok? => results[i].value);
      PublishIndexResult(e, lib, ms, infoPath, checksumPath, isCompressed);
    }
  }

  /** How create_repository fails: a missing GitPython or an output folder
      that cannot be made stops it before any fetch; once the workers ran, a
      failed fetch stops it with the error of the first addon path whose fetch
      failed, leaving the disk the workers left and writing no index. */
  lemma CreateRepositoryFailure(d: State, lib: Libraries, addonPaths: seq<string>, targetFolder: string,
                                infoPath: string, checksumPath: Option<string>, isCompressed: bool)
    ensures var s := CreateRepositoryStep(d, lib, addonPaths, targetFolder, infoPath, checksumPath, isCompressed);
      ImportGit(addonPaths, lib.gitInstalled).Err? ==>
        s == Step(Err(ImportGit(addonPaths, lib.gitInstalled).error), d)
    ensures var s := CreateRepositoryStep(d, lib, addonPaths, targetFolder, infoPath, checksumPath, isCompressed);
      ImportGit(addonPaths, lib.gitInstalled).Ok? && EnsureDirStep(d, targetFolder).result.Err? ==>
        s == Step(Err(OSError(targetFolder)), d)
    ensures var s := CreateRepositoryStep(d, lib, addonPaths, targetFolder, infoPath, checksumPath, isCompressed);
      var run := RunAll(EnsureDirStep(d, targetFolder).disk, lib, addonPaths, targetFolder);
      ImportGit(addonPaths, lib.gitInstalled).Ok? && EnsureDirStep(d, targetFolder).result.Ok?
      && (exists i :: 0 <= i < |run.0| && run.0[i].Err?) ==>
        exists i :: 0 <= i < |run.0| && run.0[i].Err? && (forall j :: 0 <= j < i ==> run.0[j].Ok?)
                    && s == Step(Err(run.0[i].error), run.1)
  {
    var made := EnsureDirStep(d, targetFolder);
    if ImportGit(addonPaths, lib.gitInstalled).Ok? && made.result.Ok? {
      var (results, e) := RunAll(made.disk, lib, addonPaths, targetFolder);
      CollectReports(results);
    }
  }

  /** create_repository on the file system. */
  method CreateRepository(fs: FileSystem, lib: Libraries, addonPaths: seq<string>, targetFolder: string,
                          infoPath: string, checksumPath: Option<string>, isCompressed: bool)
    returns (r: Result<()>)
    modifies fs
    ensures r == CreateRepositoryStep(old(fs.Disk()), lib, addonPaths, targetFolder, infoPath, checksumPath, isCompressed).result
    ensures fs.Disk() == CreateRepositoryStep(old(fs.Disk()), lib, addonPaths, targetFolder, infoPath, checksumPath, isCompressed).disk
  {
    var imported := ImportGit(addonPaths, lib.gitInstalled);
    if imported.Err? {
      return Err(imported.error);
    }
    r := fs.EnsureDir(targetFolder);
    if r.Err? {
      return;
    }
    var workers := RunWorkers(fs, lib, addonPaths, targetFolder);
    var metadata := CollectResults(workers);
    if metadata.Err? {
      return Err(metadata.error);
    }
    var root := BuildIndex(metadata.value);
    r := fs.Write(infoPath, InfoBytes(lib, root, isCompressed));
    if r.Err? {
      return;
    }
    r := GenerateChecksum(fs, lib, infoPath, isCompressed, checksumPath);
  }

  // ---------------------------------------------------------------------------
  // create

  /** create: the index is `addons.xml` (or `addons.xml.gz`) in the output
      folder, and its checksum is that name plus `.md5`. */
  function CreateStep(d: State, lib: Libraries, outputFolder: string, addonPaths: seq<string>, isCompressed: bool)
    : Step<()>
  {
    var infoPath := InfoPath(outputFolder, isCompressed, true);
    CreateRepositoryStep(d, lib, addonPaths, outputFolder, infoPath, Some(infoPath + ".md5"), isCompressed)
  }

  /** After create succeeds, the checksum file beside the index names the
      index by its bare file name, so the pair stays valid wherever the
      output folder is served from. */
  lemma CreateResult(d: State, lib: Libraries, outputFolder: string, addonPaths: seq<string>, isCompressed: bool)
    requires CreateStep(d, lib, outputFolder, addonPaths, isCompressed).result.Ok?
    ensures var infoPath := InfoPath(outputFolder, isCompressed, true);
      var e := CreateStep(d, lib, outputFolder, addonPaths, isCompressed).disk;
      && infoPath in e.files && infoPath + ".md5" in e.files
      && e.files[infoPath + ".md5"]
         == lib.encodeText(ChecksumLine(lib.md5(e.files[infoPath]), isCompressed, Basename(infoPath)))
  {
    var infoPath := InfoPath(outputFolder, isCompressed, true);
    IndexChecksumNamesBasename(outputFolder, isCompressed);
    CreatePublished(d, lib, outputFolder, addonPaths, isCompressed, infoPath, Basename(infoPath));
  }

  /** The index's name relative to its checksum's folder is its bare name. */
  lemma IndexChecksumNamesBasename(outputFolder: string, isCompressed: bool)
    ensures var infoPath := InfoPath(outputFolder, isCompressed, true);
      RelPath(infoPath, Dirname(infoPath + ".md5")) == Basename(infoPath)
  {
    var infoPath := InfoPath(outputFolder, isCompressed, true);
    InfoPathNames(outputFolder, isCompressed, true);
    Md5SuffixNoSlash();
    RelPathToSibling(infoPath, ".md5");
  }

  lemma CreatePublished(d: State, lib: Libraries, outputFolder: string, addonPaths: seq<string>, isCompressed: bool,
                        infoPath: string, rel: string)
    requires infoPath == InfoPath(outputFolder, isCompressed, true)
    requires rel == RelPath(infoPath, Dirname(infoPath + ".md5"))
    requires CreateStep(d, lib, outputFolder, addonPaths, isCompressed).result.Ok?
    ensures var e := CreateStep(d, lib, outputFolder, addonPaths, isCompressed).disk;
      && infoPath in e.files && infoPath + ".md5" in e.files
      && e.files[infoPath + ".md5"] == lib.encodeText(ChecksumLine(lib.md5(e.files[infoPath]), isCompressed, rel))
  {
    var cp := infoPath + ".md5";
    assert |cp| != |infoPath|;
    var made := EnsureDirStep(d, outputFolder);
    var (results, e) := RunAll(made.disk, lib, addonPaths, outputFolder);
    var ms := Collect(Slots(results)).value;
    PublishIndexResult(e, lib, ms, infoPath, Some(cp), isCompressed);
  }

  /** create on the file system. */
  method Create(fs: FileSystem, lib: Libraries, outputFolder: string, addonPaths: seq<string>, isCompressed: bool)
    returns (r: Result<()>)
    modifies fs
    ensures r == CreateStep(old(fs.Disk()), lib, outputFolder, addonPaths, isCompressed).result
    ensures fs.Disk() == CreateStep(old(fs.Disk()), lib, outputFolder, addonPaths, isCompressed).disk
  {
    var infoPath := InfoPath(outputFolder, isCompressed, true);
    var checksumPath := infoPath + ".md5";
    r := CreateRepository(fs, lib, addonPaths, outputFolder, infoPath, Some(checksumPath), isCompressed);
  }
}
