# Kodi addon repository builder, modelled in Dafny

`KodiRepository` (in `create_repository.py`) builds a Kodi addon repository
from a list of addon sources. Each source can be:

- a git URL, written `url[#branch][:subpath]`;
- an addon folder;
- an addon zip archive.

For every source, the builder reads the addon descriptor `addon.xml` and
checks the addon id and version. It writes `<id>-<version>.zip` with an md5
checksum file beside it into `<output>/<id>`, and copies the side files
(`addon.xml`, `icon.png`, `fanart.jpg`, `LICENSE.txt` and a versioned
changelog). The workers report one result each. They are collected in the
order of the sources: the first failure aborts the build, and otherwise the
descriptor roots become the children of an `addons` index. The index is
written to `addons.xml` (or `addons.xml.gz`), with its own checksum.

The model has these layers:

- **Pure helpers.** The validators, name builders, source-string split and
  root check are Dafny functions and predicates (modules `Validate`,
  `Names`, `Sources`, `Paths`, `Metadata`).
- **Step functions.** Every operation that touches the disk is specified by
  a pure step function, `...Step(d, ...)`. It returns the result (`Ok` or
  the exception raised) and the disk left behind. The disk is a
  `State(files, dirs)` (module `Disk`).
- **Imperative methods.** The source's step-by-step code is modelled as
  methods on the mutable `Disk.FileSystem` class, each proved equal to its
  step function. This covers the chunk loop of `generate_checksum`, the
  copy, walk and extraction loops, and `fetch_addon` appending to its
  result slot (`Fetch.ResultSlot`). It also covers the worker and
  collection loops of `create_repository`.
- **Lemmas.** These say what the step functions mean: checksum files match
  their archives, side files hold their sources' contents, and results are
  collected in order and fail at the first failure.
- **Libraries.** hashlib, ElementTree, gzip, zipfile, `os.walk`,
  `os.path.samefile`, tempfile and GitPython are total functions in a
  `Disk.Libraries` value passed as a parameter. The model states where their
  results go, not how they are computed.

## Model

| member | source | states |
|---|---|---|
| Validate.IsUrlIffUrlShaped | create_repository.py:57-59 | `is_url` holds exactly when the path begins with a non-empty run of `[A-Za-z0-9+.-]`, then `://`, then one more non-newline character. |
| Validate.ValidIdFirstCharacterOnly | create_repository.py:65-70 | `validate_id` refuses None and accepts "". Otherwise it accepts exactly when the first character is in `[a-z0-9._-]`, whatever follows. |
| Validate.ValidIdWeakerThanDocumented | create_repository.py:65-70 | Every id of the documented form `[a-z0-9._-]+` passes. Ids the documented form refuses also pass, for example `"a B/c"` and `""`. |
| Validate.ValidVersionSound | create_repository.py:72-77 | Every accepted version has the shape MAJOR.MINOR.PATCH (each `0` or without a leading zero), then an optional `-`/`~` pre-release, then an optional `+` build suffix. |
| Validate.ValidVersionComplete | create_repository.py:72-77 | Every string of that shape is accepted, so the scan and the pattern agree in both directions. |
| Validate.ValidVersionAccepts | create_repository.py:72-77 | None is refused and `1.0.0` is accepted. |
| Validate.ValidVersionAcceptsPreRelease | create_repository.py:72-77 | `2.1.0-beta` is accepted. |
| Validate.ValidVersionRejectsShort | create_repository.py:72-77 | `1.0` is refused. |
| Validate.ValidVersionRejectsFourParts | create_repository.py:72-77 | `1.0.0.0` is refused. |
| Validate.ValidVersionRejectsLeadingZero | create_repository.py:72-77 | `01.0.0` is refused. |
| Validate.ValidVersionHasNoSlash | create_repository.py:72-77 | No accepted version contains `/`, so the versioned changelog name stays inside the addon folder. |
| Metadata.ParseMetadata | create_repository.py:79-99 | An unreadable file gives "cannot open" with the path. A malformed file gives the parser's error. Then the id is checked before the version, and the first invalid one is reported with its value. The result is Ok exactly when both are valid, and it then carries the descriptor's id, version and whole tree. |
| Metadata.ParsedMetadataIsValid | create_repository.py:79-99 | Parsed metadata has an id that is empty or starts with an id character, and a version of the documented shape. |
| Names.ArchiveBasename | create_repository.py:46-48 | The archive name is the id, `-`, the version and `.zip`, all verbatim. |
| Names.ArchiveVersionRoundTrip | create_repository.py:46-48 | For a known id, the version is read back from the archive name, and only the name built from that version reads back to it. |
| Names.MetadataBasenames | create_repository.py:39-55 | There are exactly five pairs in order: the four side files under their own names, then `changelog.txt` to `changelog-<version>.txt`. |
| Names.MetadataTargetsDistinct | create_repository.py:39-55 | No two pairs share a source or a target name. |
| Names.InfoPathNames | create_repository.py:343-348 | The file name of `get_info_path` is `addons.xml.gz`, `addons.xml`, `addon.xml.gz` or `addon.xml`, one for each combination of the two flags. |
| Paths.PosixPath | create_repository.py:61-63 | Each character equal to the host separator becomes `/`, and every other character is kept. |
| Paths.PosixPathSeparators | create_repository.py:61-63 | With a separator other than `/`, none is left afterwards. With `/` as the separator, the path is unchanged. |
| Paths.ResolvedThroughDot | create_repository.py:165-174 | The `./` that `os.path.join('.', '')` puts into the descriptor path disappears on lookup: below a folder without a trailing `/`, `<folder>/./<name>` is looked up as `<folder>/<name>`. |
| Sources.SplitGitSource | create_repository.py:163-164 | The three groups put back together give the source string, and the repository group is the shortest that the lazy `.*?` allows after the optional scheme. |
| Sources.SplitUrlSource | create_repository.py:163-166 | Take `scheme://host`, an optional `#branch` and an optional `:subpath`. Assume the host has no `:` or `#`, the branch has no `#` or `:`, and the subpath has no `:`. Then the source splits back into exactly those parts: no branch means none, and a subpath is the clone path. |
| Sources.DefaultClonePath | create_repository.py:165-166 | Without a `:subpath` the clone path is `./`. |
| Sources.ArchiveRoot | create_repository.py:219-225 | The root check succeeds exactly when the members' first path components form a one-element set. That element is then the root, and every member lies under it. Otherwise it is an error. The source raises the fixed message 'Archive should contain one directory'; the root count that `ArchiveRootCount` attaches to the error is the model's addition. |
| Sources.ArchiveRootRefusals | create_repository.py:219-224 | An empty archive is refused (zero roots), and so is any archive with two different top-level folders. |
| Sources.AnyUrl | create_repository.py:284 | The result holds exactly when some path is a URL. |
| Sources.ImportGit | create_repository.py:281-290 | The result is an error exactly when some path is a URL and GitPython is missing. GitPython is imported exactly when some path is a URL. |
| Disk.MkdirStep | create_repository.py:303-304 | `os.mkdir` succeeds exactly when the path is not empty, is free and its parent exists. It then adds the directory and nothing else. |
| Disk.EnsureDirStep | create_repository.py:303-304 | `if not isdir: mkdir` succeeds exactly when the path is already a directory or can be made (so never for the empty path). Afterwards it is a directory and no file changed. |
| Disk.WriteStep | create_repository.py:330-332 | Writing succeeds exactly when the path is not empty, no directory is in the way and the parent exists. It then changes only that file. |
| Disk.CopyStep | create_repository.py:123 | `shutil.copyfile` succeeds exactly when the paths differ, the source is a file and the target can be written. The target then holds the source's bytes, and a failure changes nothing. |
| Disk.SameFileResult | create_repository.py:210 | `os.path.samefile` answers only when both paths exist (the empty path never does), and otherwise fails naming the first missing path. |
| Disk.RemoveTree | create_repository.py:184-187 | `rmtree` removes exactly the folder and what lies below it, and keeps every other file's contents. |
| Disk.FileSystem.Read | create_repository.py:108 | Reading succeeds exactly for a regular file and returns its contents. Otherwise it raises an error naming the path. |
| Checksum.ChecksumLine | create_repository.py:113-116 | The line is 32 digest characters, a space, `*` for binary or a space for text, the relative path, and a newline. |
| Checksum.ParseChecksumLineOfLine | create_repository.py:113-116 | A written line reads back as the digest, flag and path written into it. |
| Checksum.ChecksumLineOfParse | create_repository.py:113-116 | Every well-formed line is the rendering of what it reads back as. |
| Checksum.ChecksumStep | create_repository.py:102-116 | The checksum path defaults to the file's path plus `.md5`. The step succeeds exactly when the file exists and the checksum file can be written. Then only the checksum file changes, and it holds the line for the md5 of the file's contents and the path relative to the checksum's folder. |
| Checksum.ChecksumWritten | create_repository.py:102-116 | After a checksum is written, the checksummed file is unchanged and the checksum file holds the digest of its contents. |
| Checksum.DefaultChecksumNamesBasename | create_repository.py:103-105 | With the default checksum path, the line names the file by its bare file name, and the line parses back to digest, flag and that name. |
| Checksum.Reader.Read | create_repository.py:109 | `read(n)` returns the next at most n bytes and moves past them, returning b'' at the end. |
| Checksum.FileDigest | create_repository.py:107-111 | Feeding the 4096-byte chunks until b'' digests exactly the whole file: the digest is md5 of all its bytes. |
| Checksum.GenerateChecksum | create_repository.py:101-116 | `generate_checksum` on the file system gives exactly the result and disk of `ChecksumStep`. |
| Archive.CopyPairsEffect | create_repository.py:119-123 | Suppose no copy reads a file another writes and the targets are distinct. Then the copy loop succeeds exactly when every existing source's target can be written. Each target then holds its source's contents, and nothing else changes. |
| Archive.CopyPairsFrame | create_repository.py:119-123 | A path that no copy targets keeps its contents. |
| Archive.CopyMetadataEffect | create_repository.py:118-123 | Between two different folders, every side file present lands under its target name with the same contents. The copy fails only when a target cannot be written, and nothing else changes. |
| Archive.NotAMetadataSource | create_repository.py:119-123 | An archive (ending in `p`) or checksum (ending in `5`) is never one of the side files the copy reads. |
| Archive.CopyMetadataFiles | create_repository.py:118-123 | The copy loop on the file system gives exactly the result and disk of the copy step. |
| Archive.ReadMembers | create_repository.py:149-156 | The walk succeeds exactly when every walked file is readable, and then yields one member per walked file. |
| Archive.ReadMembersAll | create_repository.py:149-156 | After a successful walk, member k is walked file k, stored under its member name with that file's contents, in walk order. |
| Archive.ReadWalk | create_repository.py:149-156 | The walk loop on the file system yields exactly the walk's members, or stops at the first unreadable file. |
| Archive.FolderArchiveStep | create_repository.py:141-158 | A successful folder archive returns `<folder>/<id>-<version>.zip`. It succeeds exactly when the folder can be made, the archive created and every walked file read. Then the folder exists and the only file changed is the archive, which holds the zip of the walked members. |
| Archive.CreateFolderArchive | create_repository.py:141-158 | `create_folder_archive` on the file system gives exactly the result and disk of `FolderArchiveStep`. |
| Archive.MemberNameFirstSegment | create_repository.py:150-156 | Every member name of a folder archive starts with the addon id as its first component. |
| Archive.FolderArchiveHasOneRoot | create_repository.py:141-158 | An archive built from a non-empty addon folder passes the one-root check of the archive fetcher, with the addon id as the root, when the id is one plain path component (not empty, `.` or `..`, and without `/`). |
| Archive.GitArchivePrefixIsFolder | create_repository.py:136 | The prefix given to `git archive` is the id followed by `/`. |
| Archive.GitArchiveStep | create_repository.py:125-139 | A successful git archive returns `<folder>/<id>-<version>.zip`. It succeeds exactly when the folder can be made, the archive created and `git archive` of `HEAD:<sub-path>` with prefix `<id>/` succeeds. Then the folder exists and the only file changed is the archive, which holds that output. |
| Archive.CreateGitArchive | create_repository.py:125-139 | `create_git_archive` on the file system gives exactly the result and disk of `GitArchiveStep`. |
| Fetch.ParseFileMeaning | create_repository.py:80-99 | Parsing a descriptor on disk succeeds exactly when the file exists under the spelling its path resolves to, is well-formed and has a valid id and version. A missing file is reported as unopenable, under the path as given. |
| Fetch.DefaultGitDescriptor | create_repository.py:165-175 | With no sub-path in the source, parsing `<clone>/./addon.xml` reads the clone's top-level `<clone>/addon.xml`, the file the side-file copy starts from. |
| Fetch.ParseMetadataFile | create_repository.py:80-99 | Parsing on the file system gives the result of `ParseMetadata` on what the file holds. |
| Fetch.ChecksumStepHolds | create_repository.py:102-116 | A successful default checksum leaves a checksum file that matches the file's current contents. |
| Fetch.CopyKeepsChecksum | create_repository.py:119-123 | Copying the side files never touches an archive or its checksum. |
| Fetch.FinishFolderResult | create_repository.py:208-211 | After the archive is written, the checksum matches it and the archive is unchanged. With `samefile` true only the checksum file changes; otherwise the side files are copied and only their targets change besides. |
| Fetch.PublishFolderResult | create_repository.py:206-211 | Archive, checksum and side-file copy together: the archive holds the zip of the walked members, and the rest is as in `FinishFolderResult`, stated on the disk before the archive. |
| Fetch.FolderFetchResult | create_repository.py:199-213 | A successful folder fetch reports the metadata of the folder's `addon.xml`. In `<target>/<id>`, which now exists, the archive holds the zip of the walked members and its checksum file matches it. If `samefile` says the addon folder is that folder, no other file changes. Otherwise each side file the addon has is copied in, and only those targets change besides. |
| Fetch.FetchAddonFromFolder | create_repository.py:199-213 | `fetch_addon_from_folder` on the file system gives exactly the result and disk of `FolderFetchStep`. |
| Fetch.SourceFolder | create_repository.py:173 | Joining the absolute clone folder to itself gives the clone folder back. |
| Fetch.FinishGitResult | create_repository.py:179-180 | After the archive is written, the checksum matches it, the archive is unchanged, and the side files of the clone's top folder are copied in with only their targets changing besides. |
| Fetch.PublishGitResult | create_repository.py:178-180 | Archive, checksum and side-file copy together: the archive holds `git archive`'s output, and the rest is as in `FinishGitResult`. |
| Fetch.GitFetchStep | create_repository.py:160-187 | Whether the fetch succeeds or fails, nothing is left in or under the temporary clone folder. |
| Fetch.GitFetchResult | create_repository.py:160-187 | A successful git fetch cloned and checked out, and reports the metadata of `<clone>/<sub-path>/addon.xml`, looked up under its resolved spelling. Outside the removed clone folder, the archive holds `git archive`'s output, its checksum file matches it, and each side file of the clone's top folder is copied in. |
| Fetch.CloneAndFetchResult | create_repository.py:169-182 | When the try block succeeds, the metadata is that of `<clone>/<sub-path>/addon.xml` on the cloned disk, looked up under its resolved spelling (for the default `./` sub-path, `<clone>/addon.xml`, by `Fetch.DefaultGitDescriptor`). The archive holds `git archive`'s output and its checksum matches. Each side file of the clone's top folder is copied in, and only those targets, the archive and the checksum change. |
| Fetch.FetchAddonFromGit | create_repository.py:160-187 | `fetch_addon_from_git` on the file system gives exactly the result and disk of `GitFetchStep`. |
| Fetch.CloneAndFetch | create_repository.py:169-182 | The try block on the file system gives exactly the result and disk of `CloneAndFetchStep`. |
| Fetch.Lookup | create_repository.py:227-237 | `archive.open` finds nothing (KeyError) exactly when no member has the name. |
| Fetch.LookupFindsLast | create_repository.py:234-237 | When a name repeats, the last member stored under it is opened. |
| Fetch.ExtractPairsEffect | create_repository.py:233-241 | The extraction loop succeeds exactly when every side file the archive holds can be written. Each one is then on disk with the archived bytes. |
| Fetch.ExtractPairsFrame | create_repository.py:233-241 | Extraction changes no directory and no file it does not target. |
| Fetch.ArchiveMetadataDescriptor | create_repository.py:219-228 | The archive's metadata comes from a `<root>/addon.xml` member that `parse_metadata` accepts. |
| Fetch.ArchiveMetadataRoot | create_repository.py:219-225 | Every member lies under the root the metadata was read from. |
| Fetch.ExtractResult | create_repository.py:231-248 | After a successful extraction and copy, every side file the archive holds is in the addon's folder, which now exists. When the archive is copied, the repository's archive holds the given archive's bytes. When `samefile` and the name say it is already in place, the file there is kept. |
| Fetch.CopyKeepsExtracted | create_repository.py:243-248 | Copying the archive into the folder keeps the extracted side files. |
| Fetch.ExtractRefusesBareName | create_repository.py:245-247 | An archive given by a bare file name has an empty dirname. `samefile` cannot stat it, so the extraction always fails. |
| Fetch.ZipFetchAsWritten | create_repository.py:250-252 | As written, the zip fetch never succeeds: once the import succeeds, it fails with the undefined attribute `get_checksum_path`. |
| Fetch.ZipFetchResult | create_repository.py:216-254 | The corrected zip fetch, on success, reports the metadata of the archive's descriptor. It leaves the side files extracted and the archive with a matching checksum file. The archive holds the given archive's bytes when it was copied, and is the file already in place when it was not. |
| Fetch.ZipImportResult | create_repository.py:216-248 | After the archive part succeeds, the metadata is the archive's, the side files are extracted, and the archive is copied or kept as in `ExtractResult`. |
| Fetch.ZipChecksumKeepsExtracted | create_repository.py:243-252 | Writing the archive's checksum keeps the extracted side files and leaves a matching checksum. |
| Fetch.ZipFetchRefusesBareName | create_repository.py:245-247 | A bare archive file name fails both as written and as corrected. |
| Fetch.ExtractSideFiles | create_repository.py:233-241 | The extraction loop on the file system gives exactly the result and disk of `ExtractPairsStep`. |
| Fetch.Extract | create_repository.py:231-248 | Making the folder, extracting and copying on the file system give exactly the result and disk of `ExtractStep`. |
| Fetch.FetchAddonFromZip | create_repository.py:216-254 | The corrected `fetch_addon_from_zip` on the file system gives exactly the result and disk of `ZipFetchStep`. |
| Fetch.Report | create_repository.py:271-273 | A worker result holds the metadata exactly when the fetch succeeded, and the exception otherwise. |
| Fetch.FetchResult | create_repository.py:257-273 | Any successful fetch leaves an archive with a matching checksum; for a git source, when the archive lies outside the temporary clone. A path that is not a URL, a directory or a file gives "Path not found" and changes nothing. |
| Fetch.ResultSlot.Append | create_repository.py:271 | Appending adds the one result at the end of the slot. |
| Fetch.FetchAddon | create_repository.py:256-273 | The source is tried as URL, then directory, then file. Exactly one result, the fetch's, is appended to the slot, and the disk is the fetch's. |
| Repository.RunAll | create_repository.py:306-311 | Running the workers in order gives one result per source. |
| Repository.CollectReports | create_repository.py:313-321 | Collecting succeeds exactly when every fetch succeeded, and then lists the metadata in source order. Otherwise it raises the error of the first failing fetch by position. |
| Repository.CollectStops | create_repository.py:313-321 | Once a prefix of the slots fails, the whole collection fails the same way, so nothing later is collected. |
| Repository.CollectResults | create_repository.py:313-321 | The collection loop on the result slots gives exactly `Collect` of their contents. |
| Repository.AddonWorkers | create_repository.py:306-308 | One worker per source, each with a fresh, empty result slot of its own. |
| Repository.RunWorkers | create_repository.py:306-311 | After the workers ran, the slots hold one result per source, in source order, and the disk is what the fetches left. |
| Repository.AddonsIndex | create_repository.py:323-325 | The index root is `addons` with no attributes, text or tail, and child i is the descriptor root of addon i, text and tails included. |
| Repository.AddonsIndexDistinguishes | create_repository.py:323-325 | Two index roots over the same number of addons are equal exactly when the descriptor roots are equal one by one, so descriptors that differ only in their text give different index roots. |
| Repository.BuildIndex | create_repository.py:323-325 | The append loop builds exactly that index. |
| Repository.PublishIndexResult | create_repository.py:326-334 | After publishing, the index file holds the (possibly gzipped) XML of the index. The checksum file holds its digest, binary exactly when compressed, naming the index relative to the checksum's folder. |
| Repository.CreateRepositoryResult | create_repository.py:293-334 | A created repository had every fetch succeed, and its index lists every addon in source order. A URL among the sources without GitPython fails before anything is written. |
| Repository.CreateRepositoryFailure | create_repository.py:301-321 | A missing GitPython fails with no change. An output folder that cannot be made fails with OSError and no change. After the workers ran, if any fetch failed, the build fails with the error of the first failed fetch by position, on the disk the workers left. |
| Repository.CreateRepository | create_repository.py:293-334 | `create_repository` on the file system gives exactly the result and disk of `CreateRepositoryStep`. |
| Repository.IndexChecksumNamesBasename | create_repository.py:339-340 | The checksum of `addons.xml[.gz]` names it by its bare file name. |
| Repository.CreateResult | create_repository.py:336-341 | After `create`, `addons.xml[.gz].md5` holds the index's digest and names the index by its bare file name. |
| Repository.Create | create_repository.py:336-341 | `create` on the file system gives exactly the result and disk of `CreateStep`. |

## Left out

- Validate.ValidId: follows the code rather than the documented `[a-z0-9._-]+`. Only the first character is checked and the empty string is accepted (see `ValidIdWeakerThanDocumented`).
- Validate.IsUrl, Validate.ValidVersion, Sources.SplitGitSource: newline subtleties of the regular expressions are not modelled beyond `.` refusing `\n` in `IsUrl`. `$` also matches before a final `\n`, so for `https://h/r.git\n` Python's repository group drops the newline. A `\n` inside the repository part makes `re.match` return None at line 163, and line 164 then raises AttributeError. `SplitGitSource` instead splits every string and keeps every character.
- Validate.ValidVersion: `\d` is taken as the ASCII digits 0-9, as in Python 2's `re` on byte strings. Python 3's `\d` on `str` also accepts other Unicode decimal digits, which the model refuses.
- Disk.MkdirStep, Disk.EnsureDirStep, Disk.IsDir, Disk.CopyStep: paths are compared by their spelling, not resolved. Only the descriptor read of `parse_metadata` (`Fetch.ParsedFile`) looks its path up under the resolved spelling `Paths.Resolved`, which is what makes the default `./` git sub-path find `<clone>/addon.xml`. `out/` and `out`, `./myaddon` and `myaddon`, and `a//b` and `a/b` are different keys. So `mkdir('out/')` is refused as having no parent `out`, a folder spelled with a trailing `/` or a `./` prefix is not found as a directory, and `shutil.copyfile`'s SameFileError is raised only for two equal strings. The model is faithful when every path is given in one canonical spelling (no trailing `/`, no `.` components, no repeated `/`).
- Fetch.FolderFetchResult, Fetch.ExtractResult, Fetch.ZipFetchResult: `os.path.samefile` is an unconstrained parameter. The model does not tie it to the path strings, so the samefile-true branches of the folder and zip fetchers say what happens then, not when it happens.
- Repository.InfoBytes, Archive.FolderArchiveStep: `gzip.open` stores the current time and the file name in the gzip header, and `ZipFile.write` stores each file's modification time and mode. These inputs are not parameters of `gzip` and `zip`, so the model treats both outputs as depending on the contents only.
- Disk.ReadResult: a disk is taken to hold no file under the empty path. The model never creates one, since every write refuses the empty path.
- Fetch.FetchResult: for git sources the matching checksum is stated only when the archive and its checksum lie outside the temporary clone folder, which is removed afterwards.
- Fetch.GitFetchResult: what is published is stated only for paths outside the temporary clone folder, which is removed afterwards.
- Fetch.FolderFetchResult, Fetch.GitFetchResult, Fetch.CloneAndFetchResult: the side-file copy is stated when the source folder and `<target>/<id>` have different path components. With equal components the two spellings name one folder, which the string-keyed disk cannot express.
- Archive.FolderArchiveStep, Fetch.FolderFetchResult: the walk reads every member from the disk in which the archive has just been created empty. When the addon folder is `<target>/<id>` itself (a repository rebuilt in place), `os.walk` also lists the archive being written, and `ZipFile.write` stores whatever part of it has been flushed by then. The model stores that member as empty; how much has been flushed is not modelled.
- Fetch.ExtractResult, Fetch.ZipFetchResult: the archive's bytes after a copy are stated when the given archive is not itself one of the side-file targets in `<target>/<id>`. Such an archive is overwritten by the extraction before it is copied.
- Paths.RelPath: works on path components of the two strings, without `os.getcwd`. A start folder with `..` components relative to the current directory is not resolved.
- `os.path.expanduser` (lines 201, 217, 338) is not modelled: paths are taken as already expanded.
- Windows separators: paths are POSIX, so `get_posix_path` is the identity in practice. It is still modelled for any separator.
- Concurrency: line 311 calls `thread.run()`, so the workers run one after the other in the caller, and the model runs them as a loop.
- `on_remove_error` (lines 189-197), the chmod-and-retry handler of `rmtree`, is not modelled: removal is modelled as always succeeding.
- A git checkout is modelled as writing its working tree over the clone. Files a checkout deletes are not removed.
- `tempfile.mkdtemp`: the name is a library function of the directories already taken. Its freshness is not assumed.
- XML parsing and serialisation, gzip and zip formats, md5 and the text encoding of `io.open` are library functions passed as parameters. Their internals are not modelled.
- Fetch.FetchStep: archive sources are dispatched to the corrected zip fetcher (see Findings). The tail as written is modelled separately as `ZipFetchAsWritten`.
- `main` and the addons under `addons/` are not part of this model.

## Findings

| source | as written | input that shows it | evidently intended | confidence | as-written member | corrected member |
|---|---|---|---|---|---|---|
| create_repository.py:250-252 | After extracting and copying, `fetch_addon_from_zip` calls `cls.get_checksum_path`, which `KodiRepository` does not define. It also passes the archive path to `get_info_path`, which takes a folder. | Any zip archive with one root folder and a valid `addon.xml`: the fetch raises AttributeError after the archive is in place, so archive sources always fail. | Write the archive's checksum beside it with `generate_checksum(archive_path)`, as the folder and git fetchers do. | not executed | Fetch.ZipFetchAsWritten | Fetch.ZipFetchResult |
