/** The file names the builder derives from an addon's identity:
    get_archive_basename, get_metadata_basenames and get_info_path. */
module Names {
  import opened Wrappers
  import opened Paths

  /** The descriptor's file name, `__INFO_BASENAME`. */
  const InfoBasename: string := "addon.xml"

  /** The side files copied under their own names, `__METADATA_BASENAMES`. */
  const SideFiles: seq<string> := [InfoBasename, "icon.png", "fanart.jpg", "LICENSE.txt"]

  /** get_archive_basename: `<id>-<version>.zip`, both strings verbatim. */
  function ArchiveBasename(id: string, version: string): (r: string)
    ensures |r| == |id| + |version| + 5
    ensures r[..|id|] == id && r[|id|] == '-' && r[|id| + 1..|r| - 4] == version
    ensures r[|r| - 4..] == ".zip"
  {
    var r := id + "-" + version + ".zip";
    assert r[|id| + 1..|r| - 4] == version;
    r
  }

  /** Reads the version back out of an archive name, given the addon id. */
  function ArchiveVersion(id: string, name: string): Option<string> {
    if |name| >= |id| + 5 && name[..|id|] == id && name[|id|] == '-' && name[|name| - 4..] == ".zip"
    then Some(name[|id| + 1..|name| - 4])
    else None
  }

  /** For a known id, the archive name determines the version and back. */
  lemma ArchiveVersionRoundTrip(id: string, version: string, name: string)
    ensures ArchiveVersion(id, ArchiveBasename(id, version)) == Some(version)
    ensures ArchiveVersion(id, name) == Some(version) ==> ArchiveBasename(id, version) == name
  {
    if ArchiveVersion(id, name) == Some(version) {
      assert name == name[..|id|] + [name[|id|]] + name[|id| + 1..|name| - 4] + name[|name| - 4..];
    }
  }

  /** get_metadata_basenames: the four side files copied under their own
      names, then the changelog stamped with the version. */
  function MetadataBasenames(version: string): (r: seq<(string, string)>)
    ensures |r| == 5
    ensures forall i :: 0 <= i < 4 ==> r[i].0 == SideFiles[i] && r[i].1 == SideFiles[i]
    ensures r[4] == ("changelog.txt", "changelog-" + version + ".txt")
  {
    seq(4, i requires 0 <= i < 4 => (SideFiles[i], SideFiles[i]))
      + [("changelog.txt", "changelog-" + version + ".txt")]
  }

  /** No two copies land on the same target, and no two read the same source. */
  lemma MetadataTargetsDistinct(version: string)
    ensures forall i, j :: 0 <= i < j < 5 ==> MetadataBasenames(version)[i].1 != MetadataBasenames(version)[j].1
    ensures forall i, j :: 0 <= i < j < 5 ==> MetadataBasenames(version)[i].0 != MetadataBasenames(version)[j].0
  {
    var r := MetadataBasenames(version);
    assert r[4].1[0] == 'c';
    assert SideFiles[0][0] == 'a' && SideFiles[1][0] == 'i' && SideFiles[2][0] == 'f' && SideFiles[3][0] == 'L';
  }

  /** get_info_path: `addon.xml` or `addons.xml`, with `.gz` when compressed,
      joined to the folder. */
  function InfoPath(folder: string, isCompressed: bool, addons: bool): string {
    Join(folder, IndexBasename(isCompressed, addons))
  }

  /** The file name get_info_path joins to the folder. */
  function IndexBasename(isCompressed: bool, addons: bool): string {
    (if addons then "addons.xml" else "addon.xml") + (if isCompressed then ".gz" else "")
  }

  /** The index file name is one path segment. */
  lemma IndexBasenameNoSlash(isCompressed: bool, addons: bool)
    ensures NoSlash(IndexBasename(isCompressed, addons)) && IndexBasename(isCompressed, addons) != ""
  {
  }

  lemma BasenameOfJoin(folder: string, base: string)
    requires NoSlash(base) && base != ""
    ensures Basename(Join(folder, base)) == base
  {
    if folder == "" {
      NoSlashLast(base);
    } else if folder[|folder| - 1] == '/' {
      var x := folder[..|folder| - 1];
      assert folder + base == x + "/" + base;
      DirnameOfChild(x, base);
    } else {
      DirnameOfChild(folder, base);
    }
  }

  /** The index file is named after what it indexes and whether it is
      compressed: the four choices give four different names, ending in
      `.gz` exactly when compressed. */
  lemma InfoPathNames(folder: string, isCompressed: bool, addons: bool)
    ensures var b := Basename(InfoPath(folder, isCompressed, addons));
      && (b == "addons.xml.gz" <==> addons && isCompressed)
      && (b == "addons.xml" <==> addons && !isCompressed)
      && (b == "addon.xml.gz" <==> !addons && isCompressed)
      && (b == "addon.xml" <==> !addons && !isCompressed)
  {
    IndexBasenameNoSlash(isCompressed, addons);
    BasenameOfJoin(folder, IndexBasename(isCompressed, addons));
    // the four names have four different lengths
    assert |"addons.xml.gz"| == 13 && |"addons.xml"| == 10 && |"addon.xml.gz"| == 12 && |"addon.xml"| == 9;
  }
}
