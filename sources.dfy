/** Reading the configured source strings: the `url[#branch][:subpath]` split of
    the git fetcher, the one-root rule for archive sources, and the check that
    GitPython is importable when some source needs it. */
module Sources {
  import opened Wrappers
  import opened Paths
  import opened Validate

  // ---------------------------------------------------------------------------
  // Git source strings:
  // re.match(r'((?:[A-Za-z0-9+.-]+://)?.*?)(?:#([^#]*?))?(?::([^:]*))?$', addon_path)

  /** The three groups of the match. */
  datatype GitSource = GitSource(repo: string, branch: Option<string>, path: Option<string>)

  predicate NoChar(s: string, c: char) {
    forall j :: 0 <= j < |s| ==> s[j] != c
  }

  /** Index of the last occurrence of `c` in `s`, if any. */
  function LastIndex(s: string, c: char): (r: Option<nat>)
    ensures r.Some? ==> r.value < |s| && s[r.value] == c && NoChar(s[r.value + 1..], c)
    ensures r.None? ==> NoChar(s, c)
  {
    if |s| == 0 then None
    else if s[|s| - 1] == c then Some(|s| - 1)
    else
      var r := LastIndex(s[..|s| - 1], c);
      assert r.Some? ==> s[r.value + 1..] == s[..|s| - 1][r.value + 1..] + [s[|s| - 1]];
      r
  }

  /** Length of the optional `scheme://` that the first group starts with. */
  function SchemePrefix(s: string): (n: nat)
    ensures n <= |s|
  {
    var k := SchemeRun(s);
    if k >= 1 && k + 3 <= |s| && s[k..k + 3] == "://" then k + 3 else 0
  }

  /** Whether the text after the first group matches
      `(?:#([^#]*?))?(?::([^:]*))?$`, and if so the branch and sub-path groups.
      The lazy branch group stops at the last ':' (the sub-path may hold no
      ':'), or takes everything when there is none; it may hold no '#'. */
  function Tail(t: string): Option<(Option<string>, Option<string>)> {
    if t == "" then Some((None, None))
    else if t[0] == '#' then
      var u := t[1..];
      match LastIndex(u, ':')
      case None => if NoChar(u, '#') then Some((Some(u), None)) else None
      case Some(j) => if NoChar(u[..j], '#') then Some((Some(u[..j]), Some(u[j + 1..]))) else None
    else if t[0] == ':' && NoChar(t[1..], ':') then Some((None, Some(t[1..])))
    else None
  }

  /** The lazy first group: the earliest position from `i` on where the tail matches. */
  function FirstTail(s: string, i: nat): (k: nat)
    requires i <= |s|
    ensures i <= k <= |s| && Tail(s[k..]).Some?
    ensures forall j :: i <= j < k ==> Tail(s[j..]).None?
    decreases |s| - i
  {
    if Tail(s[i..]).Some? then i
    else
      assert i < |s| by { assert s[|s|..] == ""; }
      FirstTail(s, i + 1)
  }

  /** The text the groups came from. */
  function Render(g: GitSource): string {
    g.repo
      + (match g.branch case None => "" case Some(b) => "#" + b)
      + (match g.path case None => "" case Some(p) => ":" + p)
  }

  lemma {:induction false} TailRenders(t: string)
    requires Tail(t).Some?
    ensures Render(GitSource("", Tail(t).value.0, Tail(t).value.1)) == t
  {
    if t != "" && t[0] == '#' {
      var u := t[1..];
      match LastIndex(u, ':')
      case None =>
      case Some(j) =>
        assert u == u[..j] + ":" + u[j + 1..];
    }
  }

  lemma RenderPrefix(g: GitSource)
    ensures Render(g) == g.repo + Render(GitSource("", g.branch, g.path))
  {
  }

  /** The groups `fetch_addon_from_git` takes from a source string. They put
      the string back together, and the first group is as short as the lazy
      `.*?` makes it: no earlier end after the scheme leaves a tail that
      matches. */
  function SplitGitSource(s: string): (g: GitSource)
    ensures Render(g) == s
    ensures SchemePrefix(s) <= |g.repo| <= |s| && g.repo == s[..|g.repo|]
    ensures forall j :: SchemePrefix(s) <= j < |g.repo| ==> Tail(s[j..]).None?
  {
    var k := FirstTail(s, SchemePrefix(s));
    var (branch, path) := Tail(s[k..]).value;
    SplitRenders(s, k);
    GitSource(s[..k], branch, path)
  }

  /** Cutting the text where a tail matches and rendering the groups gives
      the text back. */
  lemma SplitRenders(s: string, k: nat)
    requires k <= |s| && Tail(s[k..]).Some?
    ensures Render(GitSource(s[..k], Tail(s[k..]).value.0, Tail(s[k..]).value.1)) == s
  {
    var g := GitSource(s[..k], Tail(s[k..]).value.0, Tail(s[k..]).value.1);
    TailRenders(s[k..]);
    RenderPrefix(g);
    assert s == s[..k] + s[k..];
  }

  /** The path inside the clone: the sub-path group, or `./` when it is absent
      (`get_posix_path(os.path.join('.', ''))`). */
  function ClonePath(g: GitSource): string {
    match g.path
    case None => PosixPath(Join(".", ""), '/')
    case Some(p) => p
  }

  lemma DefaultClonePath(g: GitSource)
    requires g.path.None?
    ensures ClonePath(g) == "./"
  {
    PosixPathSeparators("./", '/');
  }

  lemma {:induction false} FirstTailAt(s: string, i: nat, k: nat)
    requires i <= k <= |s|
    requires forall j :: i <= j < k ==> Tail(s[j..]).None?
    requires Tail(s[k..]).Some?
    ensures FirstTail(s, i) == k
    decreases k - i
  {
    if i < k {
      FirstTailAt(s, i + 1, k);
    }
  }

  lemma TailOf(branch: Option<string>, path: Option<string>)
    requires branch.Some? ==> NoChar(branch.value, '#') && NoChar(branch.value, ':')
    requires path.Some? ==> NoChar(path.value, ':')
    ensures Tail(Render(GitSource("", branch, path))) == Some((branch, path))
  {
    var t := Render(GitSource("", branch, path));
    if branch.None? {
      if path.Some? {
        assert t == ":" + path.value && t[1..] == path.value;
      }
    } else {
      var b := branch.value;
      var u := t[1..];
      if path.None? {
        assert u == b;
      } else {
        var p := path.value;
        assert u == b + ":" + p;
        assert u[|b|] == ':' && u[|b| + 1..] == p;
        var j := LastIndex(u, ':').value;
        assert j == |b|;
        assert u[..j] == b;
      }
    }
  }

  lemma {:induction false} SchemeRunOf(a: string, t: string)
    requires AllScheme(a)
    requires |t| > 0 && !SchemeChar(t[0])
    ensures SchemeRun(a + t) == |a|
  {
    if |a| > 0 {
      assert (a + t)[1..] == a[1..] + t;
      SchemeRunOf(a[1..], t);
    } else {
      assert a + t == t;
    }
  }

  lemma SchemePrefixOf(scheme: string, rest: string)
    requires |scheme| >= 1 && AllScheme(scheme)
    ensures SchemePrefix(scheme + "://" + rest) == |scheme| + 3
  {
    var s := scheme + "://" + rest;
    assert s == scheme + ("://" + rest);
    SchemeRunOf(scheme, "://" + rest);
    assert s[|scheme|..|scheme| + 3] == "://";
  }

  /** A tail that starts with neither '#' nor ':' does not match. */
  lemma NoTailAt(t: string)
    requires |t| > 0 && t[0] != '#' && t[0] != ':'
    ensures Tail(t).None?
  {
  }

  /** The split is decided by where the first matching tail starts. */
  lemma SplitAt(s: string, k: nat)
    requires SchemePrefix(s) <= k <= |s|
    requires forall j :: SchemePrefix(s) <= j < k ==> Tail(s[j..]).None?
    requires Tail(s[k..]).Some?
    ensures SplitGitSource(s) == GitSource(s[..k], Tail(s[k..]).value.0, Tail(s[k..]).value.1)
  {
    FirstTailAt(s, SchemePrefix(s), k);
  }

  /** No position inside the host starts a matching tail. */
  lemma NoTailInHost(s: string, start: nat, host: string)
    requires start + |host| <= |s| && s[start..start + |host|] == host
    requires NoChar(host, ':') && NoChar(host, '#')
    ensures forall j :: start <= j < start + |host| ==> Tail(s[j..]).None?
  {
    forall j | start <= j < start + |host|
      ensures Tail(s[j..]).None?
    {
      assert s[j..][0] == host[j - start];
      NoTailAt(s[j..]);
    }
  }

  /** A source `scheme://host` followed by an optional `#branch` and an
      optional `:subpath`, where the host holds no ':' or '#', the branch no
      '#' or ':' and the sub-path no ':', splits into exactly those parts. */
  lemma SplitUrlSource(scheme: string, host: string, branch: Option<string>, path: Option<string>)
    requires |scheme| >= 1 && AllScheme(scheme)
    requires NoChar(host, ':') && NoChar(host, '#')
    requires branch.Some? ==> NoChar(branch.value, '#') && NoChar(branch.value, ':')
    requires path.Some? ==> NoChar(path.value, ':')
    ensures SplitGitSource(Render(GitSource(scheme + "://" + host, branch, path)))
            == GitSource(scheme + "://" + host, branch, path)
  {
    var repo := scheme + "://" + host;
    var tail := Render(GitSource("", branch, path));
    var s := Render(GitSource(repo, branch, path));
    RenderPrefix(GitSource(repo, branch, path));
    assert s == repo + tail;
    assert s == scheme + "://" + (host + tail);
    SchemePrefixOf(scheme, host + tail);
    var start := |scheme| + 3;
    assert s[start..start + |host|] == host;
    NoTailInHost(s, start, host);
    TailOf(branch, path);
    assert s[|repo|..] == tail;
    assert s[..|repo|] == repo;
    SplitAt(s, |repo|);
  }

  // ---------------------------------------------------------------------------
  // Archive sources: exactly one top-level directory

  /** The first path component of every member name. */
  function ArchiveRoots(names: seq<string>): set<string> {
    set n | n in names :: FirstSegment(n)
  }

  /** The root check of fetch_addon_from_zip: the members must share exactly
      one first component, which is then the addon's folder in the archive. */
  function ArchiveRoot(names: seq<string>): (r: Result<string>)
    ensures r.Ok? <==> |ArchiveRoots(names)| == 1
    ensures r.Ok? ==> ArchiveRoots(names) == {r.value}
    ensures r.Ok? ==> forall n :: n in names ==> FirstSegment(n) == r.value
    ensures r.Err? ==> r.error == ArchiveRootCount(|ArchiveRoots(names)|)
  {
    var roots := ArchiveRoots(names);
    if |roots| != 1 then Err(ArchiveRootCount(|roots|))
    else
      assert names != [] by {
        assert names == [] ==> roots == {};
      }
      var root := FirstSegment(names[0]);
      assert roots == {root} by {
        assert root in roots;
        forall x | x in roots ensures x == root {
          if x != root {
            assert {x, root} <= roots;
            assert |{x, root}| == 2;
            SubsetCard({x, root}, roots);
          }
        }
      }
      assert forall n :: n in names ==> FirstSegment(n) in roots;
      Ok(root)
  }

  lemma SubsetCard(a: set<string>, b: set<string>)
    requires a <= b
    ensures |a| <= |b|
  {
    assert b == a + (b - a);
  }

  /** An empty archive and an archive with two top-level folders are refused. */
  lemma ArchiveRootRefusals(names: seq<string>, i: nat, j: nat)
    ensures ArchiveRoot([]) == Err(ArchiveRootCount(0))
    ensures i < |names| && j < |names| && FirstSegment(names[i]) != FirstSegment(names[j]) ==>
      ArchiveRoot(names).Err?
  {
    assert ArchiveRoots([]) == {};
  }

  // ---------------------------------------------------------------------------
  // import_git

  /** `any(is_url(path) for path in paths)` */
  function AnyUrl(paths: seq<string>): (r: bool)
    ensures r <==> exists i :: 0 <= i < |paths| && IsUrl(paths[i])
  {
    if paths == [] then false
    else
      var r := IsUrl(paths[0]) || AnyUrl(paths[1..]);
      assert (exists i :: 0 <= i < |paths[1..]| && IsUrl(paths[1..][i])) ==> (exists i :: 0 <= i < |paths| && IsUrl(paths[i]));
      r
  }

  /** import_git: GitPython is imported only when some source is a URL, and a
      missing GitPython is an error only then. `Ok(true)` means it was imported. */
  function ImportGit(paths: seq<string>, gitInstalled: bool): (r: Result<bool>)
    ensures r.Err? <==> (exists i :: 0 <= i < |paths| && IsUrl(paths[i])) && !gitInstalled
    ensures r.Err? ==> r.error == GitPythonMissing
    ensures r.Ok? ==> (r.value <==> exists i :: 0 <= i < |paths| && IsUrl(paths[i]))
  {
    if AnyUrl(paths) then (if gitInstalled then Ok(true) else Err(GitPythonMissing))
    else Ok(false)
  }
}
