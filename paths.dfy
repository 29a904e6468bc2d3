/** POSIX path strings as the builder handles them through os.path:
    join, dirname, basename, relpath, the separator rewrite of get_posix_path,
    and the member-name normalisation zipfile applies when an entry is written. */
module Paths {
  import opened Wrappers

  /** Index of the last '/' in `s`, if there is one. */
  function LastSlash(s: string): (r: Option<nat>)
    ensures r.Some? ==> r.value < |s| && s[r.value] == '/'
    ensures r.Some? ==> forall j :: r.value < j < |s| ==> s[j] != '/'
    ensures r.None? ==> forall j :: 0 <= j < |s| ==> s[j] != '/'
  {
    if |s| == 0 then None
    else if s[|s| - 1] == '/' then Some(|s| - 1)
    else LastSlash(s[..|s| - 1])
  }

  predicate NoSlash(s: string) {
    forall j :: 0 <= j < |s| ==> s[j] != '/'
  }

  /** posixpath.join with two arguments. */
  function Join(a: string, b: string): string {
    if |b| > 0 && b[0] == '/' then b
    else if a == "" || a[|a| - 1] == '/' then a + b
    else a + "/" + b
  }

  /** posixpath.basename: what follows the last '/'. */
  function Basename(p: string): string {
    match LastSlash(p)
    case None => p
    case Some(i) => p[i + 1..]
  }

  /** `s` without its trailing slashes. */
  function RStrip(s: string): (r: string)
    ensures |r| <= |s| && r == s[..|r|]
    ensures forall j :: |r| <= j < |s| ==> s[j] == '/'
  {
    if |s| > 0 && s[|s| - 1] == '/' then RStrip(s[..|s| - 1]) else s
  }

  predicate AllSlashes(s: string) {
    forall j :: 0 <= j < |s| ==> s[j] == '/'
  }

  /** posixpath.dirname: everything up to the last '/', with trailing slashes
      removed unless the head consists of slashes only. */
  function Dirname(p: string): string {
    var head := match LastSlash(p) case None => "" case Some(i) => p[..i + 1];
    if head != "" && !AllSlashes(head) then RStrip(head) else head
  }

  /** The components a single segment contributes: none for "" and ".". */
  function Comp(c: string): seq<string> {
    if c == "" || c == "." then [] else [c]
  }

  /** The non-empty, non-"." components of a path, in order. */
  function Parts(s: string): (r: seq<string>)
    ensures forall k :: 0 <= k < |r| ==> r[k] != "" && r[k] != "." && NoSlash(r[k])
    decreases |s|
  {
    match LastSlash(s)
    case None => Comp(s)
    case Some(i) => Parts(s[..i]) + Comp(s[i + 1..])
  }

  /** Components glued with '/'. */
  function JoinParts(ps: seq<string>): string {
    if |ps| == 0 then ""
    else if |ps| == 1 then ps[0]
    else ps[0] + "/" + JoinParts(ps[1..])
  }

  function CommonPrefix(a: seq<string>, b: seq<string>): (n: nat)
    ensures n <= |a| && n <= |b| && a[..n] == b[..n]
    ensures n < |a| && n < |b| ==> a[n] != b[n]
  {
    if |a| == 0 || |b| == 0 || a[0] != b[0] then 0
    else 1 + CommonPrefix(a[1..], b[1..])
  }

  function Ups(n: nat): (r: seq<string>)
    ensures |r| == n && forall k :: 0 <= k < n ==> r[k] == ".."
  {
    if n == 0 then [] else [".."] + Ups(n - 1)
  }

  predicate IsAbsolute(p: string) {
    |p| > 0 && p[0] == '/'
  }

  /** The ".." resolution of posixpath.normpath on components: ".." removes
      the component before it; with nothing left to remove it is kept in a
      relative path and dropped at the root of an absolute one. */
  function Normalize(ps: seq<string>, absolute: bool): seq<string>
    decreases |ps|
  {
    if ps == [] then []
    else
      var acc := Normalize(ps[..|ps| - 1], absolute);
      var c := ps[|ps| - 1];
      if c != ".." then acc + [c]
      else if |acc| > 0 && acc[|acc| - 1] != ".." then acc[..|acc| - 1]
      else if absolute then acc
      else acc + [".."]
  }

  /** The normalised components of a path. */
  function NormParts(p: string): seq<string> {
    Normalize(Parts(p), IsAbsolute(p))
  }

  /** Normalisation only removes components or keeps them, and adds "..". */
  lemma {:induction false} NormalizeFrom(ps: seq<string>, absolute: bool)
    ensures forall k :: 0 <= k < |Normalize(ps, absolute)| ==>
      Normalize(ps, absolute)[k] in ps || Normalize(ps, absolute)[k] == ".."
    decreases |ps|
  {
    if ps != [] {
      var init := ps[..|ps| - 1];
      NormalizeFrom(init, absolute);
      assert forall x :: x in init ==> x in ps;
    }
  }

  /** The normalised components are proper components. */
  lemma NormPartsValid(p: string)
    ensures forall k :: 0 <= k < |NormParts(p)| ==>
      NormParts(p)[k] != "" && NormParts(p)[k] != "." && NoSlash(NormParts(p)[k])
  {
    NormalizeFrom(Parts(p), IsAbsolute(p));
    var ps := Parts(p);
    assert forall x :: x in ps ==> x != "" && x != "." && NoSlash(x);
  }

  /** posixpath.relpath for two paths taken from the same directory: climb out
      of what `start` does not share with `path`, then descend into the rest of
      `path`. */
  function RelPath(path: string, start: string): string {
    var sp := NormParts(start);
    var pp := NormParts(path);
    var n := CommonPrefix(sp, pp);
    var rel := Ups(|sp| - n) + pp[n..];
    if rel == [] then "." else JoinParts(rel)
  }

  /** The member name zipfile stores for a path: posixpath.normpath, then the
      leading '/' removed. */
  function ArcName(p: string): string {
    var ns := NormParts(p);
    if ns == [] then (if IsAbsolute(p) then "" else ".") else JoinParts(ns)
  }

  /** get_posix_path: every host separator becomes '/'. */
  function PosixPath(path: string, sep: char): (r: string)
    ensures |r| == |path|
    ensures forall k :: 0 <= k < |path| ==> r[k] == (if path[k] == sep then '/' else path[k])
  {
    if |path| == 0 then ""
    else PosixPath(path[..|path| - 1], sep) + [if path[|path| - 1] == sep then '/' else path[|path| - 1]]
  }

  /** The text before the first '/' (all of it when there is none): the first
      element of `path.split('/')`. */
  function FirstSegment(s: string): (r: string)
    ensures |r| <= |s| && NoSlash(r) && r == s[..|r|]
    ensures |r| < |s| ==> s[|r|] == '/'
  {
    if |s| == 0 || s[0] == '/' then ""
    else
      var t := FirstSegment(s[1..]);
      assert s[1..][..|t|] == t;
      assert s[..|t| + 1] == [s[0]] + s[1..][..|t|];
      [s[0]] + t
  }

  // ---------------------------------------------------------------------------
  // Lemmas

  /** After get_posix_path with a separator other than '/', no separator remains,
      and with '/' as the separator the path is unchanged. */
  lemma PosixPathSeparators(path: string, sep: char)
    ensures sep != '/' ==> forall k :: 0 <= k < |path| ==> PosixPath(path, sep)[k] != sep
    ensures sep == '/' ==> PosixPath(path, sep) == path
  {
  }

  lemma {:induction false} LastSlashAt(x: string, y: string)
    requires NoSlash(y)
    ensures LastSlash(x + "/" + y) == Some(|x|)
  {
    var s := x + "/" + y;
    assert s[|x|] == '/';
    forall j | |x| < j < |s|
      ensures s[j] != '/'
    {
      assert s[j] == y[j - |x| - 1];
    }
  }

  lemma NoSlashLast(y: string)
    requires NoSlash(y)
    ensures LastSlash(y) == None
  {
  }

  /** Parts of `x/y` for a last segment `y`. */
  lemma PartsOfChild(x: string, y: string)
    requires NoSlash(y)
    ensures Parts(x + "/" + y) == Parts(x) + Comp(y)
  {
    var s := x + "/" + y;
    LastSlashAt(x, y);
    assert s[..|x|] == x;
    assert s[|x| + 1..] == y;
  }

  /** Components of `x/y` are those of `x` followed by those of `y`. */
  lemma {:induction false} PartsSlash(x: string, y: string)
    ensures Parts(x + "/" + y) == Parts(x) + Parts(y)
    decreases |y|
  {
    match LastSlash(y)
    case None =>
      PartsOfChild(x, y);
    case Some(j) =>
      var y0 := y[..j];
      var y1 := y[j + 1..];
      assert y == y0 + "/" + y1;
      assert NoSlash(y1);
      PartsOfChild(y0, y1);
      assert x + "/" + y == (x + "/" + y0) + "/" + y1;
      PartsOfChild(x + "/" + y0, y1);
      PartsSlash(x, y0);
  }

  /** Trailing slashes do not change the components. */
  lemma {:induction false} PartsRStrip(s: string)
    ensures Parts(RStrip(s)) == Parts(s)
    decreases |s|
  {
    if |s| > 0 && s[|s| - 1] == '/' {
      var t := s[..|s| - 1];
      assert s == t + "/" + "";
      PartsOfChild(t, "");
      assert Comp("") == [];
      assert RStrip(s) == RStrip(t);
      PartsRStrip(t);
    }
  }

  /** The directory of `x/y` (for a last component `y`) has the components of `x`. */
  lemma {:induction false} DirnameOfChild(x: string, y: string)
    requires NoSlash(y)
    ensures Parts(Dirname(x + "/" + y)) == Parts(x)
    ensures IsAbsolute(Dirname(x + "/" + y)) == IsAbsolute(x + "/")
    ensures Basename(x + "/" + y) == y
  {
    var p := x + "/" + y;
    LastSlashAt(x, y);
    var head := p[..|x| + 1];
    assert head == x + "/" + "";
    LastSlashAt(x, "");
    assert Parts(head) == Parts(x);
    if head != "" && !AllSlashes(head) {
      PartsRStrip(head);
      var r := RStrip(head);
      assert r != "";
      assert r[0] == head[0];
    }
    assert p[|x| + 1..] == y;
  }

  lemma {:induction false} CommonPrefixOfExtension(a: seq<string>, b: seq<string>)
    ensures CommonPrefix(a, a + b) == |a|
  {
    if |a| > 0 {
      assert (a + b)[1..] == a[1..] + b;
      CommonPrefixOfExtension(a[1..], b);
    }
  }

  /** A last component other than ".." survives normalisation. */
  lemma NormalizeAppend(ps: seq<string>, c: string, absolute: bool)
    requires c != ".."
    ensures Normalize(ps + [c], absolute) == Normalize(ps, absolute) + [c]
  {
    assert (ps + [c])[..|ps|] == ps;
  }

  /** Seen from the directory of the sibling file `p + suffix`, the relative
      path of `p` is its basename: the relpath the checksum writer records when
      the checksum file sits next to the file it describes. */
  lemma {:induction false} RelPathToSibling(p: string, suffix: string)
    requires NoSlash(suffix)
    requires Basename(p) != "" && Basename(p) != "." && Basename(p) != ".."
    ensures RelPath(p, Dirname(p + suffix)) == Basename(p)
  {
    var b := Basename(p);
    match LastSlash(p)
    case None =>
      assert Dirname(p + suffix) == "" by {
        assert NoSlash(p + suffix);
        NoSlashLast(p + suffix);
      }
      assert Parts("") == [];
      assert Parts(p) == [b];
      NormalizeAppend([], b, IsAbsolute(p));
      assert [] + [b] == [b];
    case Some(i) =>
      var x := p[..i];
      assert p == x + "/" + b;
      assert p + suffix == x + "/" + (b + suffix);
      NormPartsOfSibling(x, b, suffix);
      var sp := NormParts(Dirname(p + suffix));
      CommonPrefixOfExtension(sp, [b]);
      assert NormParts(p)[|sp|..] == [b];
  }

  lemma NormPartsOfSibling(x: string, b: string, suffix: string)
    requires NoSlash(suffix) && NoSlash(b) && b != "" && b != "." && b != ".."
    ensures NormParts(x + "/" + b) == NormParts(Dirname(x + "/" + (b + suffix))) + [b]
  {
    var p := x + "/" + b;
    var d := Dirname(x + "/" + (b + suffix));
    DirnameOfChild(x, b + suffix);
    PartsOfChild(x, b);
    assert Comp(b) == [b];
    var abs := IsAbsolute(x + "/");
    assert p == (x + "/") + b;
    assert IsAbsolute(p) == abs by {
      assert p[0] == (x + "/")[0];
    }
    NormalizeAppend(Parts(x), b, abs);
    assert NormParts(d) == Normalize(Parts(x), abs);
  }

  /** For an absolute directory, joining it with itself gives the directory
      back (the `os.path.join(clone_folder, clone_folder)` of the git fetcher). */
  lemma JoinAbsoluteWithItself(d: string)
    requires |d| > 0 && d[0] == '/'
    ensures Join(d, d) == d
  {
  }

  lemma {:induction false} FirstSegmentOfSlash(a: string, rest: string)
    requires NoSlash(a)
    ensures FirstSegment(a + "/" + rest) == a
    ensures FirstSegment(a) == a
  {
    if |a| > 0 {
      assert (a + "/" + rest)[1..] == a[1..] + "/" + rest;
      FirstSegmentOfSlash(a[1..], rest);
    }
  }

  /** The first segment of glued components is the first component. */
  lemma JoinPartsFirstSegment(ps: seq<string>)
    requires |ps| > 0 && NoSlash(ps[0])
    ensures FirstSegment(JoinParts(ps)) == ps[0]
  {
    if |ps| == 1 {
      FirstSegmentOfSlash(ps[0], "");
    } else {
      FirstSegmentOfSlash(ps[0], JoinParts(ps[1..]));
    }
  }

  /** A relative second argument keeps the first argument's start. */
  lemma JoinKeepsHead(a: string, b: string)
    requires a != "" && !IsAbsolute(b)
    ensures Join(a, b) != "" && Join(a, b)[0] == a[0]
  {
  }

  /** The components of posixpath.join(a, b) for a relative `b`. */
  lemma PartsJoin(a: string, b: string)
    requires !IsAbsolute(b)
    ensures Parts(Join(a, b)) == Parts(a) + Parts(b)
  {
    if a == "" {
      assert Join(a, b) == b;
      assert LastSlash(a) == None;
    } else if a[|a| - 1] == '/' {
      var a0 := a[..|a| - 1];
      assert a == a0 + "/";
      assert Join(a, b) == a0 + "/" + b;
      PartsSlash(a0, b);
      PartsOfSlashEnd(a0);
    } else {
      assert Join(a, b) == a + "/" + b;
      PartsSlash(a, b);
    }
  }

  /** A trailing '/' adds no component. */
  lemma PartsOfSlashEnd(x: string)
    ensures Parts(x + "/") == Parts(x)
  {
    var s := x + "/";
    assert LastSlash(s) == Some(|x|);
    assert s[..|x|] == x;
    assert |s[|x| + 1..]| == 0;
  }

  /** The spelling the kernel looks a path up under: "." components and
      repeated or trailing '/' are skipped during lookup, so `c/./addon.xml`
      and `c//addon.xml` name `c/addon.xml`. ".." is left in place, since
      what it names depends on symbolic links. */
  function Resolved(p: string): string {
    if IsAbsolute(p) then "/" + JoinParts(Parts(p)) else JoinParts(Parts(p))
  }

  /** Resolving keeps the path's components and whether it is absolute, and
      a resolved spelling resolves to itself. */
  lemma {:induction false} ResolvedSamePath(p: string)
    ensures Parts(Resolved(p)) == Parts(p)
    ensures IsAbsolute(Resolved(p)) == IsAbsolute(p)
    ensures Resolved(Resolved(p)) == Resolved(p)
  {
    var ps := Parts(p);
    PartsJoinParts(ps);
    if ps != [] {
      JoinPartsHead(ps);
    }
    if IsAbsolute(p) {
      assert "/" + JoinParts(ps) == "" + "/" + JoinParts(ps);
      PartsSlash("", JoinParts(ps));
      assert Parts("") == [];
    }
  }

  /** A last component appended to glued components. */
  lemma {:induction false} JoinPartsSnoc(ps: seq<string>, c: string)
    requires |ps| > 0
    ensures JoinParts(ps + [c]) == JoinParts(ps) + "/" + c
  {
    if |ps| > 1 {
      assert (ps + [c])[1..] == ps[1..] + [c];
      JoinPartsSnoc(ps[1..], c);
    }
  }

  /** The components of `c/./name`. */
  lemma {:induction false} PartsThroughDot(c: string, name: string)
    requires c != "" && c[|c| - 1] != '/'
    requires NoSlash(name) && name != "" && name != "."
    ensures Join(Join(c, "./"), name) == (c + "/" + ".") + "/" + name
    ensures Parts(Join(Join(c, "./"), name)) == Parts(c) + [name]
  {
    var dot := c + "/" + ".";
    assert Join(c, "./") == dot + "/";
    assert Join(dot + "/", name) == dot + "/" + name;
    PartsOfChild(c, ".");
    PartsOfChild(dot, name);
    assert Comp(".") == [] && Comp(name) == [name];
  }

  /** A "./" sub-path vanishes on lookup: `c/./name` is looked up as `c/name`. */
  lemma {:induction false} ResolvedThroughDot(c: string, name: string)
    requires c != "" && c[|c| - 1] != '/'
    requires NoSlash(name) && name != "" && name != "."
    ensures Resolved(Join(Join(c, "./"), name)) == Resolved(Join(c, name))
  {
    PartsThroughDot(c, name);
    assert Join(c, name) == c + "/" + name;
    PartsOfChild(c, name);
    assert Comp(name) == [name];
  }

  /** Components glued with '/' come apart into the same components. */
  lemma {:induction false} PartsJoinParts(cs: seq<string>)
    requires forall k :: 0 <= k < |cs| ==> cs[k] != "" && cs[k] != "." && NoSlash(cs[k])
    ensures Parts(JoinParts(cs)) == cs
  {
    if |cs| == 1 {
      NoSlashLast(cs[0]);
    } else if |cs| > 1 {
      PartsSlash(cs[0], JoinParts(cs[1..]));
      PartsJoinParts(cs[1..]);
      NoSlashLast(cs[0]);
      assert cs == [cs[0]] + cs[1..];
    }
  }

  lemma JoinPartsHead(cs: seq<string>)
    requires |cs| > 0 && cs[0] != ""
    ensures JoinParts(cs) != "" && JoinParts(cs)[0] == cs[0][0]
  {
  }

  /** Components without ".." pass through normalisation unchanged. */
  lemma {:induction false} NormalizeConcat(ps: seq<string>, qs: seq<string>, absolute: bool)
    requires forall k :: 0 <= k < |qs| ==> qs[k] != ".."
    ensures Normalize(ps + qs, absolute) == Normalize(ps, absolute) + qs
    decreases |qs|
  {
    if qs == [] {
      assert ps + qs == ps;
    } else {
      var q0 := qs[..|qs| - 1];
      var c := qs[|qs| - 1];
      assert qs == q0 + [c];
      assert ps + qs == (ps + q0) + [c];
      NormalizeAppend(ps + q0, c, absolute);
      NormalizeConcat(ps, q0, absolute);
    }
  }
}
