/** The string checks of KodiRepository: is_url, validate_id and
    validate_version. Each regular expression is modelled twice: as the scan
    Python's `re` performs (the function the builder calls) and as a
    reference shape, with lemmas connecting the two. */
module Validate {
  import opened Wrappers

  // ---------------------------------------------------------------------------
  // is_url: re.match('[A-Za-z0-9+.-]+://.', path)

  predicate SchemeChar(c: char) {
    ('A' <= c <= 'Z') || ('a' <= c <= 'z') || ('0' <= c <= '9') || c == '+' || c == '.' || c == '-'
  }

  predicate AllScheme(s: string) {
    forall i :: 0 <= i < |s| ==> SchemeChar(s[i])
  }

  /** Length of the longest prefix made of scheme characters. */
  function SchemeRun(s: string): (n: nat)
    ensures n <= |s| && AllScheme(s[..n])
    ensures n < |s| ==> !SchemeChar(s[n])
  {
    if |s| == 0 || !SchemeChar(s[0]) then 0
    else
      var n := 1 + SchemeRun(s[1..]);
      assert s[..n] == [s[0]] + s[1..][..n - 1];
      n
  }

  /** is_url. The match is anchored at the start only: one or more scheme
      characters, "://", then one more character that is not a newline.
      Because ':' is not a scheme character, the scheme is the longest run. */
  predicate IsUrl(path: string) {
    var k := SchemeRun(path);
    1 <= k && k + 3 < |path| && path[k..k + 3] == "://" && path[k + 3] != '\n'
  }

  /** Reference reading of the pattern: some non-empty scheme prefix followed by
      "://" and a further non-newline character. */
  ghost predicate UrlShaped(path: string) {
    exists k :: 1 <= k && k + 3 < |path| && AllScheme(path[..k]) && path[k..k + 3] == "://" && path[k + 3] != '\n'
  }

  /** is_url accepts exactly the URL-shaped strings. */
  lemma IsUrlIffUrlShaped(path: string)
    ensures IsUrl(path) <==> UrlShaped(path)
  {
    var n := SchemeRun(path);
    if UrlShaped(path) {
      var k :| 1 <= k && k + 3 < |path| && AllScheme(path[..k]) && path[k..k + 3] == "://" && path[k + 3] != '\n';
      assert path[k] == ':' && !SchemeChar(path[k]);
      assert n == k;
    }
  }

  // ---------------------------------------------------------------------------
  // validate_id: fails only when re.match('[^a-z0-9._-]', id) matches

  predicate IdChar(c: char) {
    ('a' <= c <= 'z') || ('0' <= c <= '9') || c == '.' || c == '_' || c == '-'
  }

  /** validate_id. `re.match` anchors the one-character class at the start, so
      only the first character is looked at; None is refused. */
  predicate ValidId(id: Option<string>) {
    match id
    case None => false
    case Some(s) => !(|s| > 0 && !IdChar(s[0]))
  }

  /** The identifier pattern the addon format documents: `[a-z0-9._-]+`. */
  predicate DocumentedId(s: string) {
    |s| > 0 && forall i :: 0 <= i < |s| ==> IdChar(s[i])
  }

  /** validate_id refuses None, accepts "", and otherwise decides on the first
      character alone: whatever follows it is never inspected. */
  lemma ValidIdFirstCharacterOnly(s: string, tail: string)
    ensures !ValidId(None)
    ensures ValidId(Some(""))
    ensures |s| > 0 ==> (ValidId(Some(s + tail)) <==> IdChar(s[0]))
  {
    if |s| > 0 {
      assert (s + tail)[0] == s[0];
    }
  }

  /** Every documented identifier passes validate_id, but validate_id also
      passes identifiers the documented pattern refuses (upper case, a space or
      a '/' after the first character, and the empty string). */
  lemma ValidIdWeakerThanDocumented(s: string)
    ensures DocumentedId(s) ==> ValidId(Some(s))
    ensures ValidId(Some("a B/c")) && !DocumentedId("a B/c")
    ensures ValidId(Some("")) && !DocumentedId("")
  {
    assert "a B/c"[1] == ' ';
  }

  // ---------------------------------------------------------------------------
  // validate_version:
  // (?:0|[1-9]\d*)(?:\.(?:0|[1-9]\d*)){2}(?:[-~][0-9A-Za-z-]+(?:\.[0-9A-Za-z-]+)*)?(?:\+[0-9A-Za-z-]+(?:\.[0-9A-Za-z-]+)*)?\Z

  predicate IsDigit(c: char) { '0' <= c <= '9' }

  predicate TagChar(c: char) {
    IsDigit(c) || ('A' <= c <= 'Z') || ('a' <= c <= 'z') || c == '-'
  }

  /** `0|[1-9]\d*` */
  predicate Numeric(s: string) {
    s == "0" || (|s| > 0 && '1' <= s[0] <= '9' && forall i :: 0 <= i < |s| ==> IsDigit(s[i]))
  }

  /** `[0-9A-Za-z-]+(?:\.[0-9A-Za-z-]+)*`: non-empty identifiers separated by single dots. */
  predicate DotTags(s: string) {
    && |s| > 0
    && (forall i :: 0 <= i < |s| ==> TagChar(s[i]) || s[i] == '.')
    && s[0] != '.' && s[|s| - 1] != '.'
    && (forall i :: 0 <= i < |s| - 1 ==> !DoubleDotAt(s, i))
  }

  predicate DoubleDotAt(s: string, i: int)
    requires 0 <= i < |s| - 1
  {
    s[i] == '.' && s[i + 1] == '.'
  }

  /** The optional pre-release part: `-` or `~` then dotted identifiers. */
  predicate PreRelease(p: string) {
    p == "" || (|p| > 0 && (p[0] == '-' || p[0] == '~') && DotTags(p[1..]))
  }

  /** The optional build part: `+` then dotted identifiers. */
  predicate BuildMeta(b: string) {
    b == "" || (|b| > 0 && b[0] == '+' && DotTags(b[1..]))
  }

  /** Reference shape: MAJOR.MINOR.PATCH, a pre-release and a build part, and
      nothing else (the pattern ends in `\Z`). */
  ghost predicate VersionShape(s: string) {
    exists a, b, c, pre, build ::
      && s == a + ("." + (b + ("." + (c + (pre + build)))))
      && Numeric(a) && Numeric(b) && Numeric(c) && PreRelease(pre) && BuildMeta(build)
  }

  /** Length of the longest prefix of digits. */
  function DigitRun(s: string): (n: nat)
    ensures n <= |s| && (forall i :: 0 <= i < n ==> IsDigit(s[i]))
    ensures n < |s| ==> !IsDigit(s[n])
  {
    if |s| == 0 || !IsDigit(s[0]) then 0 else 1 + DigitRun(s[1..])
  }

  /** Length of the longest prefix of identifier characters and dots. */
  function TagRun(s: string): (n: nat)
    ensures n <= |s| && (forall i :: 0 <= i < n ==> TagChar(s[i]) || s[i] == '.')
    ensures n < |s| ==> !(TagChar(s[n]) || s[n] == '.')
  {
    if |s| == 0 || !(TagChar(s[0]) || s[0] == '.') then 0 else 1 + TagRun(s[1..])
  }

  /** What may follow the patch number. A pre-release, when present, runs as
      far as identifier characters and dots reach, because the text after it
      must start with '+' or be the end. */
  predicate SuffixOk(r: string) {
    if |r| > 0 && (r[0] == '-' || r[0] == '~') then
      var k := 1 + TagRun(r[1..]);
      PreRelease(r[..k]) && BuildMeta(r[k..])
    else BuildMeta(r)
  }

  /** One number `0|[1-9]\d*`, taken as the longest digit run (a dot, a
      pre-release, a build part or the end must follow it): the number and the
      rest of the text, or None when the run is not a number. */
  function SplitNumber(s: string): (r: Option<(string, string)>)
    ensures r.Some? ==> s == r.value.0 + r.value.1 && Numeric(r.value.0)
    ensures r.Some? && |r.value.1| > 0 ==> !IsDigit(r.value.1[0])
  {
    var n := DigitRun(s);
    if Numeric(s[..n]) then Some((s[..n], s[n..])) else None
  }

  /** The text after a leading '.', if there is one. */
  function AfterDot(s: string): Option<string> {
    if |s| > 0 && s[0] == '.' then Some(s[1..]) else None
  }

  /** The match as `re` performs it: number, dot, number, dot, number, then
      the pre-release and build parts up to the end. */
  predicate VersionText(s: string) {
    match SplitNumber(s)
    case None => false
    case Some((_, r1)) =>
      match AfterDot(r1)
      case None => false
      case Some(t1) =>
        match SplitNumber(t1)
        case None => false
        case Some((_, r2)) =>
          match AfterDot(r2)
          case None => false
          case Some(t2) =>
            match SplitNumber(t2)
            case None => false
            case Some((_, r3)) => SuffixOk(r3)
  }

  /** validate_version: None is refused, a string must match the whole pattern. */
  predicate ValidVersion(version: Option<string>) {
    version.Some? && VersionText(version.value)
  }

  lemma {:induction false} DigitRunOf(a: string, t: string)
    requires forall i :: 0 <= i < |a| ==> IsDigit(a[i])
    requires |t| > 0 ==> !IsDigit(t[0])
    ensures DigitRun(a + t) == |a|
  {
    if |a| > 0 {
      assert (a + t)[1..] == a[1..] + t;
      DigitRunOf(a[1..], t);
    } else {
      assert a + t == t;
    }
  }

  lemma {:induction false} TagRunOf(a: string, t: string)
    requires forall i :: 0 <= i < |a| ==> TagChar(a[i]) || a[i] == '.'
    requires |t| > 0 ==> !(TagChar(t[0]) || t[0] == '.')
    ensures TagRun(a + t) == |a|
  {
    if |a| > 0 {
      assert (a + t)[1..] == a[1..] + t;
      TagRunOf(a[1..], t);
    } else {
      assert a + t == t;
    }
  }

  lemma SplitNumberOf(a: string, t: string)
    requires Numeric(a)
    requires |t| > 0 ==> !IsDigit(t[0])
    ensures SplitNumber(a + t) == Some((a, t))
  {
    assert forall i :: 0 <= i < |a| ==> IsDigit(a[i]);
    DigitRunOf(a, t);
    assert (a + t)[..|a|] == a;
    assert (a + t)[|a|..] == t;
  }

  /** A pre-release followed by a build part is what SuffixOk accepts. */
  lemma SuffixOkOf(pre: string, build: string)
    requires PreRelease(pre) && BuildMeta(build)
    ensures SuffixOk(pre + build)
  {
    var r := pre + build;
    if pre == "" {
      assert r == build;
    } else {
      assert r[0] == pre[0];
      assert r[1..] == pre[1..] + build;
      TagRunOf(pre[1..], build);
      assert r[..|pre|] == pre;
      assert r[|pre|..] == build;
    }
  }

  /** What SuffixOk accepts splits into a pre-release and a build part. */
  lemma SuffixOkSplits(r: string) returns (pre: string, build: string)
    requires SuffixOk(r)
    ensures r == pre + build && PreRelease(pre) && BuildMeta(build)
  {
    if |r| > 0 && (r[0] == '-' || r[0] == '~') {
      var k := 1 + TagRun(r[1..]);
      pre, build := r[..k], r[k..];
    } else {
      pre, build := "", r;
    }
  }

  /** The three numbers and the suffix the scan of validate_version finds. */
  lemma VersionTextParts(s: string) returns (a: string, b: string, c: string, r3: string)
    requires VersionText(s)
    ensures s == a + ("." + (b + ("." + (c + r3))))
    ensures Numeric(a) && Numeric(b) && Numeric(c) && SuffixOk(r3)
  {
    var r1, t1, r2, t2;
    a, r1 := SplitNumber(s).value.0, SplitNumber(s).value.1;
    t1 := AfterDot(r1).value;
    b, r2 := SplitNumber(t1).value.0, SplitNumber(t1).value.1;
    t2 := AfterDot(r2).value;
    c, r3 := SplitNumber(t2).value.0, SplitNumber(t2).value.1;
    AfterDotPrefix(r2);
    AfterDotPrefix(r1);
  }

  lemma AfterDotPrefix(s: string)
    requires AfterDot(s).Some?
    ensures s == "." + AfterDot(s).value
  {
    assert s == [s[0]] + s[1..];
  }

  /** Every string validate_version accepts has the version shape. */
  lemma ValidVersionSound(s: string)
    requires ValidVersion(Some(s))
    ensures VersionShape(s)
  {
    var a, b, c, r3 := VersionTextParts(s);
    var pre, build := SuffixOkSplits(r3);
    assert s == a + ("." + (b + ("." + (c + (pre + build)))));
  }

  predicate Slashless(s: string) {
    forall i :: 0 <= i < |s| ==> s[i] != '/'
  }

  lemma SlashlessConcat(x: string, y: string)
    requires Slashless(x) && Slashless(y)
    ensures Slashless(x + y)
  {
    forall i | 0 <= i < |x + y|
      ensures (x + y)[i] != '/'
    {
      if i >= |x| {
        assert (x + y)[i] == y[i - |x|];
      }
    }
  }

  /** A leading marker character followed by dotted identifiers has no '/'. */
  lemma MarkedTagsSlashless(p: string)
    requires |p| > 0 && p[0] != '/' && DotTags(p[1..])
    ensures Slashless(p)
  {
    forall i | 0 < i < |p|
      ensures p[i] != '/'
    {
      assert p[i] == p[1..][i - 1];
    }
  }

  /** No character validate_version accepts is a path separator, so a version
      names no folder inside the file names built from it. */
  lemma ValidVersionHasNoSlash(s: string)
    requires ValidVersion(Some(s))
    ensures Slashless(s)
  {
    var a, b, c, r3 := VersionTextParts(s);
    var pre, build := SuffixOkSplits(r3);
    ShapeSlashless(a, b, c, pre, build);
  }

  lemma ShapeSlashless(a: string, b: string, c: string, pre: string, build: string)
    requires Numeric(a) && Numeric(b) && Numeric(c) && PreRelease(pre) && BuildMeta(build)
    ensures Slashless(a + ("." + (b + ("." + (c + (pre + build))))))
  {
    if pre != "" {
      MarkedTagsSlashless(pre);
    }
    if build != "" {
      MarkedTagsSlashless(build);
    }
    SlashlessConcat(pre, build);
    SlashlessConcat(c, pre + build);
    SlashlessConcat(".", c + (pre + build));
    SlashlessConcat(b, "." + (c + (pre + build)));
    SlashlessConcat(".", b + ("." + (c + (pre + build))));
    SlashlessConcat(a, "." + (b + ("." + (c + (pre + build)))));
  }

  /** The three numbers of a shaped version are where the scan finds them. */
  lemma ScanFindsParts(v: string, a: string, b: string, c: string, pre: string, build: string)
    requires v == a + ("." + (b + ("." + (c + (pre + build)))))
    requires Numeric(a) && Numeric(b) && Numeric(c) && PreRelease(pre) && BuildMeta(build)
    ensures VersionText(v)
  {
    var tail := pre + build;
    var t2 := c + tail;
    var t1 := b + ("." + t2);
    SplitNumberOf(a, "." + t1);
    assert AfterDot("." + t1) == Some(t1);
    SplitNumberOf(b, "." + t2);
    assert AfterDot("." + t2) == Some(t2);
    FirstOfSuffix(pre, build);
    SplitNumberOf(c, tail);
    SuffixOkOf(pre, build);
  }

  lemma FirstOfSuffix(pre: string, build: string)
    requires PreRelease(pre) && BuildMeta(build)
    ensures |pre + build| > 0 ==> !IsDigit((pre + build)[0])
  {
  }

  /** Every string with the version shape is accepted by validate_version. */
  lemma ValidVersionComplete(s: string)
    requires VersionShape(s)
    ensures ValidVersion(Some(s))
  {
    var a, b, c, pre, build :|
      && s == a + ("." + (b + ("." + (c + (pre + build)))))
      && Numeric(a) && Numeric(b) && Numeric(c) && PreRelease(pre) && BuildMeta(build);
    ScanFindsParts(s, a, b, c, pre, build);
  }

  /** The examples the format's documentation gives. */
  lemma ValidVersionAccepts()
    ensures !ValidVersion(None)
    ensures ValidVersion(Some("1.0.0"))
  {
    ScanFindsParts("1.0.0", "1", "0", "0", "", "");
  }

  lemma ValidVersionAcceptsPreRelease()
    ensures ValidVersion(Some("2.1.0-beta"))
  {
    assert PreRelease("-beta") by {
      assert "-beta"[1..] == "beta";
    }
    ScanFindsParts("2.1.0-beta", "2", "1", "0", "-beta", "");
  }

  lemma ValidVersionRejectsShort()
    ensures !ValidVersion(Some("1.0"))
  {
    SplitNumberOf("1", ".0");
    assert "1.0" == "1" + ".0";
    SplitNumberOf("0", "");
    assert "0" == "0" + "";
  }

  lemma ValidVersionRejectsFourParts()
    ensures !ValidVersion(Some("1.0.0.0"))
  {
    SplitNumberOf("1", ".0.0.0");
    assert "1.0.0.0" == "1" + ".0.0.0";
    SplitNumberOf("0", ".0.0");
    assert "0.0.0" == "0" + ".0.0";
    SplitNumberOf("0", ".0");
    assert "0.0" == "0" + ".0";
    assert !BuildMeta(".0");
  }

  lemma ValidVersionRejectsLeadingZero()
    ensures !ValidVersion(Some("01.0.0"))
  {
    var s := "01.0.0";
    assert DigitRun(s) == 2 by { DigitRunOf("01", ".0.0"); assert s == "01" + ".0.0"; }
    assert !Numeric(s[..2]);
  }
}
