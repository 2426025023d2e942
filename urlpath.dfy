/**
 * The parts of `urllib.parse.urlparse` and `posixpath` the downloader uses to
 * name its files: the path component of a URL, the text after its last `/`,
 * and joining a directory with a file name.
 */
module UrlPath {
  import opened Wrappers
  import opened Text

  /** The first index of `c` in `s`, if any (`s.find(c)`). */
  function Find(s: string, c: char): (r: Option<nat>)
    ensures r.Some? ==> r.value < |s| && s[r.value] == c && forall j :: 0 <= j < r.value ==> s[j] != c
    ensures r.None? ==> forall j :: 0 <= j < |s| ==> s[j] != c
  {
    if s == [] then None
    else if s[0] == c then Some(0)
    else match Find(s[1..], c)
      case None => None
      case Some(i) => Some(i + 1)
  }

  /** The last index of `c` in `s`, if any (`s.rfind(c)`). */
  function RFind(s: string, c: char): (r: Option<nat>)
    ensures r.Some? ==> r.value < |s| && s[r.value] == c && forall j :: r.value < j < |s| ==> s[j] != c
    ensures r.None? ==> forall j :: 0 <= j < |s| ==> s[j] != c
  {
    if s == [] then None
    else if s[|s| - 1] == c then Some(|s| - 1)
    else RFind(s[..|s| - 1], c)
  }

  /** The length of the longest prefix of `s` free of the characters in `stops`. */
  function SpanUntil(s: string, stops: set<char>): (n: nat)
    ensures n <= |s| && (forall j :: 0 <= j < n ==> s[j] !in stops) && (n < |s| ==> s[n] in stops)
  {
    if s == [] || s[0] in stops then 0 else 1 + SpanUntil(s[1..], stops)
  }

  predicate IsAsciiLetter(c: char)
  {
    ('a' <= c <= 'z') || ('A' <= c <= 'Z')
  }

  /** urllib's `scheme_chars`. */
  predicate IsSchemeChar(c: char)
  {
    IsAsciiLetter(c) || ('0' <= c <= '9') || c == '+' || c == '-' || c == '.'
  }

  /** Where urlsplit finds a scheme: a first `:` after a letter and scheme characters only. */
  function SchemeEnd(url: string): (r: Option<nat>)
    ensures r.Some? ==> 0 < r.value < |url| && url[r.value] == ':'
  {
    match Find(url, ':')
    case None => None
    case Some(i) => if i > 0 && IsAsciiLetter(url[0]) && forall j :: 0 <= j < i ==> IsSchemeChar(url[j]) then Some(i) else None
  }

  /** The schemes for which urlparse splits `;params` off the path. */
  const UsesParams: set<string> := {"", "ftp", "hdl", "prospero", "http", "imap", "https", "shttp", "rtsp", "rtsps",
                                    "rtspu", "sip", "sips", "mms", "sftp", "tel"}

  /** urlparse's `_splitparams`: the path with its `;params` removed. */
  function CutParams(path: string): (r: string)
    ensures r <= path
    ensures r != path ==> path[|r|] == ';' && forall j :: |r| < j < |path| ==> path[j] != '/'
    ensures forall j :: 0 <= j < |r| && path[j] == ';' ==> exists k :: j < k < |path| && path[k] == '/'
  {
    match RFind(path, '/')
    case Some(slash) =>
      (match Find(path[slash..], ';')
       case None => path
       case Some(i) => path[..slash + i])
    case None =>
      match Find(path, ';')
      case None => path
      case Some(i) => path[..i]
  }

  /** A prefix free of `stops` that ends at the end of `s` or at a stop character is the span. */
  lemma {:induction false} SpanUntilIs(s: string, stops: set<char>, n: nat)
    requires n <= |s| && (forall j :: 0 <= j < n ==> s[j] !in stops) && (n < |s| ==> s[n] in stops)
    ensures SpanUntil(s, stops) == n
  {
    if n > 0 {
      SpanUntilIs(s[1..], stops, n - 1);
    }
  }

  /** The path once `;params` are split off, which urlparse does only for the schemes that use them. */
  function ParamsCut(scheme: string, path: string): (r: string)
    ensures r <= path
    ensures scheme !in UsesParams || ';' !in path ==> r == path
    ensures scheme in UsesParams && ';' in path ==> r == CutParams(path)
  {
    if scheme in UsesParams && ';' in path then CutParams(path) else path
  }

  /** The pieces of urlparse(url) the downloader needs. */
  datatype Parsed = Parsed(scheme: string, path: string)

  /** urlsplit's scheme step: the lower-cased scheme and what follows its `:`, or no scheme and the whole URL. */
  function SplitScheme(url: string): (string, string)
  {
    match SchemeEnd(url)
    case None => ("", url)
    case Some(e) => (Lower(url[..e]), url[e + 1..])
  }

  /** urlsplit's netloc step: what follows a leading `//netloc`, the netloc ending at the first of `/?#`. */
  function SkipNetloc(rest: string): string
  {
    if |rest| >= 2 && rest[..2] == "//" then rest[2 + SpanUntil(rest[2..], {'/', '?', '#'})..] else rest
  }

  /**
   * The scheme step keeps a suffix of the URL: either all of it, with no scheme,
   * or what follows a `:` that comes after a lower-cased scheme starting with a letter.
   */
  lemma SplitSchemeParts(url: string)
    ensures var r := SplitScheme(url); |r.1| <= |url| && r.1 == url[|url| - |r.1|..]
    ensures var r := SplitScheme(url); r.1 != url ==> |r.0| + 1 + |r.1| == |url| && url[|r.0|] == ':' && IsAsciiLetter(url[0])
    ensures var r := SplitScheme(url); r.1 == url ==> r.0 == []
    ensures var r := SplitScheme(url); forall i :: 0 <= i < |r.0| ==> !IsUpper(r.0[i])
  {
  }

  /** The netloc step keeps a suffix: the whole text without `//`, else what follows the netloc, which holds none of `/?#`. */
  lemma SkipNetlocSkips(rest: string)
    ensures var r := SkipNetloc(rest); |r| <= |rest| && r == rest[|rest| - |r|..]
    ensures !("//" <= rest) ==> SkipNetloc(rest) == rest
    ensures var r := SkipNetloc(rest); "//" <= rest ==> |r| <= |rest| - 2 && (r == [] || r[0] == '/' || r[0] == '?' || r[0] == '#')
    ensures var r := SkipNetloc(rest);
      "//" <= rest ==> forall j :: 2 <= j < |rest| - |r| ==> rest[j] != '/' && rest[j] != '?' && rest[j] != '#'
  {
  }

  /** urlsplit's path: everything up to the first `?` or `#`. */
  function PathPart(s: string): (path: string)
    ensures path <= s
    ensures forall j :: 0 <= j < |path| ==> path[j] != '?' && path[j] != '#'
    ensures |path| < |s| ==> s[|path|] == '?' || s[|path|] == '#'
  {
    s[..SpanUntil(s, {'?', '#'})]
  }

  /**
   * `urlparse(url)`: scheme (lower-cased), then a `//netloc` up to the first of
   * `/?#`, then the path up to the first of `?#`, then `;params` off the path for
   * the schemes that use them.
   */
  function UrlParse(url: string): (p: Parsed)
    ensures forall j :: 0 <= j < |p.path| ==> p.path[j] != '?' && p.path[j] != '#'
  {
    var split := SplitScheme(url);
    var path := PathPart(SkipNetloc(split.1));
    Parsed(split.0, ParamsCut(split.0, path))
  }

  /** A scheme of letters followed by `:` is found, and what follows the `:` is the rest. */
  lemma SchemeOfShape(scheme: string, rest: string)
    requires scheme != [] && forall j :: 0 <= j < |scheme| ==> IsAsciiLetter(scheme[j])
    ensures SplitScheme(scheme + ":" + rest) == (Lower(scheme), rest)
  {
    var url := scheme + ":" + rest;
    var e := |scheme|;
    assert url[e] == ':';
    assert forall j :: 0 <= j < e ==> url[j] == scheme[j];
    assert forall j :: 0 <= j < e ==> url[j] != ':';
    assert Find(url, ':') == Some(e);
    assert SchemeEnd(url) == Some(e);
    assert url[..e] == scheme && url[e + 1..] == rest;
  }

  /** After `//`, a host free of `/?#` is skipped up to the path and what follows it. */
  lemma NetlocOfShape(netloc: string, after: string)
    requires forall j :: 0 <= j < |netloc| ==> netloc[j] != '/' && netloc[j] != '?' && netloc[j] != '#'
    requires after == [] || after[0] == '/' || after[0] == '?' || after[0] == '#'
    ensures SkipNetloc("//" + netloc + after) == after
  {
    var rest := "//" + netloc + after;
    assert rest[..2] == "//" && rest[2..] == netloc + after;
    SpanUntilIs(netloc + after, {'/', '?', '#'}, |netloc|);
    assert rest[2 + |netloc|..] == after;
  }

  /** A path free of `?#` followed by nothing, a query or a fragment: the path part is that path. */
  lemma PathPartOfShape(path: string, tail: string)
    requires forall j :: 0 <= j < |path| ==> path[j] != '?' && path[j] != '#'
    requires tail == [] || tail[0] == '?' || tail[0] == '#'
    ensures PathPart(path + tail) == path
  {
    SpanUntilIs(path + tail, {'?', '#'}, |path|);
    assert (path + tail)[..|path|] == path;
  }

  /**
   * The shape of the URLs the index lists: a scheme of letters, `://`, a host
   * (and port) free of `/?#`, a path that is empty or starts with `/` and has
   * no `?#;`, then nothing or a query or fragment. urlparse's path is that path.
   */
  lemma UrlParseOfShape(scheme: string, netloc: string, path: string, tail: string)
    requires scheme != [] && forall j :: 0 <= j < |scheme| ==> IsAsciiLetter(scheme[j])
    requires forall j :: 0 <= j < |netloc| ==> netloc[j] != '/' && netloc[j] != '?' && netloc[j] != '#'
    requires path == [] || path[0] == '/'
    requires forall j :: 0 <= j < |path| ==> path[j] != '?' && path[j] != '#' && path[j] != ';'
    requires tail == [] || tail[0] == '?' || tail[0] == '#'
    ensures UrlParse(scheme + "://" + netloc + path + tail).path == path
  {
    var after := path + tail;
    assert after == [] || after[0] == '/' || after[0] == '?' || after[0] == '#';
    assert scheme + "://" + netloc + path + tail == scheme + ":" + ("//" + netloc + after);
    SchemeOfShape(scheme, "//" + netloc + after);
    NetlocOfShape(netloc, after);
    PathPartOfShape(path, tail);
    assert ';' !in path;
  }

  /** urlparse on a bare host with a trailing `/`. */
  lemma BareHostPath()
    ensures UrlParse("http://example.com/").path == "/"
  {
    assert "http://example.com/" == "http" + "://" + "example.com" + "/" + "";
    UrlParseOfShape("http", "example.com", "/", "");
  }

  /** `os.path.basename(p)`: the text after the last `/` (all of `p` when it has none). */
  function Basename(p: string): (r: string)
    ensures |r| <= |p| && r == p[|p| - |r|..]
    ensures forall j :: 0 <= j < |r| ==> r[j] != '/'
    ensures |r| < |p| ==> p[|p| - |r| - 1] == '/'
  {
    match RFind(p, '/')
    case None => p
    case Some(i) => p[i + 1..]
  }

  /** The basename is empty exactly for an empty path or one ending in `/`. */
  lemma BasenameEmptyIff(p: string)
    ensures Basename(p) == "" <==> p == "" || p[|p| - 1] == '/'
  {
  }

  /** The basename of a path ending in `/name`, where `name` has no `/`, is `name`. */
  lemma BasenameOfLast(dir: string, name: string)
    requires forall j :: 0 <= j < |name| ==> name[j] != '/'
    ensures Basename(dir + "/" + name) == name
  {
    var p := dir + "/" + name;
    assert p[|dir|] == '/' && p[|dir| + 1..] == name;
    assert forall j :: |dir| < j < |p| ==> p[j] != '/';
  }

  /** `os.path.join(a, b)` on POSIX. */
  function PathJoin(a: string, b: string): (r: string)
    ensures |r| >= |b| && r[|r| - |b|..] == b
    ensures b == [] || b[0] != '/' ==> a <= r && |r| <= |a| + 1 + |b|
    ensures b != [] && b[0] == '/' ==> r == b
    ensures b == [] || b[0] != '/' ==> |r| == |a| + |b| + (if a == [] || a[|a| - 1] == '/' then 0 else 1)
    ensures (b == [] || b[0] != '/') && |r| == |a| + 1 + |b| ==> r[|a|] == '/'
  {
    if b != [] && b[0] == '/' then b
    else if a == [] || a[|a| - 1] == '/' then a + b
    else a + "/" + b
  }

  /** Joining one directory with two names that do not start with `/` gives different paths for different names. */
  lemma PathJoinInjective(dir: string, b1: string, b2: string)
    requires (b1 == [] || b1[0] != '/') && (b2 == [] || b2[0] != '/')
    requires PathJoin(dir, b1) == PathJoin(dir, b2)
    ensures b1 == b2
  {
    var p := PathJoin(dir, b1);
    if dir == [] || dir[|dir| - 1] == '/' {
      assert b1 == p[|dir|..] && b2 == p[|dir|..];
    } else {
      assert b1 == p[|dir| + 1..] && b2 == p[|dir| + 1..];
    }
  }
}
