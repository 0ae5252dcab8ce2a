/**
 * The part of Python's `urllib.parse` the feeds rely on: `urlsplit`'s scheme
 * and network location, `urljoin` of a store URL with an absolute path, and
 * `os.path.basename(urlparse(url).path)`, the last segment of a URL's path.
 */
module Urls {
  import opened Values
  import opened Text

  predicate IsSlash(c: char)
  {
    c == '/'
  }

  /** `s.rstrip('/')`: `s` without its trailing run of slashes. */
  function RStripSlashes(s: string): (r: string)
    ensures StartsWith(s, r)
    ensures r == [] || r[|r| - 1] != '/'
    ensures forall i :: |r| <= i < |s| ==> s[i] == '/'
  {
    TrimRightShape(s, IsSlash);
    TrimRight(s, IsSlash)
  }

  /** `s.startswith(('http://', 'https://'))`. */
  predicate HasScheme(s: string)
  {
    StartsWith(s, "http://") || StartsWith(s, "https://")
  }

  /**
   * Python's `uses_relative` table: the schemes `urljoin` resolves against.
   * Each of them is also in `uses_netloc`, so a join keeps the base's
   * network location.
   */
  const UsesRelative: set<string> := {
    "", "ftp", "http", "gopher", "nntp", "imap", "wais", "file", "https", "shttp",
    "mms", "prospero", "rtsp", "rtsps", "rtspu", "sftp", "svn", "svn+ssh", "ws", "wss"
  }

  /** Python's `uses_params` table: the schemes whose last path segment may carry `;params`. */
  const UsesParams: set<string> := {
    "", "ftp", "hdl", "prospero", "http", "imap", "https", "shttp", "rtsp", "rtsps",
    "rtspu", "sip", "sips", "mms", "sftp", "tel"
  }

  predicate IsSchemeChar(c: char)
  {
    IsAsciiLower(c) || IsAsciiUpper(c) || IsDigit(c) || c == '+' || c == '-' || c == '.'
  }

  /**
   * `urlsplit`'s scheme: the lower-cased text before the first `:` when it
   * starts with a letter and holds only scheme characters, with what follows
   * the colon; otherwise no scheme and the whole URL.
   */
  function SplitScheme(url: string): (r: (string, string))
    ensures r.0 == [] ==> r.1 == url
    ensures r.0 != [] ==> (|url| == |r.0| + 1 + |r.1| && url[|r.0|] == ':'
      && r.1 == url[|r.0| + 1..] && r.0 == Lower(url[..|r.0|])
      && ':' !in url[..|r.0|] && AllChars(url[..|r.0|], IsSchemeChar))
  {
    match FirstIndex(url, ':')
    case None => ([], url)
    case Some(i) =>
      if i > 0 && (IsAsciiLower(url[0]) || IsAsciiUpper(url[0])) && AllChars(url[..i], IsSchemeChar)
      then (Lower(url[..i]), url[i + 1..])
      else ([], url)
  }

  /** A character that ends a URL's authority. */
  predicate IsAuthorityEnd(c: char)
  {
    c == '/' || c == '?' || c == '#'
  }

  /** How long the authority at the front of `s` is: up to the first `/`, `?` or `#`. */
  function AuthorityLength(s: string): (n: nat)
    ensures n <= |s|
    ensures forall i :: 0 <= i < n ==> !IsAuthorityEnd(s[i])
    ensures n < |s| ==> IsAuthorityEnd(s[n])
  {
    if s == [] || IsAuthorityEnd(s[0]) then 0 else 1 + AuthorityLength(s[1..])
  }

  /** `urlsplit`'s network location, which follows a leading `//`, and the text after it. */
  function SplitNetloc(rest: string): (r: (string, string))
    ensures !StartsWith(rest, "//") ==> r == ([], rest)
    ensures StartsWith(rest, "//") ==> (rest == "//" + r.0 + r.1
      && (forall i :: 0 <= i < |r.0| ==> !IsAuthorityEnd(r.0[i]))
      && (r.1 == [] || IsAuthorityEnd(r.1[0])))
  {
    if StartsWith(rest, "//") then
      var n := AuthorityLength(rest[2..]);
      assert rest == "//" + rest[2..2 + n] + rest[2 + n..];
      (rest[2..2 + n], rest[2 + n..])
    else ([], rest)
  }

  /**
   * `urljoin(base, ref)` for a reference that is an absolute path: under a
   * scheme `urljoin` resolves, the base's scheme and network location are
   * kept and its path, query and fragment give way to the reference
   * (section 5.2.2 of RFC 3986); under any other scheme the reference is
   * returned as it is.
   */
  function UrlJoin(base: string, ref: string): (r: string)
    requires StartsWith(ref, "/") && !StartsWith(ref, "//")
    ensures EndsWith(r, ref)
    ensures SplitScheme(base).0 !in UsesRelative ==> r == ref
  {
    var (scheme, rest) := SplitScheme(base);
    if scheme !in UsesRelative then ref
    else
      var netloc := SplitNetloc(rest).0;
      var origin := if scheme != [] then scheme + "://" + netloc
        else if netloc != [] then "//" + netloc
        else [];
      origin + ref
  }

  /** An `http` or `https` scheme is split off as it is. */
  lemma SchemeOf(scheme: string, rest: string)
    requires scheme == "http" || scheme == "https"
    ensures SplitScheme(scheme + ":" + rest) == (scheme, rest)
  {
    var url := scheme + ":" + rest;
    assert url[..|scheme|] == scheme;
    assert url[|scheme|] == ':';
    assert url[|scheme| + 1..] == rest;
    assert FirstIndex(url, ':') == Some(|scheme|);
    assert IsAsciiLower(url[0]) && AllChars(scheme, IsSchemeChar);
    LowerNoUpper(scheme);
  }

  /** After `//`, the authority runs to the first `/`, `?` or `#`. */
  lemma NetlocOf(host: string, tail: string)
    requires forall i :: 0 <= i < |host| ==> !IsAuthorityEnd(host[i])
    requires tail == [] || IsAuthorityEnd(tail[0])
    ensures SplitNetloc("//" + host + tail) == (host, tail)
  {
    var rest := "//" + host + tail;
    assert rest[2..] == host + tail;
    assert forall i :: 0 <= i < |host| ==> (host + tail)[i] == host[i];
    assert tail != [] ==> (host + tail)[|host|] == tail[0];
    var n := AuthorityLength(host + tail);
    assert rest[2..2 + n] == host && rest[2 + n..] == tail;
  }

  /**
   * Joining an absolute path onto `scheme://host` followed by any path,
   * query or fragment gives `scheme://host` and the path: the base's own
   * path is replaced.
   */
  lemma JoinOrigin(scheme: string, host: string, path: string, ref: string)
    requires scheme == "http" || scheme == "https"
    requires forall i :: 0 <= i < |host| ==> !IsAuthorityEnd(host[i])
    requires path == [] || IsAuthorityEnd(path[0])
    requires StartsWith(ref, "/") && !StartsWith(ref, "//")
    ensures UrlJoin(scheme + "://" + host + path, ref) == scheme + "://" + host + ref
  {
    var rest := "//" + host + path;
    assert scheme + "://" + host + path == scheme + ":" + rest;
    SchemeOf(scheme, rest);
    NetlocOf(host, path);
  }

  // ---------------------------------------------------------------- path

  /** The index just after the last `/` of `p`, or 0 when there is none. */
  function LastSlashEnd(p: string): (n: nat)
    ensures n <= |p|
    ensures '/' !in p[n..]
    ensures n > 0 ==> p[n - 1] == '/'
  {
    if p == [] then 0
    else if p[|p| - 1] == '/' then |p|
    else
      var n := LastSlashEnd(p[..|p| - 1]);
      assert p[n..] == p[..|p| - 1][n..] + [p[|p| - 1]];
      n
  }

  /** `os.path.basename(p)`: what follows the last `/`. */
  function BaseName(p: string): (r: string)
    ensures '/' !in r && EndsWith(p, r)
    ensures forall x :: x in r ==> x in p
  {
    var k := LastSlashEnd(p);
    assert forall i :: k <= i < |p| ==> p[k..][i - k] == p[i];
    p[k..]
  }

  /** `urlparse`'s path: `;params` of the last segment are split off under the schemes that have them. */
  function DropParams(p: string): (r: string)
    ensures forall x :: x in r ==> x in p
  {
    var k := LastSlashEnd(p);
    BeforeFirstChars(p[k..], ';');
    var r := p[..k] + BeforeFirst(p[k..], ';');
    assert forall x :: x in p[k..] ==> x in p;
    assert forall x :: x in p[..k] ==> x in p;
    r
  }

  /** `urlparse(url).path`: after the network location, before any fragment or query. */
  function UrlPath(url: string): (p: string)
    ensures '?' !in p && '#' !in p
  {
    var (scheme, rest) := SplitScheme(url);
    var path := BeforeFirst(BeforeFirst(SplitNetloc(rest).1, '#'), '?');
    BeforeFirstChars(SplitNetloc(rest).1, '#');
    BeforeFirstChars(BeforeFirst(SplitNetloc(rest).1, '#'), '?');
    if scheme in UsesParams then DropParams(path) else path
  }

  /** `os.path.basename(urlparse(url).path)`: no `/`, `?` or `#` is left in it. */
  function LastSegment(url: string): (r: string)
    ensures '/' !in r && '?' !in r && '#' !in r
  {
    BaseName(UrlPath(url))
  }

  /** The text before the first `c` keeps only characters of `s`. */
  lemma BeforeFirstChars(s: string, c: char)
    ensures forall x :: x in BeforeFirst(s, c) ==> x in s
  {
    var r := BeforeFirst(s, c);
    forall x | x in r ensures x in s {
      var i :| 0 <= i < |r| && r[i] == x;
      assert s[i] == x;
    }
  }

  /** After a directory that ends with `/`, the last slash is that one. */
  lemma {:induction false} LastSlashEndAppend(dir: string, s: string)
    requires dir == [] || dir[|dir| - 1] == '/'
    requires '/' !in s
    ensures LastSlashEnd(dir + s) == |dir|
    decreases |s|
  {
    if s == [] {
      assert dir + s == dir;
    } else {
      var t := dir + s;
      assert t[|t| - 1] == s[|s| - 1];
      assert t[..|t| - 1] == dir + s[..|s| - 1];
      LastSlashEndAppend(dir, s[..|s| - 1]);
    }
  }

  /** Cutting at the first `c` of `x + t` stops inside `t` when `x` has no `c`. */
  lemma {:induction false} BeforeFirstAppend(x: string, t: string, c: char)
    requires c !in x
    ensures BeforeFirst(x + t, c) == x + BeforeFirst(t, c)
  {
    if x != [] {
      assert (x + t)[1..] == x[1..] + t;
      BeforeFirstAppend(x[1..], t, c);
    } else {
      assert x + t == t;
    }
  }

  /** Without a `c`, nothing is cut. */
  lemma {:induction false} BeforeFirstAbsent(s: string, c: char)
    requires c !in s
    ensures BeforeFirst(s, c) == s
  {
    if s != [] { BeforeFirstAbsent(s[1..], c); }
  }

  /** A path followed by an optional query or fragment loses exactly that tail. */
  lemma QueryFragmentCut(x: string, tail: string)
    requires '?' !in x && '#' !in x
    requires tail == [] || tail[0] == '?' || tail[0] == '#'
    ensures BeforeFirst(BeforeFirst(x + tail, '#'), '?') == x
  {
    BeforeFirstAppend(x, tail, '#');
    var t := BeforeFirst(tail, '#');
    assert t == [] || t[0] == '?';
    BeforeFirstAppend(x, t, '?');
    assert BeforeFirst(t, '?') == [];
    assert x + [] == x;
  }

  /** A last segment without `;` loses nothing to the parameter split. */
  lemma DropParamsNone(dir: string, name: string)
    requires dir == [] || dir[|dir| - 1] == '/'
    requires '/' !in name && ';' !in name
    ensures DropParams(dir + name) == dir + name
    ensures BaseName(dir + name) == name
  {
    LastSlashEndAppend(dir, name);
    var p := dir + name;
    assert p[..|dir|] == dir && p[|dir|..] == name;
    BeforeFirstAbsent(name, ';');
  }

  /** Under `http` or `https`, the path is what follows the authority, cut as `urlparse` cuts it. */
  lemma UrlPathOf(scheme: string, host: string, q: string)
    requires scheme == "http" || scheme == "https"
    requires forall i :: 0 <= i < |host| ==> !IsAuthorityEnd(host[i])
    requires q == [] || IsAuthorityEnd(q[0])
    ensures UrlPath(scheme + "://" + host + q) == DropParams(BeforeFirst(BeforeFirst(q, '#'), '?'))
  {
    assert scheme + "://" + host + q == scheme + ":" + ("//" + host + q);
    SchemeOf(scheme, "//" + host + q);
    NetlocOf(host, q);
  }

  /**
   * The last segment of `scheme://host` + a directory + `/name`, followed by
   * an optional query or fragment, is `name`.
   */
  lemma LastSegmentOf(scheme: string, host: string, dir: string, name: string, tail: string)
    requires scheme == "http" || scheme == "https"
    requires forall i :: 0 <= i < |host| ==> !IsAuthorityEnd(host[i])
    requires (dir == [] || dir[0] == '/') && '?' !in dir && '#' !in dir
    requires '/' !in name && '?' !in name && '#' !in name && ';' !in name
    requires tail == [] || tail[0] == '?' || tail[0] == '#'
    ensures LastSegment(scheme + "://" + host + (dir + "/" + name + tail)) == name
  {
    var d := dir + "/";
    var x := d + name;
    assert (x + tail)[0] == d[0];
    UrlPathOf(scheme, host, x + tail);
    QueryFragmentCut(x, tail);
    DropParamsNone(d, name);
  }
}
