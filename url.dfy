/**
 * URL from url.py: `parse_url` splits an absolute http(s) URL into scheme,
 * host, path and optional port, and `resolve` turns a link found in a page
 * into an absolute URL against the page's own scheme, host, path and port.
 *
 * `resolve` reads the fields that `request` fills in; here they are the
 * `Base` argument. After `request` the port is always a number (the parsed
 * one, or 80/443), so `Base.port` is a nat.
 */
module Url {
  import opened Wrappers
  import opened Strings

  /** What `parse_url` returns: (scheme, host, "/" + path, port or None). */
  datatype ParsedUrl = ParsedUrl(scheme: string, host: string, path: string, port: Option<nat>)

  /** The fields `resolve` reads: `self.scheme`, `self.host`, `self.path`, `self.port`. */
  datatype Base = Base(scheme: string, host: string, path: string, port: nat)

  // ---------------------------------------------------------------------------
  // Splitting helpers

  /** The first occurrence of pat in s at or after i. */
  function FindFrom(s: string, pat: string, i: nat): (r: Option<nat>)
    requires i <= |s|
    ensures r.Some? ==> i <= r.value && OccursAt(s, pat, r.value)
    ensures r.Some? ==> forall k :: i <= k < r.value ==> !OccursAt(s, pat, k)
    ensures r.None? ==> forall k :: i <= k <= |s| ==> !OccursAt(s, pat, k)
    decreases |s| - i
  {
    if OccursAt(s, pat, i) then Some(i)
    else if i == |s| then None
    else FindFrom(s, pat, i + 1)
  }

  /** The first occurrence of pat in s, as `s.split(pat, 1)` finds it. */
  function Find(s: string, pat: string): (r: Option<nat>)
    ensures r.Some? ==> OccursAt(s, pat, r.value) && forall k :: 0 <= k < r.value ==> !OccursAt(s, pat, k)
    ensures r.None? <==> !Contains(s, pat)
  {
    FindFrom(s, pat, 0)
  }

  /** The index of the first c in s: where `s.split(c, 1)` cuts. */
  function FirstIndex(s: string, c: char): (r: nat)
    requires c in s
    ensures r < |s| && s[r] == c && c !in s[..r]
  {
    if s[0] == c then 0
    else
      assert c in s[1..] by { var k :| 0 <= k < |s| && s[k] == c; assert s[1..][k - 1] == c; }
      var r := 1 + FirstIndex(s[1..], c);
      assert s[..r] == [s[0]] + s[1..][..r - 1];
      r
  }

  /** The index of the last c in s: where `s.rsplit(c, 1)` cuts. */
  function LastIndex(s: string, c: char): (r: nat)
    requires c in s
    ensures r < |s| && s[r] == c && c !in s[r + 1..]
  {
    if s[|s| - 1] == c then |s| - 1
    else
      var init := s[..|s| - 1];
      assert c in init by { var k :| 0 <= k < |s| && s[k] == c; assert init[k] == c; }
      var r := LastIndex(init, c);
      assert s[r + 1..] == init[r + 1..] + [s[|s| - 1]];
      r
  }

  /** The first c is at j when s[j] is c and none comes before it. */
  lemma FirstIndexAt(s: string, c: char, j: nat)
    requires j < |s| && s[j] == c && c !in s[..j]
    ensures FirstIndex(s, c) == j
  {
  }

  /** The last c is at j when s[j] is c and none comes after it. */
  lemma LastIndexAt(s: string, c: char, j: nat)
    requires j < |s| && s[j] == c && c !in s[j + 1..]
    ensures LastIndex(s, c) == j
  {
  }

  // ---------------------------------------------------------------------------
  // parse_url

  /**
   * `host, path = url.split("/", 1)` after a "/" is added to a URL that has
   * none: the host runs up to the first "/", and the path (with the "/" put
   * back, as `parse_url` returns it) is the rest.
   */
  function SplitPath(after: string): (r: (string, string))
    ensures '/' !in r.0 && StartsWith(r.1, "/")
  {
    var rest := if '/' in after then after else after + "/";
    var j := FirstIndex(rest, '/');
    (rest[..j], "/" + rest[j + 1..])
  }

  /** `host.split(":", 1)` and `int(port)` when the host holds a ":"; no port otherwise. */
  function SplitPort(host: string): (r: Result<(string, Option<nat>), string>)
    ensures r.Success? ==> ':' !in r.value.0
    ensures r.Success? && '/' !in host ==> '/' !in r.value.0
    ensures ':' !in host ==> r == Success((host, None))
  {
    if ':' in host then
      var c := FirstIndex(host, ':');
      assert forall q :: 0 <= q < c ==> host[..c][q] == host[q];
      match ParseNat(host[c + 1..])
      case None => Failure("invalid literal for int()")
      case Some(port) => Success((host[..c], Some(port)))
    else
      Success((host, None))
  }

  /**
   * `parse_url`: fails unless "://" occurs and the text before its first
   * occurrence is "http" or "https"; the host runs up to the first "/" after
   * it (a URL with no "/" there gets path "/"), and a ":" in the host splits
   * off a decimal port.
   */
  function ParseUrl(url: string): (r: Result<ParsedUrl, string>)
    ensures !Contains(url, "://") ==> r.Failure?
    ensures r.Success? ==> r.value.scheme == "http" || r.value.scheme == "https"
    ensures r.Success? ==> StartsWith(url, r.value.scheme + "://")
    ensures r.Success? ==> StartsWith(r.value.path, "/") && '/' !in r.value.host && ':' !in r.value.host
  {
    match Find(url, "://")
    case None => Failure("not enough values to unpack")
    case Some(k) =>
      var scheme := url[..k];
      if scheme != "http" && scheme != "https" then Failure("Unknown scheme " + scheme)
      else
        assert url[..k + 3] == scheme + "://";
        var (hostPort, path) := SplitPath(url[k + 3..]);
        match SplitPort(hostPort)
        case Failure(e) => Failure(e)
        case Success((host, port)) => Success(ParsedUrl(scheme, host, path, port))
  }

  /** The URL text a parse result comes from: the inverse of `parse_url`. */
  function Unparse(u: ParsedUrl): string {
    u.scheme + "://" + u.host + (if u.port.Some? then ":" + NatToString(u.port.value) else "") + u.path
  }

  /** The results `parse_url` can give: an http(s) scheme, a host with neither ":" nor "/", a path from "/". */
  predicate WellFormed(u: ParsedUrl) {
    (u.scheme == "http" || u.scheme == "https") && ':' !in u.host && '/' !in u.host && StartsWith(u.path, "/")
  }

  /** The first "://" of a URL that starts with an http(s) scheme is the one right after the scheme. */
  lemma SchemeSeparator(scheme: string, rest: string)
    requires ':' !in scheme
    ensures Find(scheme + "://" + rest, "://") == Some(|scheme|)
  {
    var url := scheme + "://" + rest;
    assert OccursAt(url, "://", |scheme|) by { assert url[|scheme|..|scheme| + 3] == "://"; }
    forall k | 0 <= k < |scheme|
      ensures !OccursAt(url, "://", k)
    {
      assert url[k] == scheme[k];
      assert url[k..k + 3][0] == url[k];
    }
  }

  /** The parse of a URL that starts with a scheme and "://". */
  lemma ParseAfterScheme(scheme: string, rest: string)
    requires scheme == "http" || scheme == "https"
    ensures ParseUrl(scheme + "://" + rest) ==
      match SplitPort(SplitPath(rest).0)
      case Failure(e) => Failure(e)
      case Success((host, port)) => Success(ParsedUrl(scheme, host, SplitPath(rest).1, port))
  {
    var url := scheme + "://" + rest;
    SchemeSeparator(scheme, rest);
    assert url[..|scheme|] == scheme;
    assert url[|scheme| + 3..] == rest;
  }

  /** The authority and path of a link split back into the two. */
  lemma SplitPathOf(host: string, path: string)
    requires '/' !in host && StartsWith(path, "/")
    ensures SplitPath(host + path) == (host, path)
  {
    var rest := host + path;
    assert rest[|host|] == '/';
    assert rest[..|host|] == host;
    FirstIndexAt(rest, '/', |host|);
    assert rest[|host| + 1..] == path[1..];
    assert "/" + path[1..] == path;
  }

  /** A host and port split back into the two. */
  lemma SplitPortOf(host: string, port: nat)
    requires ':' !in host
    ensures SplitPort(host + ":" + NatToString(port)) == Success((host, Some(port)))
  {
    var hp := host + ":" + NatToString(port);
    assert hp[|host|] == ':';
    assert hp[..|host|] == host;
    FirstIndexAt(hp, ':', |host|);
    assert hp[|host| + 1..] == NatToString(port);
    ParseNatToString(port);
  }

  /** Round trip: every result `parse_url` can give is what it gives back for its own text. */
  lemma ParseUnparse(u: ParsedUrl)
    requires WellFormed(u)
    ensures ParseUrl(Unparse(u)) == Success(u)
  {
    if u.port.Some? {
      var hp := u.host + ":" + NatToString(u.port.value);
      assert '/' !in hp by {
        var digits := NatToString(u.port.value);
        assert forall q :: 0 <= q < |digits| ==> IsDigit(digits[q]);
        assert forall q :: 0 <= q < |hp| ==> hp[q] == (if q < |u.host| then u.host[q] else if q == |u.host| then ':' else digits[q - |u.host| - 1]);
      }
      assert Unparse(u) == u.scheme + "://" + (hp + u.path);
      ParseAfterScheme(u.scheme, hp + u.path);
      SplitPathOf(hp, u.path);
      SplitPortOf(u.host, u.port.value);
    } else {
      assert Unparse(u) == u.scheme + "://" + (u.host + u.path);
      ParseAfterScheme(u.scheme, u.host + u.path);
      SplitPathOf(u.host, u.path);
    }
  }

  /** A URL with nothing after the host gets the root path (tests: "http://example.org"). */
  lemma BareHostGetsRoot(scheme: string, host: string)
    requires scheme == "http" || scheme == "https"
    requires ':' !in host && '/' !in host
    ensures ParseUrl(scheme + "://" + host) == Success(ParsedUrl(scheme, host, "/", None))
  {
    ParseAfterScheme(scheme, host);
    var rest := host + "/";
    assert rest[..|host|] == host;
    FirstIndexAt(rest, '/', |host|);
    assert rest[|host| + 1..] == "";
    assert "/" + rest[|host| + 1..] == "/";
    assert SplitPath(host) == (host, "/");
    assert SplitPort(host) == Success((host, None));
  }

  /** A scheme other than http and https is refused. */
  lemma UnknownSchemeFails(scheme: string, rest: string)
    requires scheme != "http" && scheme != "https" && ':' !in scheme
    ensures ParseUrl(scheme + "://" + rest).Failure?
  {
    SchemeSeparator(scheme, rest);
    assert (scheme + "://" + rest)[..|scheme|] == scheme;
  }

  // ---------------------------------------------------------------------------
  // resolve

  /** `dir.rsplit("/", 1)[0]` when dir holds a "/"; otherwise dir is kept. */
  function Parent(dir: string): (r: string)
    ensures StartsWith(dir, r)
    ensures '/' in dir ==> |r| < |dir|
  {
    if '/' in dir then dir[..LastIndex(dir, '/')] else dir
  }

  /** The loop over leading "../": each one is dropped and takes one segment off dir. */
  function Climb(dir: string, url: string): (string, string)
    decreases |url|
  {
    if StartsWith(url, "../") then Climb(Parent(dir), url[3..]) else (dir, url)
  }

  /** The host-relative form: scheme, host and an explicit port before the path. */
  function HostRelative(b: Base, path: string): string {
    b.scheme + "://" + b.host + ":" + NatToString(b.port) + path
  }

  /** The directory of the base path: everything before its last "/". */
  function BaseDir(path: string): string
    requires '/' in path
  {
    path[..LastIndex(path, '/')]
  }

  /**
   * The path a relative URL stands for: a "/"-prefixed URL as it is, any
   * other joined to the base directory after its leading "../" are climbed.
   */
  function Joined(b: Base, url: string): string
    requires StartsWith(url, "/") || '/' in b.path
  {
    if StartsWith(url, "/") then url
    else
      var (d, u) := Climb(BaseDir(b.path), url);
      d + "/" + u
  }

  /** A joined path made absolute: "//" takes the base scheme, anything else the base scheme, host and port. */
  function Absolute(b: Base, joined: string): string {
    if StartsWith(joined, "//") then b.scheme + ":" + joined
    else HostRelative(b, joined)
  }

  /**
   * `resolve`: a URL holding "://" is taken as it is. A URL not starting with
   * "/" needs a "/" in the base path (`rsplit` fails otherwise).
   */
  function Resolved(b: Base, url: string): Result<string, string> {
    if Contains(url, "://") then Success(url)
    else if !StartsWith(url, "/") && '/' !in b.path then Failure("not enough values to unpack")
    else Success(Absolute(b, Joined(b, url)))
  }

  /** `resolve` as written: a loop that strips "../" from the link and segments from the directory. */
  method Resolve(b: Base, url: string) returns (r: Result<string, string>)
    ensures r == Resolved(b, url)
  {
    if Contains(url, "://") {
      return Success(url);
    }
    var link := url;
    if !StartsWith(link, "/") {
      if '/' !in b.path {
        return Failure("not enough values to unpack");
      }
      var dir := b.path[..LastIndex(b.path, '/')];
      while StartsWith(link, "../")
        invariant Climb(dir, link) == Climb(BaseDir(b.path), url)
        decreases |link|
      {
        assert link[2] == '/' && '/' !in link[..2];
        var slash := FirstIndex(link, '/');
        link := link[slash + 1..];
        if '/' in dir {
          dir := dir[..LastIndex(dir, '/')];
        }
      }
      link := dir + "/" + link;
    }
    if StartsWith(link, "//") {
      r := Success(b.scheme + ":" + link);
    } else {
      r := Success(HostRelative(b, link));
    }
  }

  // ---------------------------------------------------------------------------
  // Properties of resolve

  /** Every URL `resolve` gives is absolute: it holds "://". */
  lemma ResolvedIsAbsolute(b: Base, url: string)
    requires Resolved(b, url).Success?
    ensures Contains(Resolved(b, url).value, "://")
  {
    if !Contains(url, "://") {
      AbsoluteHasSeparator(b, Joined(b, url));
    }
  }

  lemma AbsoluteHasSeparator(b: Base, joined: string)
    ensures Contains(Absolute(b, joined), "://")
  {
    if StartsWith(joined, "//") {
      assert (":" + joined)[..3] == "://";
      SeparatorAfter(b.scheme, ":" + joined);
      assert b.scheme + ":" + joined == b.scheme + (":" + joined);
    } else {
      var rest := "://" + b.host + ":" + NatToString(b.port) + joined;
      assert rest[..3] == "://";
      SeparatorAfter(b.scheme, rest);
      assert HostRelative(b, joined) == b.scheme + rest;
    }
  }

  lemma SeparatorAfter(a: string, rest: string)
    requires StartsWith(rest, "://")
    ensures Contains(a + rest, "://")
  {
    assert (a + rest)[|a|..|a| + 3] == rest[..3];
    assert OccursAt(a + rest, "://", |a|);
  }

  /** The directory `Climb` leaves is a prefix of the one it starts from, and no "../" is left on the link. */
  lemma {:induction false} ClimbFacts(dir: string, url: string)
    ensures StartsWith(dir, Climb(dir, url).0)
    ensures !StartsWith(Climb(dir, url).1, "../")
    ensures EndsWith(url, Climb(dir, url).1)
    decreases |url|
  {
    if StartsWith(url, "../") {
      ClimbFacts(Parent(dir), url[3..]);
      var d := Climb(Parent(dir), url[3..]).0;
      assert dir[..|d|] == Parent(dir)[..|d|];
      var u := Climb(Parent(dir), url[3..]).1;
      assert url[|url| - |u|..] == url[3..][|url[3..]| - |u|..];
    }
  }

  /** A directory that is empty or starts with a single "/": the form a base directory has. */
  predicate Rooted(dir: string) {
    dir == [] || (|dir| >= 2 && dir[0] == '/' && dir[1] != '/')
  }

  /** Climbing never goes above the root: a rooted directory stays rooted. */
  lemma {:induction false} ClimbStaysRooted(dir: string, url: string)
    requires Rooted(dir)
    ensures Rooted(Climb(dir, url).0)
    decreases |url|
  {
    if StartsWith(url, "../") {
      var p := Parent(dir);
      if '/' in dir && p != [] {
        assert p[0] == dir[0];
        assert LastIndex(dir, '/') != 1;
        assert p[1] == dir[1];
      }
      ClimbStaysRooted(p, url[3..]);
    }
  }

  /** A link with no ":" cannot hold "://". */
  lemma NoColonNoScheme(url: string)
    requires ':' !in url
    ensures !Contains(url, "://")
  {
    forall k: nat | k <= |url|
      ensures !OccursAt(url, "://", k)
    {
      if k + 3 <= |url| {
        assert url[k..k + 3][0] == url[k];
      }
    }
  }

  /** The part of dir + "/" + file before its last "/" is dir. */
  lemma DirOf(dir: string, file: string)
    requires '/' !in file
    ensures BaseDir(dir + "/" + file) == dir && Parent(dir + "/" + file) == dir
  {
    var p := dir + "/" + file;
    assert p[|dir|] == '/';
    assert p[|dir| + 1..] == file;
    LastIndexAt(p, '/', |dir|);
    assert p[..|dir|] == dir;
  }

  /** A path-relative link whose climb ends in a rooted directory and a plain name becomes host-relative. */
  lemma PathRelative(b: Base, url: string, d: string, u: string)
    requires !Contains(url, "://") && !StartsWith(url, "/") && '/' in b.path
    requires Climb(BaseDir(b.path), url) == (d, u)
    requires Rooted(d) && u != [] && u[0] != '/'
    ensures Resolved(b, url) == Success(HostRelative(b, d + "/" + u))
  {
    var joined := d + "/" + u;
    if d == [] {
      assert joined[1] == u[0];
    } else {
      assert joined[1] == d[1];
    }
  }

  /** A file name resolves into the directory of the base path. */
  lemma SiblingFile(b: Base, dir: string, file: string, name: string)
    requires b.path == dir + "/" + file && '/' !in file && Rooted(dir)
    requires name != [] && ':' !in name && name[0] != '/' && !StartsWith(name, "../")
    ensures Resolved(b, name) == Success(HostRelative(b, dir + "/" + name))
  {
    NoColonNoScheme(name);
    DirOf(dir, file);
    assert !StartsWith(name, "/");
    PathRelative(b, name, dir, name);
  }

  /** A leading "../" resolves into the parent of the base directory. */
  lemma ParentFile(b: Base, dir: string, sub: string, file: string, name: string)
    requires b.path == dir + "/" + sub + "/" + file && '/' !in sub && '/' !in file && Rooted(dir)
    requires name != [] && ':' !in name && name[0] != '/' && !StartsWith(name, "../")
    ensures Resolved(b, "../" + name) == Success(HostRelative(b, dir + "/" + name))
  {
    var link := "../" + name;
    NoColonNoScheme(link);
    var sd := dir + "/" + sub;
    DirOf(sd, file);
    DirOf(dir, sub);
    assert link[..3] == "../" && link[3..] == name;
    assert Climb(sd, link) == Climb(dir, name) == (dir, name);
    PathRelative(b, link, dir, name);
  }

  /** "../" repeated n times. */
  function Ups(n: nat): string {
    if n == 0 then "" else "../" + Ups(n - 1)
  }

  /** At the root, any number of "../" is dropped and the name resolves at the root. */
  lemma {:induction false} UpsStopAtRoot(n: nat, name: string)
    requires !StartsWith(name, "../")
    ensures Climb("", Ups(n) + name) == ("", name)
  {
    if n > 0 {
      var link := Ups(n) + name;
      assert link == "../" + (Ups(n - 1) + name);
      assert link[..3] == "../";
      assert link[3..] == Ups(n - 1) + name;
      assert Parent("") == "";
      UpsStopAtRoot(n - 1, name);
    } else {
      assert Ups(0) + name == name;
    }
  }

  /** A link starting with a single "/" keeps the base scheme and host and names the port explicitly. */
  lemma HostRelativeLink(b: Base, url: string)
    requires StartsWith(url, "/") && !StartsWith(url, "//") && !Contains(url, "://")
    ensures Resolved(b, url) == Success(b.scheme + "://" + b.host + ":" + NatToString(b.port) + url)
  {
  }

  /** A link starting with "//" keeps its host and only takes the base scheme. */
  lemma SchemeRelative(b: Base, url: string)
    requires StartsWith(url, "//") && !Contains(url, "://")
    ensures Resolved(b, url) == Success(b.scheme + ":" + url)
  {
  }

  /** Links climbing from a page at the root stay at the root, however many "../" they start with. */
  lemma UpsFromRootPage(b: Base, file: string, n: nat, name: string)
    requires b.path == "/" + file && '/' !in file
    requires name != [] && ':' !in name && name[0] != '/' && !StartsWith(name, "../")
    ensures Resolved(b, Ups(n) + name) == Success(HostRelative(b, "/" + name))
  {
    var link := Ups(n) + name;
    UpsHaveNoColon(n);
    assert ':' !in link;
    NoColonNoScheme(link);
    DirOf("", file);
    UpsStopAtRoot(n, name);
    if n > 0 {
      assert link[0] == '.';
    } else {
      assert link == name;
    }
    PathRelative(b, link, "", name);
    assert "" + "/" + name == "/" + name;
  }

  lemma {:induction false} UpsHaveNoColon(n: nat)
    ensures ':' !in Ups(n)
  {
    if n > 0 {
      UpsHaveNoColon(n - 1);
    }
  }
}
