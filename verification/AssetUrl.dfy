/** Release asset URLs: how the feed generator writes them and how the distribution gate reads them. */
module AssetUrl {
  import opened Options
  import opened PackagePaths

  datatype Location = Location(repository: string, tag: string, asset: string)

  /** Index of the first `c`, or the length. */
  function Find(s: string, c: char): (i: nat)
    ensures i <= |s| && c !in s[..i] && (i < |s| ==> s[i] == c)
  {
    if s == "" then 0 else if s[0] == c then 0 else
      var i := Find(s[1..], c);
      assert s[..i + 1] == [s[0]] + s[1..][..i];
      i + 1
  }

  lemma {:induction false} FindAfter(first: string, rest: string, c: char)
    requires c !in first
    ensures Find(first + [c] + rest, c) == |first|
  {
    if first == "" {
    } else {
      FindAfter(first[1..], rest, c);
      assert (first + [c] + rest)[1..] == first[1..] + [c] + rest;
    }
  }

  lemma {:induction false} FindNone(s: string, c: char)
    requires c !in s
    ensures Find(s, c) == |s|
  {
  }

  // ---------------------------------------------------------------- characters

  predicate AsciiWord(c: char) {
    'a' <= c <= 'z' || 'A' <= c <= 'Z' || '0' <= c <= '9' || c == '_'
  }

  /** A word character of a pattern over text; `beyond` decides about characters outside ASCII. */
  predicate WordChar(c: char, beyond: char -> bool) {
    if c as int < 128 then AsciiWord(c) else beyond(c)
  }

  /** One or more word characters, dots and dashes. */
  predicate WordPart(s: string, beyond: char -> bool) {
    s != "" && forall i :: 0 <= i < |s| ==> s[i] == '.' || s[i] == '-' || WordChar(s[i], beyond)
  }

  predicate AsciiPart(s: string) {
    WordPart(s, _ => false)
  }

  /** `owner/name` in plain ASCII, as the generator demands. */
  predicate AsciiRepository(s: string) {
    var parts := Split(s, '/');
    |parts| == 2 && AsciiPart(parts[0]) && AsciiPart(parts[1])
  }

  // ---------------------------------------------------------------- writing

  const SCHEME := "https"
  const SLASHES := "//"
  const SERVER := "github.com"
  const RELEASES := "releases"
  const DOWNLOAD := "download"

  function UrlPath(repository: string, tag: string, asset: string): string {
    "/" + (repository + "/" + (RELEASES + "/" + (DOWNLOAD + "/" + (tag + "/" + asset))))
  }

  function Url(repository: string, tag: string, asset: string): string {
    SCHEME + ":" + (SLASHES + (SERVER + UrlPath(repository, tag, asset)))
  }

  // ---------------------------------------------------------------- reading

  predicate Stripped(c: char) {
    c == '\t' || c == '\r' || c == '\n'
  }

  function DropLeading(s: string): string {
    if s != "" && s[0] as int <= 32 then DropLeading(s[1..]) else s
  }

  function DropBreaks(s: string): string {
    if s == "" then "" else (if Stripped(s[0]) then "" else [s[0]]) + DropBreaks(s[1..])
  }

  function LowerChar(c: char): char {
    if 'A' <= c <= 'Z' then ((c as int) + 32) as char else c
  }

  function Lower(s: string): string {
    if s == "" then "" else [LowerChar(s[0])] + Lower(s[1..])
  }

  /** Where the network location ends. */
  function NetlocEnd(s: string): (i: nat)
    ensures i <= |s|
  {
    if s == "" || s[0] == '/' || s[0] == '?' || s[0] == '#' then 0 else 1 + NetlocEnd(s[1..])
  }

  /** What follows the scheme of an https URL. */
  function AfterScheme(u: string): Option<string> {
    var colon := Find(u, ':');
    if colon < |u| && Lower(u[..colon]) == SCHEME then Some(u[colon + 1..]) else None
  }

  /** What follows the network location, if that is `SERVER`. */
  function AfterServer(s: string): Option<string> {
    if !StartsWith(s, SLASHES) then None
    else
      var end := NetlocEnd(s[2..]);
      if s[2..][..end] == SERVER then Some(s[2..][end..]) else None
  }

  /** The path of an https URL on github.com without query and fragment. */
  function GithubPath(url: string): Option<string> {
    match AfterScheme(DropBreaks(DropLeading(url)))
    case None => None
    case Some(rest) =>
      match AfterServer(rest)
      case None => None
      case Some(path) => PlainPath(path)
  }

  /** What precedes fragment and query, both of which must be empty. */
  function PlainPath(s: string): (path: Option<string>)
    ensures path.Some? ==> '#' !in path.value && '?' !in path.value
  {
    var hash := Find(s, '#');
    var before, fragment := s[..hash], if hash < |s| then s[hash + 1..] else "";
    var mark := Find(before, '?');
    var query := if mark < |before| then before[mark + 1..] else "";
    if fragment != "" || query != "" then None else Some(before[..mark])
  }

  /** `/owner/name/releases/download/tag/asset`. */
  function ParsePath(path: string, beyond: char -> bool): Option<Location> {
    var parts := Split(path, '/');
    if |parts| == 7 && parts[0] == "" && parts[3] == RELEASES && parts[4] == DOWNLOAD
       && WordPart(parts[1], beyond) && WordPart(parts[2], beyond) && parts[5] != "" && parts[6] != ""
    then Some(Location(parts[1] + "/" + parts[2], parts[5], parts[6]))
    else None
  }

  function Locate(url: string, beyond: char -> bool): Option<Location> {
    match GithubPath(url)
    case None => None
    case Some(path) => ParsePath(path, beyond)
  }

  // ---------------------------------------------------------------- reading back what was written

  /** Characters that mean something in a URL, or that are removed from it. */
  predicate Plain(s: string) {
    forall i :: 0 <= i < |s| ==> s[i] != '/' && s[i] != '?' && s[i] != '#' && !Stripped(s[i])
  }

  lemma {:induction false} PlainParts(repository: string)
    requires AsciiRepository(repository)
    ensures var parts := Split(repository, '/');
      Plain(parts[0]) && Plain(parts[1]) && repository == parts[0] + "/" + parts[1]
    ensures Unstripped(repository) && '?' !in repository && '#' !in repository
  {
    JoinSplit(repository, '/');
    assert Join(Split(repository, '/'), '/') == Split(repository, '/')[0] + "/" + Split(repository, '/')[1];
  }

  lemma {:induction false} SplitTwice(first: string, second: string, rest: string)
    requires '/' !in first && '/' !in second
    ensures Split(first + "/" + (second + "/" + rest), '/') == [first, second] + Split(rest, '/')
  {
    SplitFirst(second, rest, '/');
    SplitFirst(first, second + "/" + rest, '/');
  }

  lemma {:induction false} PathParts(owner: string, name: string, r: string, d: string, tag: string, asset: string)
    requires Plain(owner) && Plain(name) && Plain(tag) && Plain(asset) && '/' !in r && '/' !in d
    ensures Split("/" + ((owner + "/" + name) + "/" + (r + "/" + (d + "/" + (tag + "/" + asset)))), '/')
      == ["", owner, name, r, d, tag, asset]
  {
    SplitPlain(asset, '/');
    SplitFirst(tag, asset, '/');
    SplitTwice(r, d, tag + "/" + asset);
    var tail := r + "/" + (d + "/" + (tag + "/" + asset));
    SplitTwice(owner, name, tail);
    var all := owner + "/" + (name + "/" + tail);
    SplitFirst("", all, '/');
    assert (owner + "/" + name) + "/" + tail == all;
    assert "" + "/" + all == "/" + all;
  }

  lemma {:induction false} NothingDropped(s: string)
    requires forall i :: 0 <= i < |s| ==> !Stripped(s[i])
    ensures DropBreaks(s) == s
  {
    if s == "" {
    } else {
      NothingDropped(s[1..]);
      assert [s[0]] + s[1..] == s;
    }
  }

  lemma {:induction false} NetlocStops(host: string, rest: string)
    requires forall i :: 0 <= i < |host| ==> host[i] != '/' && host[i] != '?' && host[i] != '#'
    requires rest != "" && rest[0] == '/'
    ensures NetlocEnd(host + rest) == |host|
  {
    if host == "" {
      assert host + rest == rest;
    } else {
      NetlocStops(host[1..], rest);
      assert (host + rest)[1..] == host[1..] + rest;
    }
  }

  lemma {:induction false} PlainPathOf(path: string)
    requires '#' !in path && '?' !in path
    ensures PlainPath(path) == Some(path)
  {
    FindNone(path, '#');
    assert path[..|path|] == path;
    FindNone(path, '?');
  }

  lemma {:induction false} SchemeRead(scheme: string, rest: string)
    requires ':' !in scheme && Lower(scheme) == SCHEME
    ensures AfterScheme(scheme + ":" + rest) == Some(rest)
  {
    FindAfter(scheme, rest, ':');
    var u := scheme + ":" + rest;
    assert u[..|scheme|] == scheme && u[|scheme| + 1..] == rest;
  }

  lemma {:induction false} ServerRead(slashes: string, server: string, path: string)
    requires slashes == SLASHES && |slashes| == 2 && server == SERVER && path != "" && path[0] == '/'
    requires forall i :: 0 <= i < |server| ==> server[i] != '/' && server[i] != '?' && server[i] != '#'
    ensures AfterServer(slashes + (server + path)) == Some(path)
  {
    var s := slashes + (server + path);
    assert s[..2] == slashes && s[2..] == server + path;
    NetlocStops(server, path);
    assert s[2..][..|server|] == server && s[2..][|server|..] == path;
  }

  lemma {:induction false} Literals()
    ensures ':' !in SCHEME && Lower(SCHEME) == SCHEME && |SLASHES| == 2 && SCHEME != "" && SCHEME[0] as int > 32
    ensures forall i :: 0 <= i < |SERVER| ==> SERVER[i] != '/' && SERVER[i] != '?' && SERVER[i] != '#'
    ensures Unstripped(SCHEME) && Unstripped(SLASHES) && Unstripped(SERVER) && Plain(RELEASES) && Plain(DOWNLOAD)
  {
    assert SCHEME == "https";
  }

  predicate Unstripped(s: string) {
    forall i :: 0 <= i < |s| ==> !Stripped(s[i])
  }

  lemma {:induction false} OnGithub(scheme: string, slashes: string, server: string, path: string)
    requires scheme == SCHEME && slashes == SLASHES && server == SERVER
    requires path != "" && path[0] == '/' && '#' !in path && '?' !in path && Unstripped(path)
    ensures GithubPath(scheme + ":" + (slashes + (server + path))) == Some(path)
  {
    Literals();
    var url := scheme + ":" + (slashes + (server + path));
    assert url[0] == scheme[0];
    assert Unstripped(url);
    NothingDropped(url);
    SchemeRead(scheme, slashes + (server + path));
    ServerRead(slashes, server, path);
    PlainPathOf(path);
  }

  lemma {:induction false} PathChars(repository: string, r: string, d: string, tag: string, asset: string)
    requires Unstripped(repository) && '?' !in repository && '#' !in repository
    requires Plain(r) && Plain(d) && Plain(tag) && Plain(asset)
    ensures var path := "/" + (repository + "/" + (r + "/" + (d + "/" + (tag + "/" + asset))));
      path != "" && path[0] == '/' && '#' !in path && '?' !in path && Unstripped(path)
  {
  }

  lemma {:induction false} PathReadsBack(repository: string, tag: string, asset: string)
    requires AsciiRepository(repository) && Plain(tag) && Plain(asset)
    ensures GithubPath(Url(repository, tag, asset)) == Some(UrlPath(repository, tag, asset))
  {
    Literals();
    PlainParts(repository);
    PathChars(repository, RELEASES, DOWNLOAD, tag, asset);
    OnGithub(SCHEME, SLASHES, SERVER, UrlPath(repository, tag, asset));
  }

  lemma {:induction false} PathParses(repository: string, tag: string, asset: string, beyond: char -> bool)
    requires AsciiRepository(repository) && Plain(tag) && Plain(asset) && tag != "" && asset != ""
    ensures ParsePath(UrlPath(repository, tag, asset), beyond) == Some(Location(repository, tag, asset))
  {
    Literals();
    PlainParts(repository);
    var parts := Split(repository, '/');
    PathParts(parts[0], parts[1], RELEASES, DOWNLOAD, tag, asset);
  }

  /** The gate reads from a generated URL exactly what the generator put in. */
  lemma {:induction false} ReadsBack(repository: string, tag: string, asset: string, beyond: char -> bool)
    requires AsciiRepository(repository) && Plain(tag) && Plain(asset) && tag != "" && asset != ""
    ensures Locate(Url(repository, tag, asset), beyond) == Some(Location(repository, tag, asset))
  {
    PathReadsBack(repository, tag, asset);
    PathParses(repository, tag, asset, beyond);
  }

  /** An asset that the gate has found in any URL can be found in a generated one. */
  lemma {:induction false} LocatedIsPlain(url: string, beyond: char -> bool)
    requires Locate(url, beyond).Some?
    ensures var l := Locate(url, beyond).value;
      l.asset != "" && '/' !in l.asset && '?' !in l.asset && '#' !in l.asset
  {
    var path := GithubPath(url).value;
    var parts := Split(path, '/');
    forall x | x in parts[6] ensures x in path { SplitChars(path, '/', 6, x); }
    PathOfGithub(url);
  }

  lemma {:induction false} PathOfGithub(url: string)
    ensures GithubPath(url).Some? ==> '#' !in GithubPath(url).value && '?' !in GithubPath(url).value
  {
  }
}
