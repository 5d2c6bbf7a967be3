/** Exactly which URLs the distribution gate reads, and as what. */
module UrlForms {
  import opened Options
  import opened PackagePaths
  import opened AssetUrl

  /** The URL as it is parsed: without blanks and control characters in front, tabs and line ends. */
  function Cleaned(url: string): string {
    DropBreaks(DropLeading(url))
  }

  /** The path of a release asset. */
  function AssetPath(repository: string, tag: string, asset: string): string {
    "/" + (repository + "/" + ("releases" + "/" + ("download" + "/" + (tag + "/" + asset))))
  }

  predicate OnePart(s: string) {
    s != "" && '/' !in s && '?' !in s && '#' !in s
  }

  /** A URL written with this scheme for an asset of `owner/name`, with nothing after it but marks of
      an empty query or fragment. */
  predicate Spelled(clean: string, scheme: string, owner: string, name: string, tail: string, l: Location,
                    beyond: char -> bool)
  {
    && Lower(scheme) == "https" && WordPart(owner, beyond) && WordPart(name, beyond)
    && l.repository == owner + "/" + name && OnePart(l.tag) && OnePart(l.asset)
    && tail in ["", "?", "#", "?#"]
    && clean == scheme + ":" + ("//" + ("github.com" + (AssetPath(l.repository, l.tag, l.asset) + tail)))
  }

  // ---------------------------------------------------------------- reading

  lemma {:induction false} LowerChars(s: string, i: nat)
    requires i < |s|
    ensures |Lower(s)| == |s| && Lower(s)[i] == LowerChar(s[i])
  {
    if i > 0 {
      LowerChars(s[1..], i - 1);
    } else if |s| > 1 {
      LowerChars(s[1..], 0);
    }
  }

  lemma {:induction false} NoColon(scheme: string)
    requires Lower(scheme) == "https"
    ensures ':' !in scheme
  {
    forall i | 0 <= i < |scheme| ensures scheme[i] != ':' {
      LowerChars(scheme, i);
      assert "https"[i] != ':';
    }
  }

  lemma {:induction false} BreaksDropped(s: string)
    ensures Unstripped(DropBreaks(s))
  {
    if s == "" {
    } else {
      BreaksDropped(s[1..]);
    }
  }

  lemma {:induction false} WordIsPlain(s: string, beyond: char -> bool)
    requires WordPart(s, beyond)
    ensures Plain(s)
  {
  }

  /** A mark at the end of a text without it, or nothing. */
  lemma {:induction false} MarkRead(text: string, c: char, marked: bool, s: string)
    requires c !in text && s == text + if marked then [c] else []
    ensures Find(s, c) == |text| && s[..|text|] == text
  {
    if marked {
      assert s == text + [c] + "";
      FindAfter(text, "", c);
    } else {
      FindNone(s, c);
    }
  }

  lemma {:induction false} MarksRead(path: string, before: string, s: string, query: bool, fragment: bool)
    requires '#' !in path && '?' !in path
    requires before == path + (if query then ['?'] else []) && s == before + if fragment then ['#'] else []
    ensures PlainPath(s) == Some(path)
  {
    MarkRead(before, '#', fragment, s);
    MarkRead(path, '?', query, before);
  }

  lemma {:induction false} TailRead(path: string, tail: string)
    requires '#' !in path && '?' !in path && tail in ["", "?", "#", "?#"]
    ensures PlainPath(path + tail) == Some(path)
  {
    var query, fragment := tail == "?" || tail == "?#", tail == "#" || tail == "?#";
    var before := path + if query then ['?'] else [];
    assert path + tail == before + if fragment then ['#'] else [];
    MarksRead(path, before, path + tail, query, fragment);
  }

  lemma {:induction false} PathRead(owner: string, name: string, tag: string, asset: string, beyond: char -> bool)
    requires WordPart(owner, beyond) && WordPart(name, beyond) && Plain(tag) && Plain(asset) && tag != "" && asset != ""
    ensures ParsePath(AssetPath(owner + "/" + name, tag, asset), beyond)
      == Some(Location(owner + "/" + name, tag, asset))
  {
    Literals();
    WordIsPlain(owner, beyond);
    WordIsPlain(name, beyond);
    PathParts(owner, name, RELEASES, DOWNLOAD, tag, asset);
  }

  lemma {:induction false} AnyPathRead(clean: string, scheme: string, path: string, tail: string)
    requires Lower(scheme) == "https" && path != "" && path[0] == '/' && '#' !in path && '?' !in path
    requires tail in ["", "?", "#", "?#"] && clean == scheme + ":" + ("//" + ("github.com" + (path + tail)))
    ensures AfterScheme(clean).Some? && AfterServer(AfterScheme(clean).value) == Some(path + tail)
    ensures PlainPath(path + tail) == Some(path)
  {
    Literals();
    NoColon(scheme);
    SchemeRead(scheme, SLASHES + (SERVER + (path + tail)));
    ServerRead(SLASHES, SERVER, path + tail);
    TailRead(path, tail);
  }

  lemma {:induction false} PiecesUnstripped(a: string, b: string)
    requires Unstripped(a + b)
    ensures Unstripped(a) && Unstripped(b)
  {
    assert forall i :: 0 <= i < |a| ==> (a + b)[i] == a[i];
    assert forall i :: 0 <= i < |b| ==> (a + b)[|a| + i] == b[i];
  }

  lemma {:induction false} PathUnstripped(repository: string, r: string, d: string, tag: string, asset: string)
    requires Unstripped("/" + (repository + "/" + (r + "/" + (d + "/" + (tag + "/" + asset)))))
    ensures Unstripped(tag) && Unstripped(asset)
  {
    PiecesUnstripped("/", repository + "/" + (r + "/" + (d + "/" + (tag + "/" + asset))));
    PiecesUnstripped(repository + "/", r + "/" + (d + "/" + (tag + "/" + asset)));
    PiecesUnstripped(r + "/", d + "/" + (tag + "/" + asset));
    PiecesUnstripped(d + "/", tag + "/" + asset);
    PiecesUnstripped(tag + "/", asset);
    PiecesUnstripped(tag, "/");
  }

  lemma {:induction false} UrlUnstripped(scheme: string, slashes: string, server: string, path: string, tail: string)
    requires Unstripped(scheme + ":" + (slashes + (server + (path + tail))))
    ensures Unstripped(path)
  {
    PiecesUnstripped(scheme + ":", slashes + (server + (path + tail)));
    PiecesUnstripped(slashes, server + (path + tail));
    PiecesUnstripped(server, path + tail);
    PiecesUnstripped(path, tail);
  }

  lemma {:induction false} NoMarks(repository: string, r: string, d: string, tag: string, asset: string)
    requires '?' !in repository && '#' !in repository && Plain(r) && Plain(d) && OnePart(tag) && OnePart(asset)
    ensures var path := "/" + (repository + "/" + (r + "/" + (d + "/" + (tag + "/" + asset))));
      path != "" && path[0] == '/' && '#' !in path && '?' !in path
  {
  }

  lemma {:induction false} UrlIsPlain(clean: string, scheme: string, path: string, tail: string, l: Location)
    requires Unstripped(clean) && clean == scheme + ":" + ("//" + ("github.com" + (path + tail)))
    requires path == AssetPath(l.repository, l.tag, l.asset) && OnePart(l.tag) && OnePart(l.asset)
    ensures Plain(l.tag) && Plain(l.asset)
  {
    UrlUnstripped(scheme, "//", "github.com", path, tail);
    PathUnstripped(l.repository, "releases", "download", l.tag, l.asset);
  }

  lemma {:induction false} PathHasNoMarks(owner: string, name: string, l: Location, beyond: char -> bool)
    requires WordPart(owner, beyond) && WordPart(name, beyond) && l.repository == owner + "/" + name
    requires OnePart(l.tag) && OnePart(l.asset)
    ensures var path := AssetPath(l.repository, l.tag, l.asset);
      path != "" && path[0] == '/' && '#' !in path && '?' !in path
  {
    Literals();
    WordIsPlain(owner, beyond);
    WordIsPlain(name, beyond);
    NoMarks(l.repository, "releases", "download", l.tag, l.asset);
  }

  lemma {:induction false} AssetRead(clean: string, scheme: string, path: string, tail: string, l: Location,
                                     beyond: char -> bool)
    requires Lower(scheme) == "https" && path != "" && path[0] == '/' && '#' !in path && '?' !in path
    requires tail in ["", "?", "#", "?#"] && clean == scheme + ":" + ("//" + ("github.com" + (path + tail)))
    requires ParsePath(path, beyond) == Some(l)
    ensures forall url :: Cleaned(url) == clean ==> Locate(url, beyond) == Some(l)
  {
    AnyPathRead(clean, scheme, path, tail);
  }

  /** Every URL of the form is read as what it names. */
  lemma {:induction false} GateReads(url: string, scheme: string, owner: string, name: string, tail: string,
                                     l: Location, beyond: char -> bool)
    requires Spelled(Cleaned(url), scheme, owner, name, tail, l, beyond)
    ensures Locate(url, beyond) == Some(l)
  {
    var clean, path := Cleaned(url), AssetPath(l.repository, l.tag, l.asset);
    BreaksDropped(DropLeading(url));
    UrlIsPlain(clean, scheme, path, tail, l);
    PathHasNoMarks(owner, name, l, beyond);
    PathRead(owner, name, l.tag, l.asset, beyond);
    AssetRead(clean, scheme, path, tail, l, beyond);
  }

  // ---------------------------------------------------------------- nothing else is read

  lemma {:induction false} TailOf(s: string) returns (tail: string)
    requires PlainPath(s).Some?
    ensures tail in ["", "?", "#", "?#"] && s == PlainPath(s).value + tail
  {
    var hash := Find(s, '#');
    var before := s[..hash];
    var mark := Find(before, '?');
    assert before == before[..mark] + if mark < |before| then ['?'] else [];
    assert s == before + if hash < |s| then ['#'] else [];
    if mark < |before| {
      tail := if hash < |s| then "?#" else "?";
      assert ['?', '#'] == "?#";
    } else {
      tail := if hash < |s| then "#" else "";
    }
  }

  lemma {:induction false} JoinSeven(parts: seq<string>)
    requires |parts| == 7
    ensures Join(parts, '/') == parts[0] + "/" + (parts[1] + "/" + (parts[2] + "/" + (parts[3] + "/"
      + (parts[4] + "/" + (parts[5] + "/" + parts[6])))))
  {
    JoinNext(parts);
    JoinNext(parts[1..]);
    JoinNext(parts[1..][1..]);
    JoinNext(parts[1..][1..][1..]);
    JoinNext(parts[1..][1..][1..][1..]);
    JoinNext(parts[1..][1..][1..][1..][1..]);
  }

  lemma {:induction false} JoinNext(parts: seq<string>)
    requires |parts| > 1
    ensures Join(parts, '/') == parts[0] + "/" + Join(parts[1..], '/')
  {
  }

  lemma {:induction false} ServerOf(s: string) returns (path: string)
    requires AfterServer(s).Some?
    ensures s == SLASHES + (SERVER + AfterServer(s).value) && path == AfterServer(s).value
  {
    path := AfterServer(s).value;
    var end := NetlocEnd(s[2..]);
    assert s == s[..2] + s[2..] && s[2..] == s[2..][..end] + s[2..][end..];
  }

  lemma {:induction false} PathOf(path: string, beyond: char -> bool) returns (owner: string, name: string)
    requires ParsePath(path, beyond).Some? && '#' !in path && '?' !in path
    ensures var l := ParsePath(path, beyond).value;
      && WordPart(owner, beyond) && WordPart(name, beyond) && l.repository == owner + "/" + name
      && OnePart(l.tag) && OnePart(l.asset) && path == AssetPath(l.repository, l.tag, l.asset)
  {
    var parts := Split(path, '/');
    owner, name := parts[1], parts[2];
    JoinSplit(path, '/');
    JoinSeven(parts);
    forall c | c in parts[5] ensures c in path { SplitChars(path, '/', 5, c); }
    forall c | c in parts[6] ensures c in path { SplitChars(path, '/', 6, c); }
    var tail := RELEASES + "/" + (DOWNLOAD + "/" + (parts[5] + "/" + parts[6]));
    assert "" + "/" + (owner + "/" + (name + "/" + tail)) == "/" + ((owner + "/" + name) + "/" + tail);
  }

  lemma {:induction false} SchemeOf(clean: string) returns (scheme: string)
    requires AfterScheme(clean).Some?
    ensures Lower(scheme) == "https" && clean == scheme + ":" + AfterScheme(clean).value
  {
    scheme := clean[..Find(clean, ':')];
  }

  lemma {:induction false} LocateSteps(url: string, beyond: char -> bool) returns (rest: string, after: string)
    requires Locate(url, beyond).Some?
    ensures AfterScheme(Cleaned(url)) == Some(rest) && AfterServer(rest) == Some(after)
    ensures PlainPath(after).Some? && ParsePath(PlainPath(after).value, beyond) == Locate(url, beyond)
  {
    rest := AfterScheme(Cleaned(url)).value;
    after := AfterServer(rest).value;
  }

  /** The gate reads nothing but URLs of that form. */
  lemma {:induction false} GateReadsOnly(url: string, beyond: char -> bool)
    returns (scheme: string, owner: string, name: string, tail: string)
    requires Locate(url, beyond).Some?
    ensures Spelled(Cleaned(url), scheme, owner, name, tail, Locate(url, beyond).value, beyond)
  {
    var rest, after := LocateSteps(url, beyond);
    scheme := SchemeOf(Cleaned(url));
    var same := ServerOf(rest);
    tail := TailOf(after);
    owner, name := PathOf(PlainPath(after).value, beyond);
  }

  /** What the gate reads from a URL is exactly what the URL spells. */
  lemma {:induction false} LocatesExactly(url: string, l: Location, beyond: char -> bool)
    ensures Locate(url, beyond) == Some(l) <==>
      exists scheme, owner, name, tail :: Spelled(Cleaned(url), scheme, owner, name, tail, l, beyond)
  {
    if Locate(url, beyond) == Some(l) {
      var scheme, owner, name, tail := GateReadsOnly(url, beyond);
    }
    forall scheme, owner, name, tail | Spelled(Cleaned(url), scheme, owner, name, tail, l, beyond)
      ensures Locate(url, beyond) == Some(l)
    {
      GateReads(url, scheme, owner, name, tail, l, beyond);
    }
  }
}
