/** Package paths read as plain text: the same rules without splitting the path. */
module PathForms {
  import opened PackagePaths

  predicate OccursAt(sub: string, s: string, i: nat) {
    i + |sub| <= |s| && s[i..i + |sub|] == sub
  }

  predicate Occurs(sub: string, s: string) {
    exists i :: 0 <= i <= |s| && OccursAt(sub, s, i)
  }

  /** The path between two slashes, so that every part stands between slashes. */
  function Fenced(s: string): string {
    ['/'] + s + ['/']
  }

  // ---------------------------------------------------------------- parts

  /** The first part of a path and what follows it. */
  lemma {:induction false} FirstPart(s: string) returns (first: string, rest: string)
    requires '/' in s
    ensures '/' !in first && s == first + ['/'] + rest && Split(s, '/') == [first] + Split(rest, '/')
  {
    if s[0] == '/' {
      first, rest := "", s[1..];
    } else {
      first, rest := FirstPart(s[1..]);
      first := [s[0]] + first;
    }
    assert s == first + ['/'] + rest;
    SplitFirst(first, rest, '/');
  }

  lemma {:induction false} OnlyPart(s: string, p: string, i: nat)
    requires '/' !in s && '/' !in p && OccursAt(Fenced(p), Fenced(s), i)
    ensures p == s
  {
    var w, f := Fenced(s), Fenced(p);
    assert w[i] == f[0] == '/' && w[i + |p| + 1] == f[|p| + 1] == '/';
    assert forall k :: 0 < k < |w| - 1 ==> w[k] == s[k - 1];
    assert i == 0 && |p| == |s|;
    assert f[1..|p| + 1] == p && w[1..|s| + 1] == s;
    assert w[0..|f|] == f;
  }

  lemma {:induction false} SameStart(first: string, rest: string, d: string)
    requires '/' !in first && '/' !in d && StartsWith(first + ['/'] + rest, d + ['/'])
    ensures d == first
  {
    var s := first + ['/'] + rest;
    assert s[|first|] == '/' && s[|d|] == (d + ['/'])[|d|] == '/';
    assert forall k :: 0 <= k < |first| ==> s[k] == first[k];
    assert forall k :: 0 <= k < |d| ==> s[k] == (d + ['/'])[k] == d[k];
    assert |d| == |first|;
  }

  lemma {:induction false} PartHere(first: string, rest: string, p: string)
    requires '/' !in first && '/' !in p && OccursAt(Fenced(p), Fenced(first + ['/'] + rest), 0)
    ensures p == first
  {
    var w, f := Fenced(first + ['/'] + rest), Fenced(p);
    assert w[1..] == first + ['/'] + (rest + ['/']);
    assert f[1..] == p + ['/'] && w[1..][..|p| + 1] == w[..|p| + 2][1..];
    SameStart(first, rest + ['/'], p);
  }

  lemma {:induction false} PartLater(first: string, rest: string, p: string, i: nat)
    requires '/' !in first && i > 0 && OccursAt(Fenced(p), Fenced(first + ['/'] + rest), i)
    ensures i > |first| && OccursAt(Fenced(p), Fenced(rest), i - |first| - 1)
  {
    var w, f, n := Fenced(first + ['/'] + rest), Fenced(p), |first| + 1;
    assert w[n..] == Fenced(rest);
    assert w[i] == w[i..i + |f|][0] == '/';
    assert forall k :: 0 < k < n ==> w[k] == first[k - 1];
    assert w[n..][i - n..i - n + |f|] == w[i..i + |f|];
  }

  /** In a path of two or more parts, a part stands first or in the rest. */
  lemma {:induction false} PartHereOrLater(first: string, rest: string, p: string, i: nat)
    requires '/' !in first && '/' !in p && OccursAt(Fenced(p), Fenced(first + ['/'] + rest), i)
    ensures p == first || (i > |first| && OccursAt(Fenced(p), Fenced(rest), i - |first| - 1))
  {
    if i == 0 {
      PartHere(first, rest, p);
    } else {
      PartLater(first, rest, p, i);
    }
  }

  lemma {:induction false} PartThere(first: string, rest: string, p: string)
    ensures Occurs(Fenced(first), Fenced(first + ['/'] + rest))
    ensures Occurs(Fenced(p), Fenced(rest)) ==> Occurs(Fenced(p), Fenced(first + ['/'] + rest))
  {
    var w, n := Fenced(first + ['/'] + rest), |first| + 1;
    assert OccursAt(Fenced(first), w, 0);
    if Occurs(Fenced(p), Fenced(rest)) {
      var i :| 0 <= i <= |Fenced(rest)| && OccursAt(Fenced(p), Fenced(rest), i);
      assert w[n + i..n + i + |Fenced(p)|] == Fenced(rest)[i..i + |Fenced(p)|];
      assert OccursAt(Fenced(p), w, n + i);
    }
  }

  /** A path has a part exactly when the part stands between two slashes of the fenced path. */
  lemma {:induction false} PartOccurs(s: string, p: string)
    requires '/' !in p
    ensures p in Split(s, '/') <==> Occurs(Fenced(p), Fenced(s))
    decreases |s|
  {
    if '/' !in s {
      SplitPlain(s, '/');
      assert p == s ==> OccursAt(Fenced(p), Fenced(s), 0);
      if Occurs(Fenced(p), Fenced(s)) {
        var i :| 0 <= i <= |Fenced(s)| && OccursAt(Fenced(p), Fenced(s), i);
        OnlyPart(s, p, i);
      }
    } else {
      var first, rest := FirstPart(s);
      PartOccurs(rest, p);
      PartThere(first, rest, p);
      if Occurs(Fenced(p), Fenced(s)) {
        var i :| 0 <= i <= |Fenced(s)| && OccursAt(Fenced(p), Fenced(s), i);
        PartHereOrLater(first, rest, p, i);
      }
    }
  }

  /** A path is safe exactly when it is a non-empty text without control characters, backslashes and
      colons, and without empty, dot and double-dot parts. */
  lemma {:induction false} SafePathExactly(s: string)
    ensures SafePath(s) <==>
      && s != "" && (forall i :: 0 <= i < |s| ==> s[i] as int >= 32 && s[i] != '\\' && s[i] != ':')
      && !Occurs("//", Fenced(s)) && !Occurs("/./", Fenced(s)) && !Occurs("/../", Fenced(s))
  {
    PartOccurs(s, "");
    PartOccurs(s, ".");
    PartOccurs(s, "..");
    assert Fenced("") == "//" && Fenced(".") == "/./" && Fenced("..") == "/../";
    var parts := Split(s, '/');
    assert (forall i :: 0 <= i < |parts| ==> parts[i] !in ["", ".", ".."])
      <==> "" !in parts && "." !in parts && ".." !in parts;
    if s != "" && s[0] == '/' {
      assert parts[0] == "";
    }
  }

  // ---------------------------------------------------------------- folders

  /** A folder of a path: a part of it that ends with a slash, from its beginning. */
  predicate SlashPrefix(f: string, s: string) {
    f != "" && |f| <= |s| && s[..|f|] == f && f[|f| - 1] == '/'
  }

  lemma {:induction false} FirstFolder(first: string, rest: string, f: string)
    requires '/' !in first
    ensures SlashPrefix(f, first + ['/'] + rest) <==>
      f == first + ['/'] || (|f| > |first| && f[..|first| + 1] == first + ['/'] && SlashPrefix(f[|first| + 1..], rest))
  {
    var s, n := first + ['/'] + rest, |first| + 1;
    assert s[..n] == first + ['/'] && s[n..] == rest;
    if SlashPrefix(f, s) {
      assert f[|f| - 1] == s[|f| - 1];
      assert |f| >= n;
      assert f[..n] == s[..n] && f[n..] == s[..|f|][n..] == rest[..|f| - n];
    }
  }

  lemma {:induction false} FolderFrom(parts: seq<string>, k: nat)
    requires 0 < k <= |parts|
    ensures Folder(parts[..k])
      == parts[0] + ['/'] + if k == 1 then "" else Folder(parts[1..][..k - 1])
  {
    if k == 1 {
      assert parts[..1] == [parts[0]];
    } else {
      assert parts[..k][1..] == parts[1..][..k - 1];
    }
  }

  lemma {:induction false} FolderBelow(first: string, tail: seq<string>, f: string)
    requires f in FoldersAbove([first] + tail)
    ensures f == first + ['/'] ||
      (|f| > |first| && f[..|first| + 1] == first + ['/'] && f[|first| + 1..] in FoldersAbove(tail))
  {
    var parts := [first] + tail;
    assert parts[1..] == tail;
    var k :| 0 < k < |parts| && f == Folder(parts[..k]);
    FolderFrom(parts, k);
    if k > 1 {
      assert f[|first| + 1..] == Folder(tail[..k - 1]) && f[..|first| + 1] == first + ['/'];
    }
  }

  lemma {:induction false} FolderAbove(first: string, tail: seq<string>, g: string)
    requires tail != []
    ensures first + ['/'] in FoldersAbove([first] + tail)
    ensures g in FoldersAbove(tail) ==> first + ['/'] + g in FoldersAbove([first] + tail)
  {
    var parts := [first] + tail;
    assert parts[1..] == tail;
    FolderFrom(parts, 1);
    assert Folder(parts[..1]) == first + ['/'];
    if g in FoldersAbove(tail) {
      var k :| 0 < k < |tail| && g == Folder(tail[..k]);
      FolderFrom(parts, k + 1);
      assert Folder(parts[..k + 1]) == first + ['/'] + g;
    }
  }

  /** The folders above a path: its first part, and the first part before each folder above the rest. */
  lemma {:induction false} FoldersFrom(first: string, tail: seq<string>, f: string)
    requires tail != []
    ensures f in FoldersAbove([first] + tail) <==>
      f == first + ['/'] ||
      (|f| > |first| && f[..|first| + 1] == first + ['/'] && f[|first| + 1..] in FoldersAbove(tail))
  {
    if f in FoldersAbove([first] + tail) { FolderBelow(first, tail, f); }
    var g := if |f| > |first| then f[|first| + 1..] else "";
    FolderAbove(first, tail, g);
    assert |f| > |first| ==> f == f[..|first| + 1] + g;
  }

  /** The folders above a path are exactly its beginnings that end with a slash. */
  lemma {:induction false} FoldersOfSplit(s: string, f: string)
    ensures f in FoldersAbove(Split(s, '/')) <==> SlashPrefix(f, s)
    decreases |s|
  {
    if '/' !in s {
      SplitPlain(s, '/');
    } else {
      var first, rest := FirstPart(s);
      FoldersFrom(first, Split(rest, '/'), f);
      FirstFolder(first, rest, f);
      if |f| > |first| { FoldersOfSplit(rest, f[|first| + 1..]); }
    }
  }

  lemma {:induction false} FoldersExactly(path: string, f: string)
    requires SafePath(path)
    ensures f in FoldersAbove(Parts(path)) <==> SlashPrefix(f, path)
  {
    SafeParts(path);
    FoldersOfSplit(path, f);
  }

  // ---------------------------------------------------------------- what a database may own

  /** The path is the folder or file `d`, or lies below it. */
  predicate AtOrBelow(s: string, d: string) {
    s == d || StartsWith(s, d + ['/'])
  }

  /** The last part of the path is `n`. */
  predicate NamedFile(s: string, n: string) {
    s == n || EndsWith(s, ['/'] + n)
  }

  lemma {:induction false} SlashInside(s: string, d: string)
    ensures StartsWith(s, d + ['/']) ==> '/' in s
    ensures EndsWith(s, ['/'] + d) ==> '/' in s
  {
    var start, end := d + ['/'], ['/'] + d;
    assert start[|d|] == '/' && end[0] == '/';
    assert |start| <= |s| ==> s[..|start|][|d|] == s[|d|];
    assert |end| <= |s| ==> s[|s| - |end|..][0] == s[|s| - |end|];
  }

  lemma {:induction false} FirstPartIs(s: string, d: string)
    requires '/' !in d
    ensures Split(s, '/')[0] == d <==> AtOrBelow(s, d)
  {
    SlashInside(s, d);
    if '/' !in s {
      SplitPlain(s, '/');
    } else {
      var first, rest := FirstPart(s);
      if StartsWith(s, d + ['/']) {
        SameStart(first, rest, d);
      }
    }
  }

  lemma {:induction false} LastPartIs(s: string, n: string)
    requires '/' !in n
    ensures var parts := Split(s, '/'); parts[|parts| - 1] == n <==> NamedFile(s, n)
    decreases |s|
  {
    SlashInside(s, n);
    if '/' !in s {
      SplitPlain(s, '/');
    } else {
      var first, rest := FirstPart(s);
      LastPartIs(rest, n);
      SameEnd(first, rest, n);
    }
  }

  lemma {:induction false} SameEnd(first: string, rest: string, n: string)
    requires '/' !in n
    ensures NamedFile(first + ['/'] + rest, n) <==> NamedFile(rest, n)
  {
    var s := first + ['/'] + rest;
    assert s[|s| - |rest|..] == rest && s[|s| - |rest| - 1..] == ['/'] + rest;
    assert |n| < |rest| ==> s[|s| - |n| - 1..] == rest[|rest| - |n| - 1..];
    if NamedFile(s, n) { NotLonger(s, |first|, n); }
  }

  /** A name that ends a path begins behind each of its slashes. */
  lemma {:induction false} NotLonger(s: string, slash: nat, n: string)
    requires '/' !in n && NamedFile(s, n) && slash < |s| && s[slash] == '/'
    ensures |n| < |s| - slash
  {
    assert s[|s| - |n|..] == n;
    assert forall k :: |s| - |n| <= k < |s| ==> s[k] == n[k - (|s| - |n|)];
  }

  /** A file name that Downloader would read as a database of its own. */
  ghost predicate DropInName(n: string) {
    '/' !in n && exists middle :: n == "downloader_" + middle + ".ini"
  }

  /** A database may own every safe path but those below `linux` or `saves`, the files of the system
      and drop-ins. */
  lemma {:induction false} OwnedExactly(s: string)
    requires SafePath(s)
    ensures ValidatePath(s) <==>
      && !AtOrBelow(s, "linux") && !AtOrBelow(s, "saves")
      && !NamedFile(s, "MiSTer.ini") && !NamedFile(s, "menu.rbf") && !NamedFile(s, "MiSTer")
      && !exists n :: DropInName(n) && NamedFile(s, n)
  {
    SafeParts(s);
    FirstPartIs(s, "linux");
    FirstPartIs(s, "saves");
    LastPartIs(s, "MiSTer.ini");
    LastPartIs(s, "menu.rbf");
    LastPartIs(s, "MiSTer");
    LastIsDropIn(s);
    NoDoubleSlash(s);
  }

  lemma {:induction false} NoOverlap(n: string)
    requires StartsWith(n, "downloader_") && EndsWith(n, ".ini")
    ensures |n| >= 15
  {
    assert n[10] == n[..11][10] == "downloader_"[10] == '_';
    assert forall k :: |n| - 4 <= k < |n| ==> n[k] == n[|n| - 4..][k - (|n| - 4)];
    assert forall k :: 0 <= k < 4 ==> ".ini"[k] != '_';
  }

  lemma {:induction false} LastIsDropIn(s: string)
    ensures var last := Split(s, '/')[|Split(s, '/')| - 1];
      StartsWith(last, "downloader_") && EndsWith(last, ".ini") <==> exists n :: DropInName(n) && NamedFile(s, n)
  {
    var last := Split(s, '/')[|Split(s, '/')| - 1];
    if StartsWith(last, "downloader_") && EndsWith(last, ".ini") {
      NoOverlap(last);
      var middle := last[11..|last| - 4];
      assert last == "downloader_" + middle + ".ini";
      LastPartIs(s, last);
      assert DropInName(last) && NamedFile(s, last);
    }
    forall n | DropInName(n) && NamedFile(s, n)
      ensures StartsWith(last, "downloader_") && EndsWith(last, ".ini")
    {
      LastPartIs(s, n);
    }
  }

  lemma {:induction false} DoubleSlashOccurs(s: string)
    requires HasDoubleSlash(s)
    ensures Occurs(Fenced(""), Fenced(s))
  {
    var i :| 0 <= i < |s| - 1 && s[i] == '/' && s[i + 1] == '/';
    assert Fenced(s)[i + 1..i + 3] == Fenced("");
    assert OccursAt(Fenced(""), Fenced(s), i + 1);
  }

  lemma {:induction false} NoDoubleSlash(s: string)
    requires SafePath(s)
    ensures !HasDoubleSlash(s)
  {
    PartOccurs(s, "");
    if HasDoubleSlash(s) { DoubleSlashOccurs(s); }
  }

  // ---------------------------------------------------------------- asset names

  /** The parts one after the other with two dashes between them. */
  function Dashed(parts: seq<string>): string
    requires parts != []
  {
    if |parts| == 1 then parts[0] else parts[0] + ("--" + Dashed(parts[1..]))
  }

  lemma {:induction false} ReplaceFirst(first: string, rest: string)
    requires '/' !in first
    ensures Replace(first, '/', "--") == first
    ensures Replace(first + ['/'] + rest, '/', "--") == first + ("--" + Replace(rest, '/', "--"))
  {
    var s := first + ['/'] + rest;
    if first == "" {
      assert s[1..] == rest;
    } else {
      ReplaceFirst(first[1..], rest);
      assert s[1..] == first[1..] + ['/'] + rest;
      assert first == [first[0]] + first[1..];
    }
  }

  lemma {:induction false} ReplaceJoins(s: string)
    ensures Replace(s, '/', "--") == Dashed(Split(s, '/'))
    decreases |s|
  {
    if '/' !in s {
      SplitPlain(s, '/');
      ReplaceFirst(s, "");
    } else {
      var first, rest := FirstPart(s);
      ReplaceFirst(first, rest);
      ReplaceJoins(rest);
    }
  }

  /** The asset of a path is named by the parts of the path. */
  lemma {:induction false} AssetNameExactly(path: string)
    ensures AssetName(path) == "mister-magik--" + Dashed(Split(path, '/'))
  {
    ReplaceJoins(path);
  }
}
