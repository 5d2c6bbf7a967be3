/** Package paths: which are safe, which a Downloader database may own, and the folders above them. */
module PackagePaths {

  // ---------------------------------------------------------------- splitting

  function Split(s: string, c: char): (parts: seq<string>)
    ensures parts != []
    ensures forall i :: 0 <= i < |parts| ==> c !in parts[i]
  {
    if s == "" then [""]
    else if s[0] == c then [""] + Split(s[1..], c)
    else
      var rest := Split(s[1..], c);
      [[s[0]] + rest[0]] + rest[1..]
  }

  function Join(parts: seq<string>, c: char): string
    requires parts != []
  {
    if |parts| == 1 then parts[0] else parts[0] + [c] + Join(parts[1..], c)
  }

  lemma {:induction false} JoinSplit(s: string, c: char)
    ensures Join(Split(s, c), c) == s
  {
    if s == "" {
    } else {
      JoinSplit(s[1..], c);
      var rest := Split(s[1..], c);
      if s[0] == c {
        assert ([""] + rest)[1..] == rest;
        assert s == "" + [c] + s[1..];
      } else {
        var parts := [[s[0]] + rest[0]] + rest[1..];
        assert parts[1..] == rest[1..];
        if |rest| > 1 {
          var tail := Join(rest[1..], c);
          assert [s[0]] + (rest[0] + [c] + tail) == ([s[0]] + rest[0]) + [c] + tail;
        }
        assert s == [s[0]] + s[1..];
      }
    }
  }

  lemma {:induction false} SplitFirst(first: string, rest: string, c: char)
    requires c !in first
    ensures Split(first + [c] + rest, c) == [first] + Split(rest, c)
  {
    var s := first + [c] + rest;
    if first == "" {
      assert s[1..] == rest;
    } else {
      SplitFirst(first[1..], rest, c);
      assert s[1..] == first[1..] + [c] + rest;
      assert [s[0]] + first[1..] == first;
    }
  }

  lemma {:induction false} SplitPlain(s: string, c: char)
    requires c !in s
    ensures Split(s, c) == [s]
  {
    if s == "" {
    } else {
      SplitPlain(s[1..], c);
      assert [s[0]] + s[1..] == s;
    }
  }

  lemma {:induction false} SplitJoin(parts: seq<string>, c: char)
    requires parts != [] && forall i :: 0 <= i < |parts| ==> c !in parts[i]
    ensures Split(Join(parts, c), c) == parts
  {
    if |parts| == 1 {
      SplitPlain(parts[0], c);
    } else {
      SplitJoin(parts[1..], c);
      SplitFirst(parts[0], Join(parts[1..], c), c);
      assert [parts[0]] + parts[1..] == parts;
    }
  }

  /** Which characters a split has. */
  lemma {:induction false} SplitChars(s: string, c: char, i: nat, x: char)
    requires i < |Split(s, c)| && x in Split(s, c)[i]
    ensures x in s
  {
    if s == "" {
    } else {
      var rest := Split(s[1..], c);
      if s[0] == c {
        if i > 0 { SplitChars(s[1..], c, i - 1, x); }
      } else if i > 0 {
        assert Split(s, c)[i] == rest[i];
        SplitChars(s[1..], c, i, x);
      } else if x != s[0] {
        assert x in rest[0];
        SplitChars(s[1..], c, 0, x);
      }
    }
  }

  // ---------------------------------------------------------------- safe package paths

  /** The paths a package may hold: relative, without empty, dot or drive-like parts. */
  predicate SafePath(value: string) {
    && value != "" && '\\' !in value && ':' !in value && (forall i :: 0 <= i < |value| ==> value[i] as int >= 32)
    && value[0] != '/'
    && forall i :: 0 <= i < |Split(value, '/')| ==> Split(value, '/')[i] !in ["", ".", ".."]
  }

  function Replace(s: string, c: char, sub: string): string {
    if s == "" then "" else (if s[0] == c then sub else [s[0]]) + Replace(s[1..], c, sub)
  }

  const ASSET_PREFIX := "mister-magik--"

  /** The flat name of the release asset for a path. */
  function AssetName(path: string): string {
    ASSET_PREFIX + Replace(path, '/', "--")
  }

  lemma {:induction false} ReplaceChars(s: string, c: char, sub: string, x: char)
    requires x in Replace(s, c, sub)
    ensures x in sub || (x in s && x != c)
  {
    if s != "" && x !in (if s[0] == c then sub else [s[0]]) {
      ReplaceChars(s[1..], c, sub, x);
    }
  }

  /** Asset names of safe paths are printable and have no slash. */
  lemma {:induction false} AssetNameChars(path: string, x: char)
    requires SafePath(path) && x in AssetName(path)
    ensures x as int >= 32 && x != '/' && x != '\\' && x != ':'
  {
    if x !in ASSET_PREFIX { ReplaceChars(path, '/', "--", x); }
  }

  // ---------------------------------------------------------------- pure POSIX paths

  /** Parts of a relative POSIX path: empty and dot parts disappear. */
  function Kept(parts: seq<string>): (kept: seq<string>) {
    if parts == [] then []
    else (if parts[0] == "" || parts[0] == "." then [] else [parts[0]]) + Kept(parts[1..])
  }

  function Parts(value: string): seq<string> {
    Kept(Split(value, '/'))
  }

  lemma {:induction false} AllKept(parts: seq<string>)
    requires forall i :: 0 <= i < |parts| ==> parts[i] != "" && parts[i] != "."
    ensures Kept(parts) == parts
  {
    if parts == [] {
    } else {
      AllKept(parts[1..]);
      assert [parts[0]] + parts[1..] == parts;
    }
  }

  /** A safe path is its parts. */
  lemma {:induction false} SafeParts(value: string)
    requires SafePath(value)
    ensures Parts(value) == Split(value, '/') && Join(Parts(value), '/') == value
  {
    AllKept(Split(value, '/'));
    JoinSplit(value, '/');
  }

  const FORBIDDEN_NAMES := ["MiSTer.ini", "menu.rbf", "MiSTer"]
  const DROP_IN_PREFIX := "downloader_"
  const DROP_IN_SUFFIX := ".ini"

  predicate StartsWith(s: string, prefix: string) {
    |prefix| <= |s| && s[..|prefix|] == prefix
  }

  predicate EndsWith(s: string, suffix: string) {
    |suffix| <= |s| && s[|s| - |suffix|..] == suffix
  }

  predicate HasDoubleSlash(s: string) {
    exists i :: 0 <= i < |s| - 1 && s[i] == '/' && s[i + 1] == '/'
  }

  /** The paths a Downloader database may own. A path without any part, such as ".", is an error. */
  predicate ValidatePath(value: string) {
    var parts := Parts(value);
    && value != "" && value[0] != '/' && !HasDoubleSlash(value) && ".." !in parts && parts != []
    && parts[0] != "linux" && parts[0] != "saves"
    && var name := parts[|parts| - 1];
    && name !in FORBIDDEN_NAMES && !(StartsWith(name, DROP_IN_PREFIX) && EndsWith(name, DROP_IN_SUFFIX))
  }

  // ---------------------------------------------------------------- folders

  function Folder(parts: seq<string>): string
    requires parts != []
  {
    Join(parts, '/') + "/"
  }

  /** The folders above a path, as a comprehension over its proper, non-empty prefixes. */
  function FoldersAbove(parts: seq<string>): set<string> {
    set k | 0 < k < |parts| :: Folder(parts[..k])
  }

  /** The same folders collected by going from parent to parent. */
  method AddParents(parts: seq<string>, folders: set<string>) returns (more: set<string>)
    requires parts != []
    ensures more == folders + FoldersAbove(parts)
  {
    more := folders;
    var parent := parts[..|parts| - 1];
    while parent != []
      invariant |parent| < |parts| && parent == parts[..|parent|]
      invariant more == folders + set k | |parent| < k < |parts| :: Folder(parts[..k])
      decreases |parent|
    {
      more := more + {Folder(parent)};
      parent := parent[..|parent| - 1];
    }
  }
}
