/** The flat directory of a release candidate, and the checksum list that goes with it. */
module CandidateFiles {
  import opened Options
  import opened PackagePaths

  datatype FileEntry = FileEntry(path: string, asset: string, size: nat, sha256: string, md5: string)

  datatype Receipt = Receipt(
    format: string, version: string, build: int, archive: string, archiveSha256: string, files: seq<FileEntry>)

  datatype Item = Item(hash: string, size: nat, url: string)

  datatype Database = Database(
    v: int, dbId: string, timestamp: int, version: string, build: int, files: map<string, Item>, folders: set<string>)

  /** What the package itself says about where it comes from. */
  datatype Fields = Fields(sourceRevision: string, platform: string, databaseSha256: string)

  datatype Validated = Validated(
    repository: string, version: string, build: int, fields: Fields, assets: map<string, string>)

  datatype Member = Member(name: string, content: Content)

  /** File contents; JSON files stand for the value they hold, texts for their characters as read,
      that is with every line end as a newline. */
  datatype Content = Data(bytes: seq<nat>) | Text(text: string) | ReceiptFile(receipt: Receipt)
    | FeedFile(database: Database) | Zip(members: seq<Member>) | ValidatedFile(validated: Validated)
    | EvidenceFile(candidateId: string)

  type Directory = map<string, Content>

  /** Digests, sizes and text functions, and the checks of the packaged tree, which see nothing but
      their arguments. */
  datatype Tools = Tools(
    sha256: Content -> string, md5: Content -> string, size: Content -> nat,
    fold: string -> string, beyond: char -> bool,
    package: (Receipt, Content, map<string, string>) -> Option<Fields>, rootOk: map<string, Content> -> bool,
    identify: Validated -> string)

  const SUMS := "SHA256SUMS"

  predicate HexDigest(s: string) {
    |s| == 64 && forall i :: 0 <= i < 64 ==> '0' <= s[i] <= '9' || 'a' <= s[i] <= 'f'
  }

  ghost predicate GoodTools(tools: Tools) {
    forall c: Content :: HexDigest(tools.sha256(c))
  }

  // ---------------------------------------------------------------- lines

  predicate LineBreak(c: char) {
    var n := c as int;
    10 <= n <= 13 || 28 <= n <= 30 || n == 0x85 || n == 0x2028 || n == 0x2029
  }

  predicate OneLine(s: string) {
    forall i :: 0 <= i < |s| ==> !LineBreak(s[i])
  }

  /** The lines of a text; a break at the end adds no empty line. */
  function Lines(s: string): (lines: seq<string>)
    ensures forall i :: 0 <= i < |lines| ==> OneLine(lines[i])
    ensures s != "" ==> lines != []
  {
    if s == "" then []
    else
      var rest := Lines(s[1..]);
      if LineBreak(s[0]) then [""] + rest
      else if rest == [] then [[s[0]]]
      else [[s[0]] + rest[0]] + rest[1..]
  }

  // ---------------------------------------------------------------- entries

  datatype Sum = Sum(digest: string, name: string)

  /** Index of the first double blank, or the length. */
  function Gap(s: string): (i: nat)
    ensures i <= |s| && (i < |s| ==> i + 2 <= |s|)
  {
    if |s| < 2 then |s| else if s[0] == ' ' && s[1] == ' ' then 0 else 1 + Gap(s[1..])
  }

  /** A flat name that a line of the list can hold. */
  predicate Listable(name: string) {
    SafePath(name) && '/' !in name && OneLine(name)
  }

  function ParseLine(line: string): Option<Sum> {
    var i := Gap(line);
    if i + 2 > |line| then None
    else
      var digest, name := line[..i], line[i + 2..];
      if HexDigest(digest) && SafePath(name) && '/' !in name then Some(Sum(digest, name)) else None
  }

  /** The list that the lines give, unless one is malformed or names a file again. */
  function Parsed(lines: seq<string>): Option<map<string, string>> {
    if lines == [] then Some(map[])
    else
      match (Parsed(lines[..|lines| - 1]), ParseLine(lines[|lines| - 1]))
      case (Some(sums), Some(sum)) => if sum.name in sums then None else Some(sums[sum.name := sum.digest])
      case _ => None
  }

  function Digests(dir: Directory, tools: Tools): map<string, string> {
    map n | n in dir && n != SUMS :: tools.sha256(dir[n])
  }

  /** The list names exactly the other files, with their digests. */
  predicate ChecksumsMatch(dir: Directory, tools: Tools) {
    SUMS in dir && dir[SUMS].Text? && Parsed(Lines(dir[SUMS].text)) == Some(Digests(dir, tools))
  }

  lemma {:induction false} ParsedNext(lines: seq<string>, i: nat, sums: map<string, string>)
    requires i < |lines| && Parsed(lines[..i]) == Some(sums)
    ensures var sum := ParseLine(lines[i]);
      Parsed(lines[..i + 1])
      == if sum.None? || sum.value.name in sums then None else Some(sums[sum.value.name := sum.value.digest])
  {
    assert lines[..i + 1][..i] == lines[..i];
  }

  method VerifyChecksums(dir: Directory, tools: Tools) returns (ok: bool)
    ensures ok <==> ChecksumsMatch(dir, tools)
  {
    if SUMS !in dir || !dir[SUMS].Text? { return false; }
    var lines := Lines(dir[SUMS].text);
    var expected: map<string, string> := map[];
    for i := 0 to |lines|
      invariant Parsed(lines[..i]) == Some(expected)
    {
      ParsedNext(lines, i, expected);
      var sum := ParseLine(lines[i]);
      if sum.None? || sum.value.name in expected {
        StaysBad(lines, i + 1);
        return false;
      }
      expected := expected[sum.value.name := sum.value.digest];
    }
    assert lines[..|lines|] == lines;
    return expected == Digests(dir, tools);
  }

  lemma {:induction false} StaysBad(lines: seq<string>, i: nat)
    requires i <= |lines| && Parsed(lines[..i]).None?
    ensures Parsed(lines).None?
    decreases |lines| - i
  {
    if i < |lines| {
      assert lines[..i + 1][..i] == lines[..i];
      StaysBad(lines, i + 1);
    } else {
      assert lines[..i] == lines;
    }
  }

  // ---------------------------------------------------------------- writing the list

  function SumLine(digest: string, name: string): string {
    digest + "  " + name
  }

  lemma {:induction false} GapAfter(digest: string, name: string)
    requires ' ' !in digest
    ensures Gap(SumLine(digest, name)) == |digest|
  {
    if digest == "" {
    } else {
      GapAfter(digest[1..], name);
      assert SumLine(digest, name)[1..] == SumLine(digest[1..], name);
    }
  }

  lemma {:induction false} LineReadsBack(digest: string, name: string)
    requires HexDigest(digest) && Listable(name)
    ensures ParseLine(SumLine(digest, name)) == Some(Sum(digest, name)) && OneLine(SumLine(digest, name))
  {
    GapAfter(digest, name);
    var line := SumLine(digest, name);
    assert line[..|digest|] == digest && line[|digest| + 2..] == name;
  }

  /** A text of whole lines. */
  predicate Whole(text: string) {
    text == "" || text[|text| - 1] == '\n'
  }

  lemma {:induction false} LastLine(line: string)
    requires OneLine(line)
    ensures Lines(line + "\n") == [line]
  {
    if line == "" {
      assert line + "\n" == "\n";
    } else {
      LastLine(line[1..]);
      assert (line + "\n")[1..] == line[1..] + "\n";
      assert [line[0]] + line[1..] == line;
    }
  }

  lemma {:induction false} AppendLine(text: string, line: string)
    requires Whole(text) && OneLine(line)
    ensures Lines(text + (line + "\n")) == Lines(text) + [line]
  {
    if text == "" {
      LastLine(line);
      assert text + (line + "\n") == line + "\n";
    } else {
      AppendLine(text[1..], line);
      assert (text + (line + "\n"))[1..] == text[1..] + (line + "\n");
    }
  }

  lemma {:induction false} ParsedSnoc(lines: seq<string>, line: string)
    requires Parsed(lines).Some? && ParseLine(line).Some? && ParseLine(line).value.name !in Parsed(lines).value
    ensures Parsed(lines + [line])
      == Some(Parsed(lines).value[ParseLine(line).value.name := ParseLine(line).value.digest])
  {
    assert (lines + [line])[..|lines|] == lines;
  }

  lemma {:induction false} AppendSum(text: string, sums: map<string, string>, digest: string, name: string)
    requires Whole(text) && Parsed(Lines(text)) == Some(sums)
    requires HexDigest(digest) && Listable(name) && name !in sums
    ensures var longer := text + (SumLine(digest, name) + "\n");
      Whole(longer) && Parsed(Lines(longer)) == Some(sums[name := digest])
  {
    LineReadsBack(digest, name);
    AppendLine(text, SumLine(digest, name));
    ParsedSnoc(Lines(text), SumLine(digest, name));
  }

  /** Every name of a verified list is listable. */
  lemma {:induction false} ParsedListable(lines: seq<string>, name: string)
    requires Parsed(lines).Some? && name in Parsed(lines).value
    requires forall i :: 0 <= i < |lines| ==> OneLine(lines[i])
    ensures Listable(name)
  {
    var front, last := lines[..|lines| - 1], lines[|lines| - 1];
    var sum := ParseLine(last).value;
    if name != sum.name { ParsedListable(front, name); }
  }

  /** A directory whose list matches has only listable names. */
  lemma {:induction false} MatchedListable(dir: Directory, tools: Tools, n: string)
    requires ChecksumsMatch(dir, tools) && n in dir && n != SUMS
    ensures Listable(n)
  {
    assert n in Digests(dir, tools);
    ParsedListable(Lines(dir[SUMS].text), n);
  }

  ghost predicate AllListable(dir: Directory) {
    forall n :: n in dir && n != SUMS ==> Listable(n)
  }

  /** The digests of the files that are not in `rest`. */
  ghost predicate DigestsBut(sums: map<string, string>, dir: Directory, tools: Tools, rest: set<string>) {
    && (forall n :: n in sums <==> n in dir && n != SUMS && n !in rest)
    && (forall n :: n in sums ==> sums[n] == tools.sha256(dir[n]))
  }

  lemma {:induction false} OneDigest(sums: map<string, string>, dir: Directory, tools: Tools, rest: set<string>,
                                     n: string)
    requires DigestsBut(sums, dir, tools, rest) && n in rest && rest <= dir.Keys - {SUMS}
    ensures DigestsBut(sums[n := tools.sha256(dir[n])], dir, tools, rest - {n})
  {
  }

  /** The text lists these digests, if all names fit into it. */
  ghost predicate Lists(dir: Directory, text: string, sums: map<string, string>) {
    AllListable(dir) ==> Whole(text) && Parsed(Lines(text)) == Some(sums)
  }

  lemma {:induction false} OneMoreSum(dir: Directory, tools: Tools, text: string, sums: map<string, string>,
                                      rest: set<string>, n: string)
    requires GoodTools(tools) && Lists(dir, text, sums)
    requires DigestsBut(sums, dir, tools, rest) && n in rest && rest <= dir.Keys - {SUMS}
    ensures var digest := tools.sha256(dir[n]);
      Lists(dir, text + (SumLine(digest, n) + "\n"), sums[n := digest])
  {
    if AllListable(dir) { AppendSum(text, sums, tools.sha256(dir[n]), n); }
  }

  lemma {:induction false} ListedAccepted(dir: Directory, text: string, sums: map<string, string>, listed: Directory,
                                          tools: Tools)
    requires DigestsBut(sums, dir, tools, {}) && listed == dir[SUMS := Text(text)]
    requires Lists(dir, text, sums)
    ensures ChecksumsMatch(listed, tools) <==> AllListable(dir)
  {
    assert Digests(listed, tools) == sums;
    if ChecksumsMatch(listed, tools) {
      forall n | n in dir && n != SUMS ensures Listable(n) { MatchedListable(listed, tools, n); }
    }
  }

  /** The text of the list, one line for each file. */
  method ChecksumText(dir: Directory, tools: Tools) returns (text: string, ghost sums: map<string, string>)
    requires GoodTools(tools)
    ensures DigestsBut(sums, dir, tools, {}) && Lists(dir, text, sums)
  {
    var rest := dir.Keys - {SUMS};
    text, sums := "", map[];
    while rest != {}
      invariant rest <= dir.Keys - {SUMS} && DigestsBut(sums, dir, tools, rest) && Lists(dir, text, sums)
      decreases |rest|
    {
      var n :| n in rest;
      OneMoreSum(dir, tools, text, sums, rest, n);
      OneDigest(sums, dir, tools, rest, n);
      text := text + (SumLine(tools.sha256(dir[n]), n) + "\n");
      sums := sums[n := tools.sha256(dir[n])];
      rest := rest - {n};
    }
  }

  /** A freshly written list is accepted exactly when all file names fit into it. */
  method WriteChecksums(dir: Directory, tools: Tools) returns (listed: Directory)
    requires GoodTools(tools)
    ensures listed.Keys == dir.Keys + {SUMS} && forall n :: n in dir && n != SUMS ==> listed[n] == dir[n]
    ensures ChecksumsMatch(listed, tools) <==> AllListable(dir)
  {
    var text;
    ghost var sums;
    text, sums := ChecksumText(dir, tools);
    listed := dir[SUMS := Text(text)];
    ListedAccepted(dir, text, sums, listed, tools);
  }
}
