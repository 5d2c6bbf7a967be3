/** What candidate verification accepts, said file by file and without the order of its checks. */
module AcceptedCandidate {
  import opened Options
  import opened Releases
  import opened PackagePaths
  import opened PathForms
  import opened AssetUrl
  import opened CandidateFiles
  import opened Distribution

  // ---------------------------------------------------------------- the checksum list

  /** One line of the list: 64 lower-case hexadecimal digits, two blanks and a flat name. */
  predicate SumOf(line: string, sum: Sum) {
    && line == sum.digest + "  " + sum.name && SafePath(sum.name) && '/' !in sum.name
    && |sum.digest| == 64 && forall c :: c in sum.digest ==> LowerHex(c)
  }

  lemma {:induction false} DigestExactly(s: string)
    ensures HexDigest(s) <==> |s| == 64 && forall c :: c in s ==> LowerHex(c)
  {
    forall c: char ensures LowerHex(c) <==> '0' <= c <= '9' || 'a' <= c <= 'f' { HexDigit(c); }
    if |s| == 64 && !HexDigest(s) {
      var i :| 0 <= i < 64 && !('0' <= s[i] <= '9' || 'a' <= s[i] <= 'f');
      assert s[i] in s && !LowerHex(s[i]);
    }
  }

  lemma {:induction false} GapSplits(line: string)
    requires Gap(line) + 2 <= |line|
    ensures line == line[..Gap(line)] + "  " + line[Gap(line) + 2..]
  {
    if !(line[0] == ' ' && line[1] == ' ') {
      var rest := line[1..];
      var i := Gap(rest);
      GapSplits(rest);
      assert line[..i + 1] == [line[0]] + rest[..i];
      assert line[i + 3..] == rest[i + 2..];
      assert line == [line[0]] + rest;
    }
  }

  lemma {:induction false} LineExactly(line: string, sum: Sum)
    ensures ParseLine(line) == Some(sum) <==> SumOf(line, sum)
  {
    DigestExactly(sum.digest);
    if SumOf(line, sum) {
      GapAfter(sum.digest, sum.name);
      assert line[..|sum.digest|] == sum.digest && line[|sum.digest| + 2..] == sum.name;
    } else if ParseLine(line) == Some(sum) {
      GapSplits(line);
    }
  }

  /** The list has one line for each of these names, in this order, with these digests. */
  ghost predicate ListOf(lines: seq<string>, names: seq<string>, sums: map<string, string>) {
    && |lines| == |names| && (forall i, j :: 0 <= i < j < |names| ==> names[i] != names[j])
    && (forall n :: n in sums <==> n in names)
    && forall i :: 0 <= i < |names| ==> names[i] in sums && SumOf(lines[i], Sum(sums[names[i]], names[i]))
  }

  lemma {:induction false} ListSnoc(lines: seq<string>, names: seq<string>, sums: map<string, string>, line: string,
                                    sum: Sum)
    requires ListOf(lines, names, sums) && sum.name !in sums && SumOf(line, sum)
    ensures ListOf(lines + [line], names + [sum.name], sums[sum.name := sum.digest])
  {
  }

  lemma {:induction false} LastParsed(lines: seq<string>)
    requires lines != [] && Parsed(lines).Some?
    ensures var k := |lines| - 1;
      && Parsed(lines[..k]).Some? && ParseLine(lines[k]).Some?
      && var sums, sum := Parsed(lines[..k]).value, ParseLine(lines[k]).value;
      && sum.name !in sums && Parsed(lines).value == sums[sum.name := sum.digest]
  {
  }

  lemma {:induction false} LastListed(lines: seq<string>, k: nat, names: seq<string>, sum: Sum)
    requires |lines| == k + 1 && Parsed(lines).Some? && Parsed(lines[..k]).Some? && ParseLine(lines[k]) == Some(sum)
    requires sum.name !in Parsed(lines[..k]).value
    requires Parsed(lines).value == Parsed(lines[..k]).value[sum.name := sum.digest]
    requires ListOf(lines[..k], names, Parsed(lines[..k]).value)
    ensures ListOf(lines, names + [sum.name], Parsed(lines).value)
  {
    LineExactly(lines[k], sum);
    ListSnoc(lines[..k], names, Parsed(lines[..k]).value, lines[k], sum);
    assert lines == lines[..k] + [lines[k]];
  }

  lemma {:induction false} ParsedIsList(lines: seq<string>) returns (names: seq<string>)
    requires Parsed(lines).Some?
    ensures ListOf(lines, names, Parsed(lines).value)
  {
    names := [];
    if lines != [] {
      LastParsed(lines);
      var k := |lines| - 1;
      var sum := ParseLine(lines[k]).value;
      names := ParsedIsList(lines[..k]);
      LastListed(lines, k, names, sum);
      names := names + [sum.name];
    }
  }

  lemma {:induction false} ListFront(lines: seq<string>, names: seq<string>, sums: map<string, string>)
    requires ListOf(lines, names, sums) && lines != []
    ensures var k := |lines| - 1;
      && names[k] in sums && SumOf(lines[k], Sum(sums[names[k]], names[k]))
      && ListOf(lines[..k], names[..k], sums - {names[k]})
  {
  }

  lemma {:induction false} ListIsParsed(lines: seq<string>, names: seq<string>, sums: map<string, string>)
    requires ListOf(lines, names, sums)
    ensures Parsed(lines) == Some(sums)
  {
    if lines == [] {
      assert sums == map[];
    } else {
      var k := |lines| - 1;
      var sum := Sum(sums[names[k]], names[k]);
      ListFront(lines, names, sums);
      ListIsParsed(lines[..k], names[..k], sums - {sum.name});
      LastIsParsed(lines, k, sums, sum);
    }
  }

  lemma {:induction false} LastIsParsed(lines: seq<string>, k: nat, sums: map<string, string>, sum: Sum)
    requires |lines| == k + 1 && SumOf(lines[k], sum) && sum.name in sums && sums[sum.name] == sum.digest
    requires Parsed(lines[..k]) == Some(sums - {sum.name})
    ensures Parsed(lines) == Some(sums)
  {
    LineExactly(lines[k], sum);
    ParsedSnoc(lines[..k], lines[k]);
    SameAgain(sums, sum.name);
    assert lines == lines[..k] + [lines[k]];
  }

  lemma {:induction false} SameAgain(sums: map<string, string>, n: string)
    requires n in sums
    ensures (sums - {n})[n := sums[n]] == sums
  {
  }

  /** The text has one line for each of the sums, in some order. */
  ghost predicate Sums(text: string, sums: map<string, string>) {
    exists names :: ListOf(Lines(text), names, sums)
  }

  lemma {:induction false} ParsedExactly(text: string, sums: map<string, string>)
    ensures Parsed(Lines(text)) == Some(sums) <==> Sums(text, sums)
  {
    if Parsed(Lines(text)) == Some(sums) {
      var names := ParsedIsList(Lines(text));
    }
    forall names | ListOf(Lines(text), names, sums) ensures Parsed(Lines(text)) == Some(sums) {
      ListIsParsed(Lines(text), names, sums);
    }
  }

  /** The checksum list matches exactly when its lines, in some order, are the digests and names of
      all other files, each of them once. */
  lemma {:induction false} ListedExactly(dir: Directory, tools: Tools)
    ensures ChecksumsMatch(dir, tools) <==>
      "SHA256SUMS" in dir && dir["SHA256SUMS"].Text? && Sums(dir["SHA256SUMS"].text, Digests(dir, tools))
  {
    if SUMS in dir && dir[SUMS].Text? {
      ParsedExactly(dir[SUMS].text, Digests(dir, tools));
    }
  }

  // ---------------------------------------------------------------- the payload

  ghost predicate ByPath(files: seq<FileEntry>, hashes: map<string, string>) {
    && (forall i :: 0 <= i < |files| ==> files[i].path in hashes && hashes[files[i].path] == files[i].sha256)
    && forall p :: p in hashes ==> exists i :: 0 <= i < |files| && files[i].path == p
  }

  ghost predicate Installed(files: seq<FileEntry>, dir: Directory, tree: map<string, Content>) {
    && (forall i :: 0 <= i < |files| ==>
          files[i].asset in dir && files[i].path in tree && tree[files[i].path] == dir[files[i].asset])
    && forall p :: p in tree ==> exists i :: 0 <= i < |files| && files[i].path == p
  }

  /** The path and the asset of no two entries are the same. */
  ghost predicate Separate(files: seq<FileEntry>, fold: string -> string) {
    forall i, j :: 0 <= i < j < |files| ==>
      fold(files[i].path) != fold(files[j].path) && files[i].asset != files[j].asset
  }

  lemma {:induction false} SeparateFront(files: seq<FileEntry>, fold: string -> string)
    requires Separate(files, fold) && files != []
    ensures var k := |files| - 1;
      Separate(files[..k], fold) && forall i :: 0 <= i < k ==> files[i].path != files[k].path
  {
  }

  lemma {:induction false} OneMoreHash(files: seq<FileEntry>, k: nat, hashes: map<string, string>)
    requires |files| == k + 1 && ByPath(files[..k], hashes)
    requires forall i :: 0 <= i < k ==> files[i].path != files[k].path
    ensures ByPath(files, hashes[files[k].path := files[k].sha256])
  {
    var more := hashes[files[k].path := files[k].sha256];
    forall i | 0 <= i < |files| ensures files[i].path in more && more[files[i].path] == files[i].sha256 {
      if i < k { assert files[..k][i] == files[i]; }
    }
    forall p | p in more ensures exists i :: 0 <= i < |files| && files[i].path == p {
      if p != files[k].path {
        var i :| 0 <= i < k && files[..k][i].path == p;
        assert files[i].path == p;
      }
    }
  }

  lemma {:induction false} HashesByPath(files: seq<FileEntry>, fold: string -> string)
    requires Separate(files, fold)
    ensures ByPath(files, Hashes(files))
  {
    if files == [] {
    } else {
      var k := |files| - 1;
      SeparateFront(files, fold);
      HashesByPath(files[..k], fold);
      OneMoreHash(files, k, Hashes(files[..k]));
    }
  }

  lemma {:induction false} OneByPath(files: seq<FileEntry>, a: map<string, string>, b: map<string, string>)
    requires ByPath(files, a) && ByPath(files, b)
    ensures a == b
  {
    forall p | p in a ensures p in b && a[p] == b[p] {
      var i :| 0 <= i < |files| && files[i].path == p;
    }
    forall p | p in b ensures p in a {
      var i :| 0 <= i < |files| && files[i].path == p;
    }
  }

  lemma {:induction false} OneMoreInstalled(files: seq<FileEntry>, k: nat, dir: Directory, tree: map<string, Content>)
    requires |files| == k + 1 && Installed(files[..k], dir, tree) && files[k].asset in dir
    requires forall i :: 0 <= i < k ==> files[i].path != files[k].path
    ensures Installed(files, dir, tree[files[k].path := dir[files[k].asset]])
  {
    var more := tree[files[k].path := dir[files[k].asset]];
    forall i | 0 <= i < |files|
      ensures files[i].asset in dir && files[i].path in more && more[files[i].path] == dir[files[i].asset]
    {
      if i < k { assert files[..k][i] == files[i]; }
    }
    forall p | p in more ensures exists i :: 0 <= i < |files| && files[i].path == p {
      if p != files[k].path {
        var i :| 0 <= i < k && files[..k][i].path == p;
        assert files[i].path == p;
      }
    }
  }

  lemma {:induction false} TreeInstalled(files: seq<FileEntry>, dir: Directory, fold: string -> string)
    requires Separate(files, fold) && forall e :: e in files ==> e.asset in dir
    ensures Installed(files, dir, Tree(files, dir))
  {
    if files == [] {
    } else {
      var k := |files| - 1;
      SeparateFront(files, fold);
      TreeInstalled(files[..k], dir, fold);
      OneMoreInstalled(files, k, dir, Tree(files[..k], dir));
    }
  }

  lemma {:induction false} OneInstalled(files: seq<FileEntry>, dir: Directory, a: map<string, Content>,
                                        b: map<string, Content>)
    requires Installed(files, dir, a) && Installed(files, dir, b)
    ensures a == b
  {
    forall p | p in a ensures p in b && a[p] == b[p] {
      var i :| 0 <= i < |files| && files[i].path == p;
    }
    forall p | p in b ensures p in a {
      var i :| 0 <= i < |files| && files[i].path == p;
    }
  }

  /** A receipt of build `n` is for version 0.2.n and the archive of that version. */
  predicate ReceiptFor(r: Receipt) {
    && r.format == "mister-magik-release-assets-v1" && r.build >= 1 && r.version == "0.2." + Decimal(r.build)
    && r.archive == "mister-magik-" + (r.version + ".zip")
  }

  /** An entry is the file that its asset holds: safe path, named after it, size and both digests. */
  predicate EntryFor(dir: Directory, tools: Tools, e: FileEntry) {
    && SafePath(e.path) && e.asset == AssetName(e.path) && e.asset in dir
    && e.size == tools.size(dir[e.asset]) && e.sha256 == tools.sha256(dir[e.asset]) && e.md5 == tools.md5(dir[e.asset])
  }

  /** The payload of a receipt: its archive, its entries, and what the package says of itself. */
  ghost predicate PayloadFor(dir: Directory, tools: Tools, r: Receipt, fields: Fields) {
    && ReceiptFor(r) && r.archive in dir && tools.sha256(dir[r.archive]) == r.archiveSha256
    && Separate(r.files, tools.fold) && (forall i :: 0 <= i < |r.files| ==> EntryFor(dir, tools, r.files[i]))
    && exists hashes :: ByPath(r.files, hashes) && tools.package(r, dir[r.archive], hashes) == Some(fields)
  }

  lemma {:induction false} EntriesExactly(dir: Directory, tools: Tools, files: seq<FileEntry>)
    ensures (forall e :: e in files ==> EntryOk(dir, tools, e))
      <==> forall i :: 0 <= i < |files| ==> EntryFor(dir, tools, files[i])
  {
    forall e: FileEntry ensures EntryOk(dir, tools, e) <==> EntryFor(dir, tools, e) {}
    if forall e :: e in files ==> EntryOk(dir, tools, e) {
      forall i | 0 <= i < |files| ensures EntryFor(dir, tools, files[i]) {
        assert files[i] in files;
      }
    }
  }

  lemma {:induction false} PackageExactly(dir: Directory, tools: Tools, r: Receipt, fields: Fields)
    requires Separate(r.files, tools.fold) && r.archive in dir
    ensures tools.package(r, dir[r.archive], Hashes(r.files)) == Some(fields)
      <==> exists hashes :: ByPath(r.files, hashes) && tools.package(r, dir[r.archive], hashes) == Some(fields)
  {
    HashesByPath(r.files, tools.fold);
    forall hashes | ByPath(r.files, hashes) ensures hashes == Hashes(r.files) {
      OneByPath(r.files, hashes, Hashes(r.files));
    }
  }

  lemma {:induction false} PayloadExactly(dir: Directory, tools: Tools, r: Receipt, fields: Fields)
    ensures PayloadOk(dir, tools, r) && tools.package(r, dir[r.archive], Hashes(r.files)) == Some(fields)
      <==> PayloadFor(dir, tools, r, fields)
  {
    EntriesExactly(dir, tools, r.files);
    if Separate(r.files, tools.fold) && r.archive in dir {
      PackageExactly(dir, tools, r, fields);
    }
  }

  // ---------------------------------------------------------------- the feeds

  /** The folder belongs to one of the paths. */
  ghost predicate FolderOf(f: string, files: seq<FileEntry>) {
    exists i :: 0 <= i < |files| && SlashPrefix(f, files[i].path)
  }

  ghost predicate AllSafe(files: seq<FileEntry>) {
    forall i :: 0 <= i < |files| ==> SafePath(files[i].path)
  }

  lemma {:induction false} FoldersOf(files: seq<FileEntry>, f: string)
    requires AllSafe(files)
    ensures f in AllFolders(files) <==> FolderOf(f, files)
  {
    if files == [] {
    } else {
      var k := |files| - 1;
      FoldersOf(files[..k], f);
      FoldersExactly(files[k].path, f);
      assert FolderOf(f, files[..k]) ==> FolderOf(f, files) by {
        if FolderOf(f, files[..k]) {
          var i :| 0 <= i < k && SlashPrefix(f, files[..k][i].path);
          assert SlashPrefix(f, files[i].path);
        }
      }
      if FolderOf(f, files) && !SlashPrefix(f, files[k].path) {
        var i :| 0 <= i < |files| && SlashPrefix(f, files[i].path);
        assert files[..k][i] == files[i];
      }
    }
  }

  ghost predicate FoldersFor(files: seq<FileEntry>, folders: set<string>) {
    forall f :: f in folders <==> FolderOf(f, files)
  }

  lemma {:induction false} AllFoldersExactly(files: seq<FileEntry>, folders: set<string>)
    requires AllSafe(files)
    ensures folders == AllFolders(files) <==> FoldersFor(files, folders)
  {
    forall f ensures f in AllFolders(files) <==> FolderOf(f, files) { FoldersOf(files, f); }
  }

  /** The item is where the release keeps the asset, with its size and digest. */
  predicate ItemFor(e: FileEntry, item: Item, version: string, repository: string, beyond: char -> bool) {
    && item.hash == e.md5 && item.size == e.size
    && Locate(item.url, beyond) == Some(Location(repository, "v" + version, e.asset))
  }

  /** Every key is the path of an entry. */
  ghost predicate NoOther(files: seq<FileEntry>, keys: set<string>) {
    forall p :: p in keys ==> exists i :: 0 <= i < |files| && files[i].path == p
  }

  predicate ItemsFor(files: seq<FileEntry>, items: map<string, Item>, version: string, repository: string,
                     beyond: char -> bool)
  {
    forall i :: 0 <= i < |files| ==>
      files[i].path in items && ItemFor(files[i], items[files[i].path], version, repository, beyond)
  }

  /** A database that installs exactly the payload from one repository. */
  ghost predicate DatabaseFor(db: Database, r: Receipt, repository: string, beyond: char -> bool) {
    && db.dbId == "mister_magik" && db.v == 1 && db.version == r.version && db.build == r.build
    && NoOther(r.files, db.files.Keys) && ItemsFor(r.files, db.files, r.version, repository, beyond)
    && FoldersFor(r.files, db.folders)
  }

  lemma {:induction false} ItemExactly(e: FileEntry, db: Database, version: string, repository: string,
                                       beyond: char -> bool)
    requires SafePath(e.path)
    ensures Named(e, db, version, beyond) == Some(repository)
      <==> e.path in db.files && ItemFor(e, db.files[e.path], version, repository, beyond)
  {
  }

  lemma {:induction false} ItemsExactly(files: seq<FileEntry>, db: Database, version: string, repository: string,
                                        beyond: char -> bool)
    requires AllSafe(files)
    ensures (forall i :: 0 <= i < |files| ==> Named(files[i], db, version, beyond) == Some(repository))
      <==> ItemsFor(files, db.files, version, repository, beyond)
  {
    forall i | 0 <= i < |files|
      ensures Named(files[i], db, version, beyond) == Some(repository)
        <==> files[i].path in db.files && ItemFor(files[i], db.files[files[i].path], version, repository, beyond)
    {
      ItemExactly(files[i], db, version, repository, beyond);
    }
  }

  lemma {:induction false} PathsExactly(files: seq<FileEntry>, keys: set<string>)
    requires forall i :: 0 <= i < |files| ==> files[i].path in keys
    ensures keys == Paths(files) <==> NoOther(files, keys)
  {
  }

  lemma {:induction false} DatabaseExactly(db: Database, r: Receipt, repository: string, beyond: char -> bool)
    requires AllSafe(r.files)
    ensures DatabaseFits(db, r, repository, beyond) <==> DatabaseFor(db, r, repository, beyond)
  {
    AllFoldersExactly(r.files, db.folders);
    ItemsExactly(r.files, db, r.version, repository, beyond);
    if ItemsFor(r.files, db.files, r.version, repository, beyond) {
      PathsExactly(r.files, db.files.Keys);
    }
  }

  /** No path is a folder of another one. */
  ghost predicate Apart(files: seq<FileEntry>) {
    forall i, j :: 0 <= i < |files| && 0 <= j < |files| ==> !StartsWith(files[j].path, files[i].path + ['/'])
  }

  lemma {:induction false} ApartExactly(files: seq<FileEntry>)
    requires AllSafe(files)
    ensures NoConflict(files) <==> Apart(files)
  {
    forall i | 0 <= i < |files|
      ensures files[i].path + "/" in AllFolders(files)
        <==> exists j :: 0 <= j < |files| && StartsWith(files[j].path, files[i].path + ['/'])
    {
      var f := files[i].path + ['/'];
      FoldersOf(files, f);
      assert forall j :: 0 <= j < |files| ==> (SlashPrefix(f, files[j].path) <==> StartsWith(files[j].path, f));
      assert f == files[i].path + "/";
    }
    if Apart(files) {
      forall p | p in Paths(files) ensures p + "/" !in AllFolders(files) {
        var i :| 0 <= i < |files| && files[i].path == p;
      }
    }
  }

  predicate InstallerFor(dir: Directory, ch: Channel, repository: string) {
    && InstallerName(ch) in dir
    && dir[InstallerName(ch)] == Zip([Member("downloader_mister_magik.ini", Text(ExpectedIni(repository, ch)))])
  }

  /** The files of a channel: the database, its zip, and an installer but for alpha. */
  ghost predicate FeedFor(dir: Directory, ch: Channel, r: Receipt, repository: string, beyond: char -> bool) {
    && DbName(ch) in dir && dir[DbName(ch)].FeedFile?
    && DatabaseFor(dir[DbName(ch)].database, r, repository, beyond) && r.files != [] && Apart(r.files)
    && ZipName(ch) in dir && dir[ZipName(ch)] == Zip([Member(DbName(ch), dir[DbName(ch)])])
    && (ch == Alpha ==> InstallerName(ch) !in dir) && (ch != Alpha ==> InstallerFor(dir, ch, repository))
  }

  lemma {:induction false} FeedExactly(dir: Directory, ch: Channel, r: Receipt, repository: string,
                                       beyond: char -> bool)
    requires AllSafe(r.files)
    ensures FeedFits(dir, ch, r, repository, beyond) <==> FeedFor(dir, ch, r, repository, beyond)
  {
    ApartExactly(r.files);
    if DbName(ch) in dir && dir[DbName(ch)].FeedFile? {
      DatabaseExactly(dir[DbName(ch)].database, r, repository, beyond);
    }
  }

  // ---------------------------------------------------------------- names and verdict

  /** A file has to be an asset, the archive, one of four documents, or of a channel that is present. */
  ghost predicate Expected(n: string, dir: Directory, r: Receipt) {
    || n == r.archive || n == "release-assets.json" || n == "validated-candidate.json"
    || n == "delivery-evidence.json" || n == "SHA256SUMS"
    || (exists i :: 0 <= i < |r.files| && n == r.files[i].asset)
    || exists ch: Channel :: DbName(ch) in dir
         && (n == DbName(ch) || n == ZipName(ch) || (n == InstallerName(ch) && ch != Alpha))
  }

  lemma {:induction false} ExpectedExactly(n: string, dir: Directory, r: Receipt)
    ensures AllowedName(n, dir, r) <==> Expected(n, dir, r)
  {
    if exists ch: Channel :: OfChannel(n, dir, ch) {
      var ch: Channel :| OfChannel(n, dir, ch);
      assert DbName(ch) in dir;
    }
  }

  /** What the verdict says. */
  ghost predicate VerdictFor(dir: Directory, r: Receipt, tools: Tools, v: Validated) {
    && v.version == r.version && v.build == r.build
    && (forall n :: n in v.assets <==>
          n == r.archive || n == "release-assets.json" || exists i :: 0 <= i < |r.files| && n == r.files[i].asset)
    && forall n :: n in v.assets ==> n in dir && v.assets[n] == tools.sha256(dir[n])
  }

  lemma {:induction false} AssetsExactly(dir: Directory, r: Receipt, tools: Tools, assets: map<string, string>)
    requires RECEIPT_FILE in dir && r.archive in dir && forall i :: 0 <= i < |r.files| ==> r.files[i].asset in dir
    ensures assets == AssetDigests(dir, r, tools) <==>
      && (forall n :: n in assets <==>
            n == r.archive || n == "release-assets.json" || exists i :: 0 <= i < |r.files| && n == r.files[i].asset)
      && forall n :: n in assets ==> n in dir && assets[n] == tools.sha256(dir[n])
  {
    assert forall n :: n in Assets(r.files) <==> exists i :: 0 <= i < |r.files| && n == r.files[i].asset;
  }

  // ---------------------------------------------------------------- all together

  ghost predicate AllDigests(dir: Directory, tools: Tools, sums: map<string, string>) {
    && (forall n :: n in sums <==> n in dir && n != "SHA256SUMS")
    && forall n :: n in sums ==> sums[n] == tools.sha256(dir[n])
  }

  ghost predicate Summed(dir: Directory, tools: Tools) {
    && "SHA256SUMS" in dir && dir["SHA256SUMS"].Text?
    && exists sums :: AllDigests(dir, tools, sums) && Sums(dir["SHA256SUMS"].text, sums)
  }

  lemma {:induction false} SummedExactly(dir: Directory, tools: Tools)
    ensures ChecksumsMatch(dir, tools) <==> Summed(dir, tools)
  {
    ListedExactly(dir, tools);
    assert AllDigests(dir, tools, Digests(dir, tools));
    forall sums | AllDigests(dir, tools, sums) ensures sums == Digests(dir, tools) {}
  }

  ghost predicate RootFor(files: seq<FileEntry>, dir: Directory, tools: Tools) {
    exists tree :: Installed(files, dir, tree) && tools.rootOk(tree)
  }

  lemma {:induction false} RootExactly(files: seq<FileEntry>, dir: Directory, tools: Tools)
    requires Separate(files, tools.fold) && forall e :: e in files ==> e.asset in dir
    ensures tools.rootOk(Tree(files, dir)) <==> RootFor(files, dir, tools)
  {
    TreeInstalled(files, dir, tools.fold);
    forall tree | Installed(files, dir, tree) ensures tree == Tree(files, dir) {
      OneInstalled(files, dir, tree, Tree(files, dir));
    }
  }

  /** Receipt, payload and package, and the verdict on them. */
  ghost predicate ContentFor(dir: Directory, tools: Tools, r: Receipt, v: Validated) {
    && "release-assets.json" in dir && dir["release-assets.json"] == ReceiptFile(r)
    && PayloadFor(dir, tools, r, v.fields) && RootFor(r.files, dir, tools) && VerdictFor(dir, r, tools, v)
  }

  lemma {:induction false} JudgedExactly(dir: Directory, r: Receipt, tools: Tools, v: Validated, fields: Fields)
    requires RECEIPT_FILE in dir && r.archive in dir && forall i :: 0 <= i < |r.files| ==> r.files[i].asset in dir
    ensures v == Judged(dir, r, fields, v.repository, tools) <==> v.fields == fields && VerdictFor(dir, r, tools, v)
  {
    AssetsExactly(dir, r, tools, v.assets);
  }

  lemma {:induction false} AssetsThere(dir: Directory, tools: Tools, r: Receipt)
    requires PayloadOk(dir, tools, r)
    ensures r.archive in dir && Separate(r.files, tools.fold) && AllSafe(r.files)
    ensures (forall e :: e in r.files ==> e.asset in dir) && forall i :: 0 <= i < |r.files| ==> r.files[i].asset in dir
  {
    forall i | 0 <= i < |r.files| ensures EntryOk(dir, tools, r.files[i]) { assert r.files[i] in r.files; }
  }

  lemma {:induction false} ContentFrom(dir: Directory, r: Receipt, tools: Tools, v: Validated)
    requires Verdict(dir, r, tools, v)
    ensures ContentFor(dir, tools, r, v)
  {
    AssetsThere(dir, tools, r);
    var fields := tools.package(r, dir[r.archive], Hashes(r.files)).value;
    PayloadExactly(dir, tools, r, fields);
    RootExactly(r.files, dir, tools);
    JudgedExactly(dir, r, tools, v, fields);
  }

  lemma {:induction false} ContentGives(dir: Directory, r: Receipt, tools: Tools, v: Validated)
    requires ContentFor(dir, tools, r, v)
    ensures Verdict(dir, r, tools, v)
  {
    PayloadExactly(dir, tools, r, v.fields);
    AssetsThere(dir, tools, r);
    RootExactly(r.files, dir, tools);
    JudgedExactly(dir, r, tools, v, v.fields);
  }

  /** A feed that is there installs the payload. */
  ghost predicate PresentFor(dir: Directory, ch: Channel, r: Receipt, repository: string, beyond: char -> bool) {
    DbName(ch) in dir ==> FeedFor(dir, ch, r, repository, beyond)
  }

  lemma {:induction false} PresentExactly(dir: Directory, ch: Channel, r: Receipt, repository: string,
                                          beyond: char -> bool)
    requires AllSafe(r.files)
    ensures FitsIfPresent(dir, ch, r, repository, beyond) <==> PresentFor(dir, ch, r, repository, beyond)
  {
    FeedExactly(dir, ch, r, repository, beyond);
  }

  /** The feed of the channel asked for is there, and every feed that is there installs the payload. */
  ghost predicate ChannelsFor(dir: Directory, channel: Channel, r: Receipt, repository: string, beyond: char -> bool) {
    && DbName(channel) in dir
    && forall ch: Channel :: PresentFor(dir, ch, r, repository, beyond)
  }

  lemma {:induction false} ChannelsExactly(dir: Directory, channel: Channel, r: Receipt, repository: string,
                                           beyond: char -> bool)
    requires AllSafe(r.files)
    ensures DbName(channel) in dir && FeedsFit(dir, r, repository, beyond)
      <==> ChannelsFor(dir, channel, r, repository, beyond)
  {
    PresentExactly(dir, Alpha, r, repository, beyond);
    PresentExactly(dir, Beta, r, repository, beyond);
    PresentExactly(dir, Stable, r, repository, beyond);
    if FeedsFit(dir, r, repository, beyond) {
      forall ch: Channel ensures PresentFor(dir, ch, r, repository, beyond) {
        match ch case Alpha => case Beta => case Stable =>
      }
    }
  }

  ghost predicate OnlyExpected(dir: Directory, r: Receipt) {
    forall n :: n in dir ==> Expected(n, dir, r)
  }

  lemma {:induction false} NamesExactly(dir: Directory, r: Receipt)
    ensures (forall n :: n in dir ==> AllowedName(n, dir, r)) <==> OnlyExpected(dir, r)
  {
    forall n ensures AllowedName(n, dir, r) <==> Expected(n, dir, r) { ExpectedExactly(n, dir, r); }
  }

  predicate RecordFor(dir: Directory, v: Validated) {
    "validated-candidate.json" in dir && dir["validated-candidate.json"] == ValidatedFile(v)
  }

  /** A candidate, file by file. */
  ghost predicate CandidateFor(dir: Directory, channel: Channel, tools: Tools, r: Receipt, v: Validated) {
    && Summed(dir, tools) && ContentFor(dir, tools, r, v) && RecordFor(dir, v) && OnlyExpected(dir, r)
    && ChannelsFor(dir, channel, r, v.repository, tools.beyond)
  }

  lemma {:induction false} AcceptedIsCandidate(dir: Directory, channel: Channel, tools: Tools, v: Validated)
    requires Accepts(dir, channel, tools, v)
    ensures CandidateFor(dir, channel, tools, dir[RECEIPT_FILE].receipt, v)
  {
    var r := dir[RECEIPT_FILE].receipt;
    assert Summed(dir, tools) by { SummedExactly(dir, tools); }
    assert ContentFor(dir, tools, r, v) by { ContentFrom(dir, r, tools, v); }
    assert OnlyExpected(dir, r) by { NamesExactly(dir, r); }
    assert ChannelsFor(dir, channel, r, v.repository, tools.beyond) by {
      AssetsThere(dir, tools, r);
      ChannelsExactly(dir, channel, r, v.repository, tools.beyond);
    }
  }

  lemma {:induction false} CandidateIsAccepted(dir: Directory, channel: Channel, tools: Tools, r: Receipt, v: Validated)
    requires CandidateFor(dir, channel, tools, r, v)
    ensures Accepts(dir, channel, tools, v)
  {
    assert ChecksumsMatch(dir, tools) by { SummedExactly(dir, tools); }
    assert Verdict(dir, r, tools, v) by { ContentGives(dir, r, tools, v); }
    assert forall n :: n in dir ==> AllowedName(n, dir, r) by { NamesExactly(dir, r); }
    assert FeedsFit(dir, r, v.repository, tools.beyond) by {
      AssetsThere(dir, tools, r);
      ChannelsExactly(dir, channel, r, v.repository, tools.beyond);
    }
  }

  /** Candidate verification accepts exactly such directories, with exactly this verdict. */
  lemma {:induction false} AcceptsExactly(dir: Directory, channel: Channel, tools: Tools, v: Validated)
    ensures Accepts(dir, channel, tools, v) <==> exists r :: CandidateFor(dir, channel, tools, r, v)
  {
    if Accepts(dir, channel, tools, v) {
      AcceptedIsCandidate(dir, channel, tools, v);
    }
    forall r | CandidateFor(dir, channel, tools, r, v) ensures Accepts(dir, channel, tools, v) {
      CandidateIsAccepted(dir, channel, tools, r, v);
    }
  }
}
