/** The generator of Downloader feeds and installers. */
module DownloaderDb {
  import opened Options
  import opened Releases
  import opened PackagePaths
  import opened AssetUrl
  import opened CandidateFiles
  import opened Distribution

  const EARLIEST := 1_000_000_000
  const INI_NAME := "downloader_mister_magik.ini"

  function FeedUrl(repository: string, ch: Channel): string {
    "https://raw.githubusercontent.com/" + (repository + ("/downloader/" + ZipName(ch)))
  }

  function Ini(repository: string, ch: Channel): Content {
    Text("[mister_magik]\n" + ("db_url = " + (FeedUrl(repository, ch) + "\n")))
  }

  function ItemOf(e: FileEntry, repository: string, tag: string): Item {
    Item(e.md5, e.size, Url(repository, tag, e.asset))
  }

  function ItemsOf(files: seq<FileEntry>, repository: string, tag: string): map<string, Item> {
    if files == [] then map[] else
      var last := files[|files| - 1];
      ItemsOf(files[..|files| - 1], repository, tag)[last.path := ItemOf(last, repository, tag)]
  }

  function DatabaseOf(r: Receipt, repository: string, tag: string, timestamp: int): Database {
    Database(1, DB_ID, timestamp, r.version, r.build, ItemsOf(r.files, repository, tag), AllFolders(r.files))
  }

  /** The directory with the generated files of a channel. */
  function Written(dir: Directory, ch: Channel, db: Database, repository: string): Directory {
    var feed := dir[DbName(ch) := FeedFile(db)][ZipName(ch) := Zip([Member(DbName(ch), FeedFile(db))])];
    if ch == Alpha then feed else feed[InstallerName(ch) := Zip([Member(INI_NAME, Ini(repository, ch))])]
  }

  predicate HeaderAccepted(r: Receipt, repository: string, tag: string, timestamp: int) {
    && r.format == RECEIPT_FORMAT && r.version == VersionOf(r.build) && tag == "v" + r.version
    && timestamp >= EARLIEST && AsciiRepository(repository)
  }

  predicate EntryAccepted(dir: Directory, tools: Tools, e: FileEntry) {
    ValidatePath(e.path) && SourceOk(dir, tools, e)
  }

  ghost predicate Generates(dir: Directory, repository: string, tag: string, timestamp: int, tools: Tools) {
    && RECEIPT_FILE in dir && dir[RECEIPT_FILE].ReceiptFile?
    && var r := dir[RECEIPT_FILE].receipt;
    && HeaderAccepted(r, repository, tag, timestamp)
    && forall i :: 0 <= i < |r.files| ==> EntryAccepted(dir, tools, r.files[i])
  }

  lemma {:induction false} OneMoreEntry(files: seq<FileEntry>, repository: string, tag: string, i: nat)
    requires i < |files|
    ensures ItemsOf(files[..i + 1], repository, tag)
      == ItemsOf(files[..i], repository, tag)[files[i].path := ItemOf(files[i], repository, tag)]
    ensures AllFolders(files[..i + 1]) == AllFolders(files[..i]) + FoldersAbove(Parts(files[i].path))
  {
    assert files[..i + 1][..i] == files[..i];
  }

  /** One entry: its item and its ancestor folders. */
  method CollectEntry(dir: Directory, e: FileEntry, repository: string, tag: string, tools: Tools,
                      items: map<string, Item>, folders: set<string>)
    returns (ok: bool, moreItems: map<string, Item>, moreFolders: set<string>)
    ensures ok == EntryAccepted(dir, tools, e)
    ensures ok ==> moreItems == items[e.path := ItemOf(e, repository, tag)]
    ensures ok ==> moreFolders == folders + FoldersAbove(Parts(e.path))
  {
    if !ValidatePath(e.path) || !SourceOk(dir, tools, e) { return false, items, folders; }
    moreItems := items[e.path := ItemOf(e, repository, tag)];
    moreFolders := AddParents(Parts(e.path), folders);
    ok := true;
  }

  /** The tables after the first `n` entries, all of which are in order. */
  ghost predicate Collected(dir: Directory, files: seq<FileEntry>, n: nat, repository: string, tag: string,
                            tools: Tools, items: map<string, Item>, folders: set<string>)
  {
    && n <= |files| && (forall j :: 0 <= j < n ==> EntryAccepted(dir, tools, files[j]))
    && items == ItemsOf(files[..n], repository, tag) && folders == AllFolders(files[..n])
  }

  lemma {:induction false} AllCollected(dir: Directory, files: seq<FileEntry>, repository: string, tag: string,
                                        tools: Tools, items: map<string, Item>, folders: set<string>)
    requires Collected(dir, files, |files|, repository, tag, tools, items, folders)
    ensures forall i :: 0 <= i < |files| ==> EntryAccepted(dir, tools, files[i])
    ensures items == ItemsOf(files, repository, tag) && folders == AllFolders(files)
  {
    assert files[..|files|] == files;
  }

  /** One more entry, unless it is not in order. */
  method CollectNext(dir: Directory, files: seq<FileEntry>, n: nat, repository: string, tag: string, tools: Tools,
                     items: map<string, Item>, folders: set<string>)
    returns (ok: bool, moreItems: map<string, Item>, moreFolders: set<string>)
    requires n < |files| && Collected(dir, files, n, repository, tag, tools, items, folders)
    ensures ok ==> Collected(dir, files, n + 1, repository, tag, tools, moreItems, moreFolders)
    ensures !ok ==> !EntryAccepted(dir, tools, files[n])
  {
    OneMoreEntry(files, repository, tag, n);
    ok, moreItems, moreFolders := CollectEntry(dir, files[n], repository, tag, tools, items, folders);
  }

  /** The tables of the feed: one item for each path, and every folder above any of them. */
  method CollectEntries(dir: Directory, files: seq<FileEntry>, repository: string, tag: string, tools: Tools)
    returns (ok: bool, items: map<string, Item>, folders: set<string>)
    ensures ok <==> forall i :: 0 <= i < |files| ==> EntryAccepted(dir, tools, files[i])
    ensures ok ==> items == ItemsOf(files, repository, tag) && folders == AllFolders(files)
  {
    ok, items, folders := true, map[], {};
    for i := 0 to |files|
      invariant ok && Collected(dir, files, i, repository, tag, tools, items, folders)
    {
      ok, items, folders := CollectNext(dir, files, i, repository, tag, tools, items, folders);
      if !ok { return; }
    }
    AllCollected(dir, files, repository, tag, tools, items, folders);
  }

  /** Writes the feed, its archive and the installer of a channel, or nothing. */
  method Generate(dir: Directory, ch: Channel, repository: string, tag: string, timestamp: int, tools: Tools)
    returns (after: Option<Directory>)
    ensures after.Some? <==> Generates(dir, repository, tag, timestamp, tools)
    ensures after.Some? ==>
      after.value == Written(dir, ch, DatabaseOf(dir[RECEIPT_FILE].receipt, repository, tag, timestamp), repository)
  {
    if RECEIPT_FILE !in dir || !dir[RECEIPT_FILE].ReceiptFile? { return None; }
    var r := dir[RECEIPT_FILE].receipt;
    if !HeaderAccepted(r, repository, tag, timestamp) { return None; }
    var ok, items, folders := CollectEntries(dir, r.files, repository, tag, tools);
    if !ok { return None; }
    var database := Database(1, DB_ID, timestamp, r.version, r.build, items, folders);
    return Some(Written(dir, ch, database, repository));
  }

  // ---------------------------------------------------------------- the gate reads what was generated

  lemma {:induction false} SameText(a: string, b: string, c: string, repository: string, d: string, e: string,
                                    channel: string, f: string, g: string)
    ensures a + (b + ((c + (repository + (d + (e + (channel + f))))) + g))
      == a + (b + (c + (repository + (d + (e + (channel + (f + g)))))))
  {
    var tail := d + (e + (channel + f));
    assert tail + g == d + (e + (channel + (f + g)));
    assert (c + (repository + tail)) + g == c + (repository + (tail + g));
  }

  /** The generator writes into an installer what the gate expects there. */
  lemma {:induction false} GateReadsIni(repository: string, ch: Channel)
    ensures Ini(repository, ch) == Text(ExpectedIni(repository, ch)) && INI_NAME == "downloader_mister_magik.ini"
  {
    SameText("[mister_magik]\n", "db_url = ", "https://raw.githubusercontent.com/", repository, "/downloader/",
      NAME_PREFIX, Label(ch), "-db.json.zip", "\n");
  }

  lemma {:induction false} ItemsByPath(files: seq<FileEntry>, fold: string -> string, repository: string, tag: string,
                                       i: nat)
    requires Unique(files, fold) && i < |files|
    ensures files[i].path in ItemsOf(files, repository, tag)
    ensures ItemsOf(files, repository, tag)[files[i].path] == ItemOf(files[i], repository, tag)
  {
    var last := |files| - 1;
    if i == last {
    } else {
      ItemsByPath(files[..last], fold, repository, tag, i);
      assert files[i].path != files[last].path;
    }
  }

  lemma {:induction false} ItemPaths(files: seq<FileEntry>, repository: string, tag: string)
    ensures ItemsOf(files, repository, tag).Keys == Paths(files)
  {
    if files == [] {
    } else {
      var last := |files| - 1;
      ItemPaths(files[..last], repository, tag);
      assert Paths(files) == Paths(files[..last]) + {files[last].path};
    }
  }

  lemma {:induction false} DecimalChars(n: nat, c: char)
    requires c in Decimal(n)
    ensures '0' <= c <= '9'
  {
    if n >= 10 && c in Decimal(n / 10) { DecimalChars(n / 10, c); }
  }

  lemma {:induction false} TagIsPlain(build: nat)
    ensures Plain("v" + VersionOf(build))
  {
    forall c | c in Decimal(build) ensures '0' <= c <= '9' { DecimalChars(build, c); }
    var tag := "v" + ("0.2." + Decimal(build));
    assert forall i :: 0 <= i < |tag| ==> tag[i] == 'v' || tag[i] == '.' || '0' <= tag[i] <= '9' by {
      forall i | 0 <= i < |tag| ensures tag[i] == 'v' || tag[i] == '.' || '0' <= tag[i] <= '9' {
        if i >= 5 { assert tag[i] == Decimal(build)[i - 5] && tag[i] in Decimal(build); }
      }
    }
  }

  /** An asset that one feed of the candidate already names has nothing in it that a URL would change. */
  lemma {:induction false} NamedAssetIsPlain(e: FileEntry, db: Database, version: string, beyond: char -> bool)
    requires Named(e, db, version, beyond).Some? && e.asset == AssetName(e.path)
    ensures Plain(e.asset) && e.asset != ""
  {
    LocatedIsPlain(db.files[e.path].url, beyond);
    forall i | 0 <= i < |e.asset|
      ensures e.asset[i] != '/' && e.asset[i] != '?' && e.asset[i] != '#' && !Stripped(e.asset[i])
    {
      AssetNameChars(e.path, e.asset[i]);
    }
  }

  /** A generated database fits, for every candidate that already has a feed that fits. */
  lemma {:induction false} GeneratedFits(r: Receipt, other: Database, repository: string, timestamp: int, tools: Tools)
    requires Unique(r.files, tools.fold) && r.build >= 0 && r.version == VersionOf(r.build)
    requires forall i :: 0 <= i < |r.files| ==> r.files[i].asset == AssetName(r.files[i].path)
    requires DatabaseFits(other, r, repository, tools.beyond) && AsciiRepository(repository)
    ensures DatabaseFits(DatabaseOf(r, repository, "v" + r.version, timestamp), r, repository, tools.beyond)
  {
    var tag := "v" + r.version;
    var db := DatabaseOf(r, repository, tag, timestamp);
    ItemPaths(r.files, repository, tag);
    TagIsPlain(r.build);
    forall i | 0 <= i < |r.files|
      ensures Named(r.files[i], db, r.version, tools.beyond) == Some(repository)
    {
      var e := r.files[i];
      assert Named(e, other, r.version, tools.beyond) == Some(repository);
      NamedAssetIsPlain(e, other, r.version, tools.beyond);
      ItemsByPath(r.files, tools.fold, repository, tag, i);
      ReadsBack(repository, tag, e.asset, tools.beyond);
    }
  }
}
