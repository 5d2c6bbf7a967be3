/** The gate every candidate has to pass: receipt, payload and the feeds that are present. */
module Distribution {
  import opened Options
  import opened Releases
  import opened PackagePaths
  import opened AssetUrl
  import opened CandidateFiles

  const NAME_PREFIX := "mister-magik-"
  const RECEIPT_FILE := "release-assets.json"
  const VALIDATED_FILE := "validated-candidate.json"
  const EVIDENCE_FILE := "delivery-evidence.json"
  const RECEIPT_FORMAT := "mister-magik-release-assets-v1"
  const DB_ID := "mister_magik"

  function Label(ch: Channel): string {
    match ch case Alpha => "alpha" case Beta => "beta" case Stable => "release"
  }

  function DbName(ch: Channel): string {
    NAME_PREFIX + (Label(ch) + "-db.json")
  }

  function ZipName(ch: Channel): string {
    NAME_PREFIX + (Label(ch) + "-db.json.zip")
  }

  function InstallerName(ch: Channel): string {
    NAME_PREFIX + (Label(ch) + "-installer.zip")
  }

  function Decimal(n: nat): string {
    if n < 10 then [('0' as int + n) as char] else Decimal(n / 10) + [('0' as int + n % 10) as char]
  }

  // ---------------------------------------------------------------- the receipt and the payload

  function VersionOf(build: int): string {
    "0.2." + if build >= 0 then Decimal(build) else "-" + Decimal(-build)
  }

  predicate ReceiptOk(r: Receipt) {
    r.format == RECEIPT_FORMAT && r.build >= 1 && r.version == VersionOf(r.build)
      && r.archive == NAME_PREFIX + (r.version + ".zip")
  }

  /** No two entries share a path (whatever its case) or an asset. */
  predicate Unique(files: seq<FileEntry>, fold: string -> string) {
    forall i, j :: 0 <= i < j < |files|
      ==> fold(files[i].path) != fold(files[j].path) && files[i].asset != files[j].asset
  }

  predicate SourceOk(dir: Directory, tools: Tools, e: FileEntry) {
    e.asset in dir && tools.size(dir[e.asset]) == e.size && tools.sha256(dir[e.asset]) == e.sha256
      && tools.md5(dir[e.asset]) == e.md5
  }

  predicate EntryOk(dir: Directory, tools: Tools, e: FileEntry) {
    SafePath(e.path) && e.asset == AssetName(e.path) && SourceOk(dir, tools, e)
  }

  function Hashes(files: seq<FileEntry>): map<string, string> {
    if files == [] then map[] else
      var last := files[|files| - 1];
      Hashes(files[..|files| - 1])[last.path := last.sha256]
  }

  /** The installed tree: every path with the bytes of its asset. */
  function Tree(files: seq<FileEntry>, dir: Directory): map<string, Content>
    requires forall e :: e in files ==> e.asset in dir
  {
    if files == [] then map[] else
      var last := files[|files| - 1];
      Tree(files[..|files| - 1], dir)[last.path := dir[last.asset]]
  }

  function Paths(files: seq<FileEntry>): set<string> {
    set i | 0 <= i < |files| :: files[i].path
  }

  function Assets(files: seq<FileEntry>): set<string> {
    set i | 0 <= i < |files| :: files[i].asset
  }

  predicate PayloadOk(dir: Directory, tools: Tools, r: Receipt) {
    && ReceiptOk(r) && r.archive in dir && tools.sha256(dir[r.archive]) == r.archiveSha256
    && Unique(r.files, tools.fold) && (forall e :: e in r.files ==> EntryOk(dir, tools, e))
    && tools.package(r, dir[r.archive], Hashes(r.files)).Some?
  }

  // ---------------------------------------------------------------- one feed

  function AllFolders(files: seq<FileEntry>): set<string> {
    if files == [] then {} else AllFolders(files[..|files| - 1]) + FoldersAbove(Parts(files[|files| - 1].path))
  }

  /** No file is where another one needs a folder. */
  predicate NoConflict(files: seq<FileEntry>) {
    forall p :: p in Paths(files) ==> p + "/" !in AllFolders(files)
  }

  /** The repository that the feed's item for an entry names, if the item is in order. */
  function Named(e: FileEntry, db: Database, version: string, beyond: char -> bool): Option<string> {
    if !SafePath(e.path) || e.path !in db.files then None
    else
      var item := db.files[e.path];
      match Locate(item.url, beyond)
      case None => None
      case Some(l) =>
        if l.tag == "v" + version && l.asset == e.asset && item.size == e.size && item.hash == e.md5
        then Some(l.repository) else None
  }

  function InstalledLabel(ch: Channel): string {
    match ch case Alpha => "alpha" case Beta => "beta" case Stable => "release"
  }

  /** The settings file that the gate expects in a channel's installer, in the gate's own words. */
  function ExpectedIni(repository: string, ch: Channel): string {
    "[mister_magik]\n" + ("db_url = " + ("https://raw.githubusercontent.com/" + (repository
      + ("/downloader/" + ("mister-magik-" + (InstalledLabel(ch) + ("-db.json.zip" + "\n")))))))
  }

  predicate InstallerFits(dir: Directory, ch: Channel, repository: string) {
    if ch == Alpha then InstallerName(ch) !in dir
    else
      && InstallerName(ch) in dir
      && dir[InstallerName(ch)] == Zip([Member("downloader_mister_magik.ini", Text(ExpectedIni(repository, ch)))])
  }

  predicate DatabaseFits(db: Database, r: Receipt, repository: string, beyond: char -> bool) {
    && db.dbId == DB_ID && db.v == 1 && db.version == r.version && db.build == r.build
    && db.files.Keys == Paths(r.files)
    && (forall i :: 0 <= i < |r.files| ==> Named(r.files[i], db, r.version, beyond) == Some(repository))
    && db.folders == AllFolders(r.files)
  }

  /** The feed of a channel installs exactly the payload of the receipt, from one repository. */
  predicate FeedFits(dir: Directory, ch: Channel, r: Receipt, repository: string, beyond: char -> bool) {
    && DbName(ch) in dir && dir[DbName(ch)].FeedFile?
    && ZipName(ch) in dir && dir[ZipName(ch)] == Zip([Member(DbName(ch), dir[DbName(ch)])])
    && r.files != [] && NoConflict(r.files)
    && DatabaseFits(dir[DbName(ch)].database, r, repository, beyond) && InstallerFits(dir, ch, repository)
  }

  // ---------------------------------------------------------------- the verdict

  function AssetDigests(dir: Directory, r: Receipt, tools: Tools): map<string, string> {
    map n | n in Assets(r.files) + {r.archive, RECEIPT_FILE} && n in dir :: tools.sha256(dir[n])
  }

  function Judged(dir: Directory, r: Receipt, fields: Fields, repository: string, tools: Tools): Validated {
    Validated(repository, r.version, r.build, fields, AssetDigests(dir, r, tools))
  }

  /** The files of a channel whose feed is present. */
  predicate OfChannel(n: string, dir: Directory, ch: Channel) {
    DbName(ch) in dir && (n == DbName(ch) || n == ZipName(ch) || (ch != Alpha && n == InstallerName(ch)))
  }

  predicate AllowedName(n: string, dir: Directory, r: Receipt) {
    || n in Assets(r.files) || n == r.archive || n == RECEIPT_FILE || n == SUMS || n == VALIDATED_FILE
      || n == EVIDENCE_FILE
    || OfChannel(n, dir, Alpha) || OfChannel(n, dir, Beta) || OfChannel(n, dir, Stable)
  }

  /** The receipt, payload and package are in order, and this is the verdict on them. */
  predicate Verdict(dir: Directory, r: Receipt, tools: Tools, v: Validated) {
    && RECEIPT_FILE in dir && dir[RECEIPT_FILE] == ReceiptFile(r) && PayloadOk(dir, tools, r)
    && v == Judged(dir, r, tools.package(r, dir[r.archive], Hashes(r.files)).value, v.repository, tools)
    && tools.rootOk(Tree(r.files, dir))
  }

  predicate Recorded(dir: Directory, v: Validated) {
    VALIDATED_FILE in dir && dir[VALIDATED_FILE] == ValidatedFile(v)
  }

  /** The receipt, payload and package are in order, and the earlier verdict on them stands. */
  predicate Sound(dir: Directory, r: Receipt, tools: Tools, v: Validated) {
    Verdict(dir, r, tools, v) && Recorded(dir, v)
  }

  predicate FitsIfPresent(dir: Directory, ch: Channel, r: Receipt, repository: string, beyond: char -> bool) {
    DbName(ch) in dir ==> FeedFits(dir, ch, r, repository, beyond)
  }

  predicate FeedsFit(dir: Directory, r: Receipt, repository: string, beyond: char -> bool) {
    && FitsIfPresent(dir, Alpha, r, repository, beyond)
    && FitsIfPresent(dir, Beta, r, repository, beyond)
    && FitsIfPresent(dir, Stable, r, repository, beyond)
  }

  /** Everything but the comparison with the verdict that is recorded. */
  ghost predicate Judges(dir: Directory, channel: Channel, tools: Tools, v: Validated) {
    && ChecksumsMatch(dir, tools) && RECEIPT_FILE in dir && dir[RECEIPT_FILE].ReceiptFile?
    && var r := dir[RECEIPT_FILE].receipt;
    && Verdict(dir, r, tools, v) && DbName(channel) in dir && FeedsFit(dir, r, v.repository, tools.beyond)
    && forall n :: n in dir ==> AllowedName(n, dir, r)
  }

  /** Candidate verification accepts the directory for a channel, with this verdict. */
  ghost predicate Accepts(dir: Directory, channel: Channel, tools: Tools, v: Validated) {
    Judges(dir, channel, tools, v) && Recorded(dir, v)
  }

  // ---------------------------------------------------------------- the checks as they run

  /** The items of the first `n` entries are in order and name exactly these repositories. */
  ghost predicate ItemsRead(files: seq<FileEntry>, n: nat, db: Database, version: string, beyond: char -> bool,
                            found: set<string>)
  {
    && n <= |files|
    && (forall i :: 0 <= i < n ==>
          Named(files[i], db, version, beyond).Some? && Named(files[i], db, version, beyond).value in found)
    && (forall x :: x in found ==> exists i :: 0 <= i < n && Named(files[i], db, version, beyond) == Some(x))
  }

  method ReadItems(files: seq<FileEntry>, db: Database, version: string, beyond: char -> bool)
    returns (found: Option<set<string>>)
    ensures found.Some? ==> ItemsRead(files, |files|, db, version, beyond, found.value)
    ensures found.None? ==> exists i :: 0 <= i < |files| && Named(files[i], db, version, beyond).None?
  {
    var repositories: set<string> := {};
    for i := 0 to |files|
      invariant ItemsRead(files, i, db, version, beyond, repositories)
    {
      var named := Named(files[i], db, version, beyond);
      if named.None? { return None; }
      OneMoreItem(files, i, db, version, beyond, repositories, named.value);
      repositories := repositories + {named.value};
    }
    return Some(repositories);
  }

  lemma {:induction false} OneMoreItem(files: seq<FileEntry>, n: nat, db: Database, version: string,
                                       beyond: char -> bool, found: set<string>, named: string)
    requires n < |files| && ItemsRead(files, n, db, version, beyond, found)
      && Named(files[n], db, version, beyond) == Some(named)
    ensures ItemsRead(files, n + 1, db, version, beyond, found + {named})
  {
    forall x | x in found + {named}
      ensures exists i :: 0 <= i < n + 1 && Named(files[i], db, version, beyond) == Some(x)
    {
      if x in found {
        var i :| 0 <= i < n && Named(files[i], db, version, beyond) == Some(x);
      }
    }
  }

  /** The database part of `Reconstruct`: the one repository it names. */
  method ReadDatabase(db: Database, r: Receipt, beyond: char -> bool) returns (repository: Option<string>)
    ensures repository.Some? ==> r.files != [] && DatabaseFits(db, r, repository.value, beyond)
    ensures repository.None? ==> r.files == [] || forall x :: !DatabaseFits(db, r, x, beyond)
  {
    if db.dbId != DB_ID || db.v != 1 || db.version != r.version || db.build != r.build { return None; }
    if db.files.Keys != Paths(r.files) || db.folders != AllFolders(r.files) { return None; }
    var found := ReadItems(r.files, db, r.version, beyond);
    if found.None? || found.value == {} { return None; }
    var x :| x in found.value;
    if found.value != {x} {
      Mixed(r.files, db, r.version, beyond, found.value, x);
      return None;
    }
    return Some(x);
  }

  /** Two repositories in one feed. */
  lemma {:induction false} Mixed(files: seq<FileEntry>, db: Database, version: string, beyond: char -> bool,
                                 found: set<string>, x: string)
    requires ItemsRead(files, |files|, db, version, beyond, found) && x in found && found != {x}
    ensures forall repository ::
      exists i :: 0 <= i < |files| && Named(files[i], db, version, beyond) != Some(repository)
  {
    var y :| y in found && y != x;
    var i :| 0 <= i < |files| && Named(files[i], db, version, beyond) == Some(x);
    var j :| 0 <= j < |files| && Named(files[j], db, version, beyond) == Some(y);
  }

  /** Reads one feed as Downloader would; it succeeds exactly when the feed fits, and finds its repository. */
  method Reconstruct(dir: Directory, ch: Channel, r: Receipt, tools: Tools) returns (repository: Option<string>)
    ensures repository.Some? ==> FeedFits(dir, ch, r, repository.value, tools.beyond)
    ensures repository.None? ==> forall x :: !FeedFits(dir, ch, r, x, tools.beyond)
  {
    if DbName(ch) !in dir || !dir[DbName(ch)].FeedFile? { return None; }
    if ZipName(ch) !in dir || dir[ZipName(ch)] != Zip([Member(DbName(ch), dir[DbName(ch)])]) { return None; }
    if !NoConflict(r.files) { return None; }
    var found := ReadDatabase(dir[DbName(ch)].database, r, tools.beyond);
    if found.None? { return None; }
    OneRepository(dir[DbName(ch)].database, r, found.value, tools.beyond);
    if !InstallerFits(dir, ch, found.value) { return None; }
    return found;
  }

  lemma {:induction false} OneRepository(db: Database, r: Receipt, repository: string, beyond: char -> bool)
    requires r.files != [] && DatabaseFits(db, r, repository, beyond)
    ensures forall x :: DatabaseFits(db, r, x, beyond) ==> x == repository
  {
    assert Named(r.files[0], db, r.version, beyond) == Some(repository);
  }

  lemma {:induction false} OneFeedRepository(dir: Directory, ch: Channel, r: Receipt, repository: string,
                                             beyond: char -> bool)
    requires FeedFits(dir, ch, r, repository, beyond)
    ensures forall x :: FeedFits(dir, ch, r, x, beyond) ==> x == repository
  {
    OneRepository(dir[DbName(ch)].database, r, repository, beyond);
  }

  /** The next feed, if it is present; it must name the repository of those before. */
  method ReadFeed(dir: Directory, r: Receipt, tools: Tools, ch: Channel, before: Option<string>)
    returns (ok: bool, repository: Option<string>)
    ensures ok && before.Some? ==> repository == before
    ensures ok
      ==> if DbName(ch) in dir then repository.Some? && FeedFits(dir, ch, r, repository.value, tools.beyond)
      else repository == before
    ensures !ok ==> forall x :: FitsIfPresent(dir, ch, r, x, tools.beyond) ==> before.Some? && before.value != x
  {
    if DbName(ch) !in dir { return true, before; }
    var found := Reconstruct(dir, ch, r, tools);
    if found.None? { return false, before; }
    OneFeedRepository(dir, ch, r, found.value, tools.beyond);
    if before.Some? && before != found { return false, before; }
    return true, found;
  }

  /** Reconstructs every feed that is present; they must agree on one repository. */
  method ReadFeeds(dir: Directory, r: Receipt, tools: Tools) returns (ok: bool, repository: Option<string>)
    ensures ok && repository.Some? ==> FeedsFit(dir, r, repository.value, tools.beyond)
    ensures ok && repository.None? ==> DbName(Alpha) !in dir && DbName(Beta) !in dir && DbName(Stable) !in dir
    ensures !ok ==> forall x :: !FeedsFit(dir, r, x, tools.beyond)
  {
    var alpha: Option<string>, beta: Option<string>;
    ok, alpha := ReadFeed(dir, r, tools, Alpha, None);
    if !ok { return false, None; }
    if alpha.Some? { OneFeedRepository(dir, Alpha, r, alpha.value, tools.beyond); }
    ok, beta := ReadFeed(dir, r, tools, Beta, alpha);
    if !ok { return false, None; }
    if alpha.None? && beta.Some? { OneFeedRepository(dir, Beta, r, beta.value, tools.beyond); }
    ok, repository := ReadFeed(dir, r, tools, Stable, beta);
  }

  /** The checks of a candidate; they find the verdict on it. */
  method Judge(dir: Directory, channel: Channel, tools: Tools) returns (v: Option<Validated>)
    ensures v.Some? ==> Judges(dir, channel, tools, v.value)
    ensures v.Some? ==> forall x :: Judges(dir, channel, tools, x) ==> x == v.value
    ensures v.None? ==> forall x :: !Judges(dir, channel, tools, x)
  {
    var listed := VerifyChecksums(dir, tools);
    if !listed || RECEIPT_FILE !in dir || !dir[RECEIPT_FILE].ReceiptFile? { return None; }
    var r := dir[RECEIPT_FILE].receipt;
    if !PayloadOk(dir, tools, r) || DbName(channel) !in dir { return None; }
    if !forall n :: n in dir ==> AllowedName(n, dir, r) { return None; }
    var ok, repository := ReadFeeds(dir, r, tools);
    if !ok || !tools.rootOk(Tree(r.files, dir)) { return None; }
    OneFeedRepository(dir, channel, r, repository.value, tools.beyond);
    var fields := tools.package(r, dir[r.archive], Hashes(r.files)).value;
    return Some(Judged(dir, r, fields, repository.value, tools));
  }

  /** Candidate verification without writing the verdict: it decides `Accepts` and finds the verdict. */
  method Verify(dir: Directory, channel: Channel, tools: Tools) returns (v: Option<Validated>)
    ensures v.Some? ==> Accepts(dir, channel, tools, v.value)
    ensures v.None? ==> forall x :: !Accepts(dir, channel, tools, x)
  {
    v := Judge(dir, channel, tools);
    if v.Some? && !Recorded(dir, v.value) { v := None; }
  }
}
