/** What a promotion asks for and what it writes, spelled out. */
module PreparedCandidate {
  import opened Releases
  import opened PackagePaths
  import opened PathForms
  import opened AssetUrl
  import opened CandidateFiles
  import opened Distribution
  import opened DownloaderDb
  import opened Promotion
  import opened AcceptedCandidate

  // ---------------------------------------------------------------- what it asks for

  predicate RepositoryChar(c: char) {
    'a' <= c <= 'z' || 'A' <= c <= 'Z' || '0' <= c <= '9' || c == '_' || c == '.' || c == '-'
  }

  predicate RepositoryPart(s: string) {
    s != "" && forall i :: 0 <= i < |s| ==> RepositoryChar(s[i])
  }

  ghost predicate OwnerAndName(s: string, owner: string, name: string) {
    s == owner + ['/'] + name && RepositoryPart(owner) && RepositoryPart(name)
  }

  ghost predicate RepositoryName(s: string) {
    exists owner, name :: OwnerAndName(s, owner, name)
  }

  lemma {:induction false} PartExactly(s: string)
    ensures AsciiPart(s) <==> RepositoryPart(s)
  {
    forall c: char ensures (c == '.' || c == '-' || WordChar(c, _ => false)) <==> RepositoryChar(c) {}
  }

  lemma {:induction false} RepositoryExactly(s: string)
    ensures AsciiRepository(s) <==> RepositoryName(s)
  {
    var parts := Split(s, '/');
    if AsciiRepository(s) {
      JoinSplit(s, '/');
      PartExactly(parts[0]);
      PartExactly(parts[1]);
      assert OwnerAndName(s, parts[0], parts[1]);
    }
    forall owner, name | OwnerAndName(s, owner, name) ensures AsciiRepository(s) {
      SplitFirst(owner, name, '/');
      SplitPlain(name, '/');
      PartExactly(owner);
      PartExactly(name);
    }
  }

  /** A path that a Downloader database may own. */
  ghost predicate Ownable(s: string) {
    && !AtOrBelow(s, "linux") && !AtOrBelow(s, "saves")
    && !NamedFile(s, "MiSTer.ini") && !NamedFile(s, "menu.rbf") && !NamedFile(s, "MiSTer")
    && !exists n :: DropInName(n) && NamedFile(s, n)
  }

  ghost predicate AllOwnable(files: seq<FileEntry>) {
    forall i :: 0 <= i < |files| ==> Ownable(files[i].path)
  }

  lemma {:induction false} OwnableExactly(r: Receipt)
    requires AllSafe(r.files)
    ensures PathsAllowed(r) <==> AllOwnable(r.files)
  {
    forall i | 0 <= i < |r.files| ensures ValidatePath(r.files[i].path) <==> Ownable(r.files[i].path) {
      OwnedExactly(r.files[i].path);
    }
  }

  predicate FullCommit(s: string) {
    |s| == 40 && forall c :: c in s ==> LowerHex(c)
  }

  predicate EvidenceFor(dir: Directory, candidateId: string) {
    "delivery-evidence.json" in dir && dir["delivery-evidence.json"] == EvidenceFile(candidateId)
  }

  /** A promotion goes to beta or release, for an accepted alpha candidate of this repository and
      commit with its evidence, whose paths a database may own, at a time after 2001. */
  lemma {:induction false} PromotableExactly(dir: Directory, channel: Channel, repository: string,
                                             sourceRevision: string, timestamp: int, tools: Tools, v: Validated)
    ensures Promotable(dir, channel, repository, sourceRevision, timestamp, tools, v) <==>
      && (channel == Beta || channel == Stable) && timestamp >= 1_000_000_000
      && RepositoryName(repository) && v.repository == repository
      && FullCommit(sourceRevision) && v.fields.sourceRevision == sourceRevision
      && EvidenceFor(dir, tools.identify(v)) && Accepts(dir, Alpha, tools, v)
      && AllOwnable(dir[RECEIPT_FILE].receipt.files)
  {
    RepositoryExactly(repository);
    HexDigits(sourceRevision);
    if Accepts(dir, Alpha, tools, v) {
      AssetsThere(dir, tools, dir[RECEIPT_FILE].receipt);
      OwnableExactly(dir[RECEIPT_FILE].receipt);
    }
  }

  /** The generator writes a feed exactly for a receipt of its format, whose version, build and tag
      agree, for a repository and a time, with paths it may own and with every asset there as the
      receipt has it. */
  lemma {:induction false} GeneratesOnlyFor(dir: Directory, repository: string, tag: string, timestamp: int,
                                            tools: Tools)
    ensures Generates(dir, repository, tag, timestamp, tools) <==>
      && "release-assets.json" in dir && dir["release-assets.json"].ReceiptFile?
      && var r := dir["release-assets.json"].receipt;
      && r.format == "mister-magik-release-assets-v1" && r.version == VersionOf(r.build) && tag == "v" + r.version
      && timestamp >= 1_000_000_000 && RepositoryName(repository)
      && forall i :: 0 <= i < |r.files| ==>
           var e := r.files[i];
           && ValidatePath(e.path) && e.asset in dir && tools.size(dir[e.asset]) == e.size
           && tools.sha256(dir[e.asset]) == e.sha256 && tools.md5(dir[e.asset]) == e.md5
  {
    RepositoryExactly(repository);
  }

  // ---------------------------------------------------------------- what it writes

  /** The database of a promotion: identity, time, one item for each path with the URL of its asset
      in the version's release, and every folder of the paths. */
  lemma {:induction false} PromotedFeedExactly(r: Receipt, repository: string, timestamp: int, fold: string -> string)
    requires Separate(r.files, fold) && AllSafe(r.files)
    ensures var db := PromotedFeed(r, repository, timestamp);
      && db.v == 1 && db.dbId == "mister_magik" && db.timestamp == timestamp
      && db.version == r.version && db.build == r.build
      && NoOther(r.files, db.files.Keys) && FoldersFor(r.files, db.folders)
      && forall i :: 0 <= i < |r.files| ==>
           var e := r.files[i];
           e.path in db.files && db.files[e.path] == Item(e.md5, e.size, Url(repository, "v" + r.version, e.asset))
  {
    ItemPaths(r.files, repository, "v" + r.version);
    AllFoldersExactly(r.files, AllFolders(r.files));
    forall i | 0 <= i < |r.files|
      ensures var items := ItemsOf(r.files, repository, "v" + r.version);
        && r.files[i].path in items
        && items[r.files[i].path]
          == Item(r.files[i].md5, r.files[i].size, Url(repository, "v" + r.version, r.files[i].asset))
    {
      ItemsByPath(r.files, fold, repository, "v" + r.version, i);
    }
  }

  /** The files after a generation: database, zip and, but for alpha, installer of the channel, and
      every other file as it was. */
  lemma {:induction false} WrittenExactly(dir: Directory, ch: Channel, db: Database, repository: string, n: string)
    ensures var after := Written(dir, ch, db, repository);
      if n == DbName(ch) then n in after && after[n] == FeedFile(db)
      else if n == ZipName(ch) then n in after && after[n] == Zip([Member(DbName(ch), FeedFile(db))])
      else if n == InstallerName(ch) && ch != Alpha then
        n in after && after[n] == Zip([Member("downloader_mister_magik.ini", Text(ExpectedIni(repository, ch)))])
      else (n in after <==> n in dir) && (n in dir ==> after[n] == dir[n])
  {
    ChannelNamesDiffer(ch);
    GateReadsIni(repository, ch);
  }
}
