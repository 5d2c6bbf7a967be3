/** An accepted candidate directory as publication sees it. */
module PublishableCandidate {
  import opened Options
  import opened Releases
  import opened PackagePaths
  import opened AssetUrl
  import opened CandidateFiles
  import opened Distribution
  import opened Promotion
  import RS = ReleaseState

  /** The file name behind each kind of asset. */
  function Spell(n: RS.Name, r: Receipt): string {
    match n
    case Payload(asset) => asset
    case Archive => r.archive
    case AssetList => RECEIPT_FILE
    case Checksums => SUMS
    case Receipt => VALIDATED_FILE
    case Evidence => EVIDENCE_FILE
    case Database(ch) => DbName(ch)
    case FeedZip(ch) => ZipName(ch)
    case Installer(ch) => InstallerName(ch)
  }

  function ChannelFiles(ch: Channel): set<RS.Name> {
    {RS.Database(ch), RS.FeedZip(ch), RS.Installer(ch)}
  }

  function PayloadNames(assets: set<string>): set<RS.Name> {
    set a | a in assets :: RS.Payload(a)
  }

  function CoreAssets(r: Receipt): set<RS.Name> {
    PayloadNames(Assets(r.files)) + {RS.Archive, RS.AssetList}
  }

  function AllNames(r: Receipt): set<RS.Name> {
    CoreAssets(r) + {RS.Checksums, RS.Receipt, RS.Evidence} + ChannelFiles(Alpha) + ChannelFiles(Beta)
      + ChannelFiles(Stable)
  }

  /** The asset that each item of a feed names. */
  function Targets(db: Database, beyond: char -> bool): map<string, string> {
    map path | path in db.files && Locate(db.files[path].url, beyond).Some? ::
      Locate(db.files[path].url, beyond).value.asset
  }

  /** All items that name the asset announce this digest. */
  ghost predicate Announced(db: Database, beyond: char -> bool, asset: string, digest: string) {
    var targets := Targets(db, beyond);
    forall path :: path in targets && targets[path] == asset ==> db.files[path].hash == digest
  }

  /** The bytes that a feed's digest of an asset stands for; bytes it does not announce are unknown,
      and count as none. */
  ghost function Meant(db: Database, dir: Directory, tools: Tools, bytes: Content -> seq<nat>,
                       asset: string): RS.Content
  {
    RS.Bytes(if asset in dir && Announced(db, tools.beyond, asset, tools.md5(dir[asset])) then bytes(dir[asset])
      else [])
  }

  /** What a feed installs: the assets it names, with the bytes its digests stand for. */
  ghost function Installs(db: Database, dir: Directory, tools: Tools,
                          bytes: Content -> seq<nat>): map<RS.Name, RS.Content>
  {
    map n | n in PayloadNames(Targets(db, tools.beyond).Values) ::
      if n.Payload? then Meant(db, dir, tools, bytes, n.path) else RS.Bytes([])
  }

  ghost function ContentOf(n: RS.Name, dir: Directory, r: Receipt, v: Validated, tools: Tools,
                           bytes: Content -> seq<nat>): RS.Content
    requires Spell(n, r) in dir
  {
    match n
    case Receipt => RS.Validated(v.version, v.fields.sourceRevision, bytes(dir[VALIDATED_FILE]))
    case FeedZip(ch) =>
      if DbName(ch) in dir && dir[DbName(ch)].FeedFile?
      then RS.FeedFile(ch, dir[DbName(ch)].database.version, Installs(dir[DbName(ch)].database, dir, tools, bytes),
        bytes(dir[ZipName(ch)]))
      else RS.Bytes(bytes(dir[ZipName(ch)]))
    case _ => RS.Bytes(bytes(dir[Spell(n, r)]))
  }

  /** The candidate of a publication order. */
  ghost function AsCandidate(dir: Directory, r: Receipt, v: Validated, tools: Tools,
                             bytes: Content -> seq<nat>): RS.Candidate
  {
    RS.Candidate(v.version, v.fields.sourceRevision, v.repository, CoreAssets(r),
      map n | n in AllNames(r) && Spell(n, r) in dir :: ContentOf(n, dir, r, v, tools, bytes))
  }

  // ---------------------------------------------------------------- one feed

  /** The items of a feed that fits are the entries of the receipt. */
  ghost predicate Entries(targets: map<string, string>, hashes: map<string, string>, files: seq<FileEntry>) {
    && targets.Keys == hashes.Keys == Paths(files)
    && forall i :: 0 <= i < |files| ==>
         targets[files[i].path] == files[i].asset && hashes[files[i].path] == files[i].md5
  }

  function Announcements(db: Database): map<string, string> {
    map path | path in db.files :: db.files[path].hash
  }

  lemma {:induction false} FittingEntries(db: Database, r: Receipt, repository: string, beyond: char -> bool)
    requires DatabaseFits(db, r, repository, beyond)
    ensures Entries(Targets(db, beyond), Announcements(db), r.files)
  {
    forall i | 0 <= i < |r.files|
      ensures var path := r.files[i].path;
        path in db.files && db.files[path].hash == r.files[i].md5
        && Locate(db.files[path].url, beyond).Some?
        && Locate(db.files[path].url, beyond).value.asset == r.files[i].asset
    {
      assert Named(r.files[i], db, r.version, beyond) == Some(repository);
    }
  }

  lemma {:induction false} EntryOf(targets: map<string, string>, hashes: map<string, string>, files: seq<FileEntry>,
                                   path: string) returns (i: nat)
    requires Entries(targets, hashes, files) && path in targets
    ensures i < |files| && files[i].path == path && targets[path] == files[i].asset && hashes[path] == files[i].md5
  {
    assert path in Paths(files);
    i :| 0 <= i < |files| && files[i].path == path;
  }

  lemma {:induction false} AssetsNamed(targets: map<string, string>, hashes: map<string, string>, files: seq<FileEntry>)
    requires Entries(targets, hashes, files)
    ensures targets.Values == Assets(files)
  {
    forall a | a in targets.Values ensures a in Assets(files) {
      var path :| path in targets && targets[path] == a;
      var i := EntryOf(targets, hashes, files, path);
    }
    forall a | a in Assets(files) ensures a in targets.Values {
      var i :| 0 <= i < |files| && files[i].asset == a;
      assert files[i].path in targets.Keys;
    }
  }

  lemma {:induction false} AssetAnnounced(db: Database, dir: Directory, r: Receipt, repository: string, tools: Tools,
                                          asset: string)
    requires DatabaseFits(db, r, repository, tools.beyond) && asset in dir
    requires forall i :: 0 <= i < |r.files| ==> SourceOk(dir, tools, r.files[i])
    ensures Announced(db, tools.beyond, asset, tools.md5(dir[asset]))
  {
    var targets := Targets(db, tools.beyond);
    FittingEntries(db, r, repository, tools.beyond);
    forall path | path in targets && targets[path] == asset
      ensures db.files[path].hash == tools.md5(dir[asset])
    {
      var i := EntryOf(targets, Announcements(db), r.files, path);
    }
  }

  /** A feed that fits installs exactly the payload assets, byte for byte. */
  lemma {:induction false} FeedInstallsPayload(db: Database, dir: Directory, r: Receipt, repository: string,
                                               tools: Tools, bytes: Content -> seq<nat>)
    requires DatabaseFits(db, r, repository, tools.beyond)
    requires forall i :: 0 <= i < |r.files| ==> SourceOk(dir, tools, r.files[i])
    ensures var items := Installs(db, dir, tools, bytes);
      && items.Keys == PayloadNames(Assets(r.files))
      && forall a :: a in Assets(r.files) ==> a in dir && items[RS.Payload(a)] == RS.Bytes(bytes(dir[a]))
  {
    FittingEntries(db, r, repository, tools.beyond);
    AssetsNamed(Targets(db, tools.beyond), Announcements(db), r.files);
    forall a | a in Assets(r.files)
      ensures a in dir && Announced(db, tools.beyond, a, tools.md5(dir[a]))
    {
      AssetAnnounced(db, dir, r, repository, tools, a);
    }
  }

  // ---------------------------------------------------------------- names and files correspond

  predicate ReceiptNamed(r: Receipt) {
    ReceiptOk(r) && forall i :: 0 <= i < |r.files| ==> r.files[i].asset == AssetName(r.files[i].path)
  }

  /** What tells the kinds of files apart. */
  function Kind(n: RS.Name): Option<char> {
    match n
    case Payload(_) => Some('-')
    case Archive => Some('0')
    case Database(ch) => MarkOf(ch)
    case FeedZip(ch) => MarkOf(ch)
    case Installer(ch) => MarkOf(ch)
    case _ => None
  }

  lemma {:induction false} ChannelKind(n: RS.Name, r: Receipt, ch: Channel)
    requires n in ChannelFiles(ch)
    ensures Mark(Spell(n, r)) == Kind(n)
  {
    ChannelMarks(ch);
  }

  lemma {:induction false} DocumentKind(n: RS.Name, r: Receipt)
    requires Kind(n).None?
    ensures Mark(Spell(n, r)) == None
  {
    OtherMarks();
  }

  lemma {:induction false} PayloadKind(n: RS.Name, r: Receipt)
    requires ReceiptNamed(r) && n.Payload? && n.path in Assets(r.files)
    ensures Mark(Spell(n, r)) == Kind(n)
  {
    var i :| 0 <= i < |r.files| && r.files[i].asset == n.path;
    AssetMark(r.files[i].path);
  }

  lemma {:induction false} SpelledKind(n: RS.Name, r: Receipt)
    requires ReceiptNamed(r) && n in AllNames(r)
    ensures Mark(Spell(n, r)) == Kind(n)
  {
    match n
    case Payload(_) => PayloadKind(n, r);
    case Archive => ArchiveMark(r);
    case Database(ch) => ChannelKind(n, r, ch);
    case FeedZip(ch) => ChannelKind(n, r, ch);
    case Installer(ch) => ChannelKind(n, r, ch);
    case _ => DocumentKind(n, r);
  }

  lemma {:induction false} ChannelFilesDiffer(m: RS.Name, n: RS.Name, r: Receipt, ch: Channel)
    requires m in ChannelFiles(ch) && n in ChannelFiles(ch) && Spell(m, r) == Spell(n, r)
    ensures m == n
  {
    ChannelNamesDiffer(ch);
  }

  lemma {:induction false} DocumentsDiffer(m: RS.Name, n: RS.Name, r: Receipt)
    requires Kind(m).None? && Kind(n).None? && Spell(m, r) == Spell(n, r)
    ensures m == n
  {
    assert RECEIPT_FILE[0] == 'r' && VALIDATED_FILE[0] == 'v' && EVIDENCE_FILE[0] == 'd' && SUMS[0] == 'S';
  }

  lemma {:induction false} SameKind(m: RS.Name, n: RS.Name, r: Receipt)
    requires Kind(m) == Kind(n) && Spell(m, r) == Spell(n, r)
    ensures m == n
  {
    if Kind(n).None? {
      DocumentsDiffer(m, n, r);
    } else if n.Database? || n.FeedZip? || n.Installer? {
      ChannelFilesDiffer(m, n, r, n.channel);
    }
  }

  /** No two assets of a candidate share a file. */
  lemma {:induction false} SpellInjective(m: RS.Name, n: RS.Name, r: Receipt)
    requires ReceiptNamed(r) && m in AllNames(r) && n in AllNames(r) && Spell(m, r) == Spell(n, r)
    ensures m == n
  {
    SpelledKind(m, r);
    SpelledKind(n, r);
    SameKind(m, n, r);
  }

  function FeedName(file: string, dir: Directory, r: Receipt, ch: Channel): (n: RS.Name)
    requires OfChannel(file, dir, ch)
    ensures n in ChannelFiles(ch) && Spell(n, r) == file
  {
    if file == DbName(ch) then RS.Database(ch) else if file == ZipName(ch) then RS.FeedZip(ch) else RS.Installer(ch)
  }

  /** Every file that the gate allows is an asset of the candidate. */
  function NameOf(file: string, dir: Directory, r: Receipt): (n: RS.Name)
    requires AllowedName(file, dir, r)
    ensures n in AllNames(r) && Spell(n, r) == file
  {
    if OfChannel(file, dir, Alpha) then FeedName(file, dir, r, Alpha)
    else if OfChannel(file, dir, Beta) then FeedName(file, dir, r, Beta)
    else if OfChannel(file, dir, Stable) then FeedName(file, dir, r, Stable)
    else if file in Assets(r.files) then RS.Payload(file)
    else if file == r.archive then RS.Archive
    else if file == RECEIPT_FILE then RS.AssetList
    else if file == SUMS then RS.Checksums
    else if file == VALIDATED_FILE then RS.Receipt
    else RS.Evidence
  }

  // ---------------------------------------------------------------- which files are there

  lemma {:induction false} PayloadMark(n: string, dir: Directory, r: Receipt, tools: Tools)
    requires PayloadOk(dir, tools, r) && n in Assets(r.files)
    ensures Mark(n) == Some('-')
  {
    var i :| 0 <= i < |r.files| && r.files[i].asset == n;
    assert r.files[i] in r.files && EntryOk(dir, tools, r.files[i]);
    AssetMark(r.files[i].path);
  }

  lemma {:induction false} OfChannelMark(n: string, dir: Directory, ch: Channel)
    requires OfChannel(n, dir, ch)
    ensures Mark(n) == MarkOf(ch) && DbName(ch) in dir
  {
    ChannelMarks(ch);
  }

  /** A file that carries the mark of a channel is there only along with the channel's database. */
  lemma {:induction false} MarkClaims(n: string, dir: Directory, r: Receipt, tools: Tools, ch: Channel)
    requires PayloadOk(dir, tools, r) && AllowedName(n, dir, r) && Mark(n) == MarkOf(ch)
    ensures DbName(ch) in dir
  {
    if OfChannel(n, dir, Alpha) {
      OfChannelMark(n, dir, Alpha);
    } else if OfChannel(n, dir, Beta) {
      OfChannelMark(n, dir, Beta);
    } else if OfChannel(n, dir, Stable) {
      OfChannelMark(n, dir, Stable);
    } else if n in Assets(r.files) {
      PayloadMark(n, dir, r, tools);
    } else {
      ArchiveMark(r);
      OtherMarks();
    }
  }

  lemma {:induction false} ChannelFilesTogether(dir: Directory, channel: Channel, tools: Tools, v: Validated,
                                                ch: Channel)
    requires Accepts(dir, channel, tools, v)
    ensures DbName(ch) in dir <==> ZipName(ch) in dir
    ensures ch != Alpha ==> (DbName(ch) in dir <==> InstallerName(ch) in dir)
    ensures DbName(ch) in dir ==> FeedFits(dir, ch, dir[RECEIPT_FILE].receipt, v.repository, tools.beyond)
  {
    var r := dir[RECEIPT_FILE].receipt;
    ChannelMarks(ch);
    if ZipName(ch) in dir { MarkClaims(ZipName(ch), dir, r, tools, ch); }
    if InstallerName(ch) in dir { MarkClaims(InstallerName(ch), dir, r, tools, ch); }
    assert FitsIfPresent(dir, ch, r, v.repository, tools.beyond);
  }

  // ---------------------------------------------------------------- the candidate

  /** The payload and the documents beside it are there. */
  ghost predicate Complete(dir: Directory, r: Receipt) {
    && Assets(r.files) <= dir.Keys && r.archive in dir && RECEIPT_FILE in dir && SUMS in dir && VALIDATED_FILE in dir
      && EVIDENCE_FILE in dir
  }

  lemma {:induction false} AssetsThere(dir: Directory, tools: Tools, r: Receipt)
    requires PayloadOk(dir, tools, r)
    ensures Assets(r.files) <= dir.Keys && r.archive in dir
  {
    SourcesOk(dir, r.files, tools);
    forall a | a in Assets(r.files) ensures a in dir {
      var i :| 0 <= i < |r.files| && r.files[i].asset == a;
    }
  }

  lemma {:induction false} AcceptedComplete(dir: Directory, channel: Channel, tools: Tools, v: Validated)
    requires Accepts(dir, channel, tools, v) && Evidenced(dir, v, tools)
    ensures Complete(dir, dir[RECEIPT_FILE].receipt)
  {
    AssetsThere(dir, tools, dir[RECEIPT_FILE].receipt);
  }

  lemma {:induction false} CandidateFile(dir: Directory, r: Receipt, v: Validated, tools: Tools,
                                         bytes: Content -> seq<nat>, n: RS.Name)
    requires n in AllNames(r)
    ensures var files := AsCandidate(dir, r, v, tools, bytes).files;
      (n in files <==> Spell(n, r) in dir) && (n in files ==> files[n] == ContentOf(n, dir, r, v, tools, bytes))
  {
  }

  /** The part of `Verified` about the payload, the documents and the channel asked for. */
  ghost predicate CoreVerified(c: RS.Candidate, payload: set<string>, channel: Channel) {
    && RS.Database(channel) in c.files && PayloadNames(payload) <= c.assets
    && RS.Core(c) <= c.files.Keys && RS.Receipt in c.files && RS.IsVerdict(c.files[RS.Receipt], c.version, c.revision)
  }

  lemma {:induction false} VerdictThere(dir: Directory, r: Receipt, v: Validated, tools: Tools,
                                        bytes: Content -> seq<nat>)
    requires Complete(dir, r)
    ensures var c := AsCandidate(dir, r, v, tools, bytes);
      RS.Receipt in c.files && RS.IsVerdict(c.files[RS.Receipt], c.version, c.revision)
  {
    CandidateFile(dir, r, v, tools, bytes, RS.Receipt);
  }

  lemma {:induction false} CoreThere(dir: Directory, r: Receipt, v: Validated, tools: Tools,
                                     bytes: Content -> seq<nat>, channel: Channel)
    requires Complete(dir, r) && DbName(channel) in dir
    ensures CoreVerified(AsCandidate(dir, r, v, tools, bytes), Assets(r.files), channel)
  {
    var c := AsCandidate(dir, r, v, tools, bytes);
    forall n | n in RS.Core(c) ensures n in c.files {
      CandidateFile(dir, r, v, tools, bytes, n);
    }
    VerdictThere(dir, r, v, tools, bytes);
    CandidateFile(dir, r, v, tools, bytes, RS.Database(channel));
  }

  lemma {:induction false} PayloadNamed(dir: Directory, tools: Tools, r: Receipt)
    requires PayloadOk(dir, tools, r)
    ensures ReceiptNamed(r)
  {
    forall i | 0 <= i < |r.files| ensures r.files[i].asset == AssetName(r.files[i].path) {
      assert r.files[i] in r.files && EntryOk(dir, tools, r.files[i]);
    }
  }

  lemma {:induction false} JudgedNames(judged: set<string>, n: RS.Name, r: Receipt)
    requires ReceiptNamed(r) && n in AllNames(r) && judged == Assets(r.files) + {r.archive, RECEIPT_FILE}
    ensures n in CoreAssets(r) <==> Spell(n, r) in judged
  {
    var file := Spell(n, r);
    if file in judged {
      var m := if file in Assets(r.files) then RS.Payload(file) else if file == r.archive then RS.Archive
        else RS.AssetList;
      assert m in CoreAssets(r);
      SpellInjective(m, n, r);
    }
  }

  lemma {:induction false} DigestNames(dir: Directory, r: Receipt, tools: Tools)
    requires Complete(dir, r)
    ensures AssetDigests(dir, r, tools).Keys == Assets(r.files) + {r.archive, RECEIPT_FILE}
  {
  }

  lemma {:induction false} VerdictNames(dir: Directory, channel: Channel, tools: Tools, v: Validated)
    requires Accepts(dir, channel, tools, v) && Evidenced(dir, v, tools)
    ensures var r := dir[RECEIPT_FILE].receipt;
      ReceiptNamed(r) && v.assets.Keys == Assets(r.files) + {r.archive, RECEIPT_FILE}
  {
    var r := dir[RECEIPT_FILE].receipt;
    AcceptedComplete(dir, channel, tools, v);
    PayloadNamed(dir, tools, r);
    DigestNames(dir, r, tools);
  }

  /** The assets of the candidate are those whose digests the verdict lists. */
  lemma {:induction false} AcceptedAssets(dir: Directory, channel: Channel, tools: Tools, v: Validated, n: RS.Name)
    requires Accepts(dir, channel, tools, v) && Evidenced(dir, v, tools) && n in AllNames(dir[RECEIPT_FILE].receipt)
    ensures n in CoreAssets(dir[RECEIPT_FILE].receipt) <==> Spell(n, dir[RECEIPT_FILE].receipt) in v.assets
  {
    VerdictNames(dir, channel, tools, v);
    JudgedNames(v.assets.Keys, n, dir[RECEIPT_FILE].receipt);
  }

  // ---------------------------------------------------------------- one channel of the candidate

  /** The part of `Verified` about one channel, with the feed installing the whole payload. */
  ghost predicate ChannelVerified(c: RS.Candidate, payload: set<string>, t: Channel) {
    && (RS.Database(t) in c.files <==> RS.FeedZip(t) in c.files)
    && (t != Alpha ==> (RS.Database(t) in c.files <==> RS.Installer(t) in c.files))
    && (RS.FeedZip(t) in c.files ==> FeedVerified(c, payload, t, c.files[RS.FeedZip(t)]))
  }

  ghost predicate FeedVerified(c: RS.Candidate, payload: set<string>, t: Channel, feed: RS.Content) {
    && feed.FeedFile? && feed.channel == t && feed.version == c.version
    && feed.items.Keys == PayloadNames(payload)
    && forall n :: n in feed.items ==> n in c.files && feed.items[n] == c.files[n]
  }

  ghost predicate Installed(dir: Directory, r: Receipt, tools: Tools, bytes: Content -> seq<nat>, database: Content) {
    && database.FeedFile? && database.database.version == r.version
    && var items := Installs(database.database, dir, tools, bytes);
    && items.Keys == PayloadNames(Assets(r.files))
    && forall a :: a in Assets(r.files) ==> a in dir && items[RS.Payload(a)] == RS.Bytes(bytes(dir[a]))
  }

  lemma {:induction false} AcceptedInstalls(dir: Directory, channel: Channel, tools: Tools, v: Validated,
                                            bytes: Content -> seq<nat>, t: Channel)
    requires Accepts(dir, channel, tools, v) && DbName(t) in dir
    ensures Installed(dir, dir[RECEIPT_FILE].receipt, tools, bytes, dir[DbName(t)])
  {
    var r := dir[RECEIPT_FILE].receipt;
    ChannelFilesTogether(dir, channel, tools, v, t);
    SourcesOk(dir, r.files, tools);
    FeedInstallsPayload(dir[DbName(t)].database, dir, r, v.repository, tools, bytes);
  }

  lemma {:induction false} FeedCandidate(dir: Directory, r: Receipt, v: Validated, tools: Tools,
                                         bytes: Content -> seq<nat>, t: Channel)
    requires Complete(dir, r) && v.version == r.version
    requires DbName(t) in dir && ZipName(t) in dir && Installed(dir, r, tools, bytes, dir[DbName(t)])
    ensures FeedVerified(AsCandidate(dir, r, v, tools, bytes), Assets(r.files), t,
      ContentOf(RS.FeedZip(t), dir, r, v, tools, bytes))
  {
    var c := AsCandidate(dir, r, v, tools, bytes);
    var items := Installs(dir[DbName(t)].database, dir, tools, bytes);
    forall n | n in items ensures n in c.files && items[n] == c.files[n] {
      CandidateFile(dir, r, v, tools, bytes, n);
    }
  }

  lemma {:induction false} ChannelInOrder(dir: Directory, r: Receipt, v: Validated, tools: Tools,
                                          bytes: Content -> seq<nat>, t: Channel)
    requires Complete(dir, r) && v.version == r.version
    requires DbName(t) in dir <==> ZipName(t) in dir
    requires t != Alpha ==> (DbName(t) in dir <==> InstallerName(t) in dir)
    requires DbName(t) in dir ==> Installed(dir, r, tools, bytes, dir[DbName(t)])
    ensures ChannelVerified(AsCandidate(dir, r, v, tools, bytes), Assets(r.files), t)
  {
    CandidateFile(dir, r, v, tools, bytes, RS.Database(t));
    CandidateFile(dir, r, v, tools, bytes, RS.FeedZip(t));
    CandidateFile(dir, r, v, tools, bytes, RS.Installer(t));
    if DbName(t) in dir { FeedCandidate(dir, r, v, tools, bytes, t); }
  }

  lemma {:induction false} AcceptedChannel(dir: Directory, channel: Channel, tools: Tools, v: Validated,
                                           bytes: Content -> seq<nat>, t: Channel)
    requires Accepts(dir, channel, tools, v) && Evidenced(dir, v, tools)
    ensures var r := dir[RECEIPT_FILE].receipt;
      ChannelVerified(AsCandidate(dir, r, v, tools, bytes), Assets(r.files), t)
  {
    AcceptedComplete(dir, channel, tools, v);
    ChannelFilesTogether(dir, channel, tools, v, t);
    if DbName(t) in dir { AcceptedInstalls(dir, channel, tools, v, bytes, t); }
    ChannelInOrder(dir, dir[RECEIPT_FILE].receipt, v, tools, bytes, t);
  }

  // ---------------------------------------------------------------- the whole candidate

  ghost predicate ChannelsVerified(c: RS.Candidate, payload: set<string>) {
    ChannelVerified(c, payload, Alpha) && ChannelVerified(c, payload, Beta) && ChannelVerified(c, payload, Stable)
  }

  lemma {:induction false} ChannelsAt(c: RS.Candidate, payload: set<string>, t: Channel)
    requires ChannelsVerified(c, payload)
    ensures ChannelVerified(c, payload, t)
  {
    match t case Alpha => case Beta => case Stable =>
  }

  lemma {:induction false} VerifiedFromParts(c: RS.Candidate, channel: Channel, payload: set<string>)
    requires CoreVerified(c, payload, channel) && ChannelsVerified(c, payload)
    ensures RS.Verified(c, channel)
  {
    forall t: Channel ensures RS.Database(t) in c.files <==> RS.FeedZip(t) in c.files { ChannelsAt(c, payload, t); }
    forall t: Channel | t != Alpha ensures RS.Database(t) in c.files <==> RS.Installer(t) in c.files {
      ChannelsAt(c, payload, t);
    }
    forall t: Channel | RS.FeedZip(t) in c.files ensures FeedVerified(c, payload, t, c.files[RS.FeedZip(t)]) {
      ChannelsAt(c, payload, t);
    }
  }

  lemma {:induction false} AcceptedChannels(dir: Directory, channel: Channel, tools: Tools, v: Validated,
                                            bytes: Content -> seq<nat>)
    requires Accepts(dir, channel, tools, v) && Evidenced(dir, v, tools)
    ensures var r := dir[RECEIPT_FILE].receipt;
      ChannelsVerified(AsCandidate(dir, r, v, tools, bytes), Assets(r.files))
  {
    AcceptedChannel(dir, channel, tools, v, bytes, Alpha);
    AcceptedChannel(dir, channel, tools, v, bytes, Beta);
    AcceptedChannel(dir, channel, tools, v, bytes, Stable);
  }

  lemma {:induction false} AcceptedCore(dir: Directory, channel: Channel, tools: Tools, v: Validated,
                                        bytes: Content -> seq<nat>)
    requires Accepts(dir, channel, tools, v) && Evidenced(dir, v, tools)
    ensures var r := dir[RECEIPT_FILE].receipt;
      CoreVerified(AsCandidate(dir, r, v, tools, bytes), Assets(r.files), channel)
  {
    AcceptedComplete(dir, channel, tools, v);
    CoreThere(dir, dir[RECEIPT_FILE].receipt, v, tools, bytes, channel);
  }

  /** Publication may rely on what candidate verification and delivery evidence establish: every
      accepted directory, read as a candidate, is one that `ReleaseState.Verified` describes, and
      each of its feeds installs the whole payload and nothing else. */
  lemma {:induction false} AcceptedIsVerified(c: RS.Candidate, dir: Directory, channel: Channel, tools: Tools,
                                              v: Validated, bytes: Content -> seq<nat>)
    requires Accepts(dir, channel, tools, v) && Evidenced(dir, v, tools)
    requires c == AsCandidate(dir, dir[RECEIPT_FILE].receipt, v, tools, bytes)
    ensures RS.Verified(c, channel) && ChannelsVerified(c, Assets(dir[RECEIPT_FILE].receipt.files))
  {
    AcceptedCore(dir, channel, tools, v, bytes);
    AcceptedChannels(dir, channel, tools, v, bytes);
    VerifiedFromParts(c, channel, Assets(dir[RECEIPT_FILE].receipt.files));
  }
}
