/** Preparing the promotion of an accepted alpha candidate to the beta or the release channel. */
module Promotion {
  import opened Options
  import opened Releases
  import opened PackagePaths
  import opened AssetUrl
  import opened CandidateFiles
  import opened Distribution
  import opened DownloaderDb

  // ---------------------------------------------------------------- names do not collide

  /** The character that tells the generated names apart from all other names. */
  function Mark(n: string): Option<char> {
    if |n| > 13 && n[..13] == NAME_PREFIX then Some(n[13]) else None
  }

  function MarkOf(ch: Channel): Option<char> {
    match ch case Alpha => Some('a') case Beta => Some('b') case Stable => Some('r')
  }

  lemma {:induction false} Marked(prefix: string, rest: string)
    requires prefix == NAME_PREFIX && rest != ""
    ensures Mark(prefix + rest) == Some(rest[0])
  {
    assert |prefix| == 13;
    assert (prefix + rest)[..13] == prefix;
  }

  lemma {:induction false} ChannelMarks(ch: Channel)
    ensures Mark(DbName(ch)) == Mark(ZipName(ch)) == Mark(InstallerName(ch)) == MarkOf(ch)
    ensures DbName(ch) != ZipName(ch) && DbName(ch) != InstallerName(ch) && ZipName(ch) != InstallerName(ch)
  {
    Marked(NAME_PREFIX, Label(ch) + "-db.json");
    Marked(NAME_PREFIX, Label(ch) + "-db.json.zip");
    Marked(NAME_PREFIX, Label(ch) + "-installer.zip");
    assert |"-db.json"| == 8 && |"-db.json.zip"| == 12 && |"-installer.zip"| == 14;
  }

  lemma {:induction false} ChannelNamesDiffer(ch: Channel)
    ensures DbName(ch) != ZipName(ch) && DbName(ch) != InstallerName(ch) && ZipName(ch) != InstallerName(ch)
  {
    ChannelMarks(ch);
  }

  lemma {:induction false} AssetMark(path: string)
    ensures Mark(AssetName(path)) == Some('-')
  {
    var rest := "-" + Replace(path, '/', "--");
    Marked(NAME_PREFIX, rest);
    assert ASSET_PREFIX == NAME_PREFIX + "-";
    assert AssetName(path) == NAME_PREFIX + rest;
  }

  lemma {:induction false} ArchiveMark(r: Receipt)
    requires ReceiptOk(r)
    ensures Mark(r.archive) == Some('0')
  {
    Marked(NAME_PREFIX, r.version + ".zip");
  }

  lemma {:induction false} OtherMarks()
    ensures Mark(RECEIPT_FILE) == Mark(VALIDATED_FILE) == Mark(EVIDENCE_FILE) == Mark(SUMS) == None
    ensures RECEIPT_FILE != SUMS && VALIDATED_FILE != SUMS && EVIDENCE_FILE != SUMS
  {
    assert NAME_PREFIX[0] == 'm' && RECEIPT_FILE[0] == 'r' && VALIDATED_FILE[0] == 'v' && EVIDENCE_FILE[0] == 'd'
      && SUMS[0] == 'S';
  }

  /** The names a promotion may write. */
  predicate Rewritable(n: string) {
    n == SUMS || Mark(n) == Some('b') || Mark(n) == Some('r')
  }

  ghost predicate SamePayload(dir: Directory, after: Directory) {
    forall n :: !Rewritable(n) ==> (n in dir <==> n in after) && (n in dir ==> after[n] == dir[n])
  }

  // ---------------------------------------------------------------- what the verdict depends on

  lemma {:induction false} PayloadNotRewritable(r: Receipt)
    requires ReceiptOk(r) && forall i :: 0 <= i < |r.files| ==> r.files[i].asset == AssetName(r.files[i].path)
    ensures !Rewritable(r.archive) && !Rewritable(RECEIPT_FILE) && !Rewritable(VALIDATED_FILE)
      && !Rewritable(EVIDENCE_FILE)
    ensures forall i :: 0 <= i < |r.files| ==> !Rewritable(r.files[i].asset)
  {
    OtherMarks();
    ArchiveMark(r);
    forall i | 0 <= i < |r.files| ensures !Rewritable(r.files[i].asset) { AssetMark(r.files[i].path); }
  }

  lemma {:induction false} SameTree(files: seq<FileEntry>, dir: Directory, after: Directory)
    requires forall i :: 0 <= i < |files| ==>
      files[i].asset in dir && files[i].asset in after && after[files[i].asset] == dir[files[i].asset]
    ensures (forall e :: e in files ==> e.asset in dir && e.asset in after) && Tree(files, after) == Tree(files, dir)
  {
    if files == [] {
    } else {
      SameTree(files[..|files| - 1], dir, after);
    }
  }

  /** The files that a verdict is about. */
  function Judgeable(r: Receipt): set<string> {
    Assets(r.files) + {r.archive, RECEIPT_FILE}
  }

  ghost predicate SameFiles(dir: Directory, after: Directory, names: set<string>) {
    forall n :: n in names ==> (n in dir <==> n in after) && (n in dir ==> after[n] == dir[n])
  }

  lemma {:induction false} SameDigests(dir: Directory, after: Directory, r: Receipt, tools: Tools)
    requires SameFiles(dir, after, Judgeable(r))
    ensures AssetDigests(after, r, tools) == AssetDigests(dir, r, tools)
  {
  }

  /** A verdict depends on nothing but the files it is about. */
  lemma {:induction false} VerdictStays(dir: Directory, after: Directory, r: Receipt, tools: Tools, v: Validated)
    requires Verdict(dir, r, tools, v) && SameFiles(dir, after, Judgeable(r))
    ensures Verdict(after, r, tools, v)
  {
    forall i | 0 <= i < |r.files|
      ensures EntryOk(dir, tools, r.files[i]) && r.files[i].asset in Judgeable(r)
    {
      assert r.files[i] in r.files;
    }
    SameTree(r.files, dir, after);
    SameDigests(dir, after, r, tools);
  }

  lemma {:induction false} JudgeableKept(dir: Directory, after: Directory, r: Receipt, tools: Tools)
    requires PayloadOk(dir, tools, r) && SamePayload(dir, after)
    ensures SameFiles(dir, after, Judgeable(r))
  {
    forall i | 0 <= i < |r.files| ensures EntryOk(dir, tools, r.files[i]) { assert r.files[i] in r.files; }
    PayloadNotRewritable(r);
  }

  /** Receipt, payload and verdict are not touched by anything a promotion writes. */
  lemma {:induction false} SoundStays(dir: Directory, after: Directory, r: Receipt, tools: Tools, v: Validated)
    requires Sound(dir, r, tools, v) && SamePayload(dir, after)
    ensures Sound(after, r, tools, v)
  {
    JudgeableKept(dir, after, r, tools);
    VerdictStays(dir, after, r, tools, v);
    OtherMarks();
  }

  // ---------------------------------------------------------------- one generated channel

  lemma {:induction false} WrittenElsewhere(dir: Directory, ch: Channel, db: Database, repository: string, n: string)
    requires Mark(n) != MarkOf(ch)
    ensures var after := Written(dir, ch, db, repository);
      (n in after <==> n in dir) && (n in dir ==> after[n] == dir[n])
  {
    ChannelMarks(ch);
  }

  lemma {:induction false} OtherFeedStays(dir: Directory, ch: Channel, db: Database, other: Channel, r: Receipt,
                                          repository: string, beyond: char -> bool)
    requires other != ch && FitsIfPresent(dir, other, r, repository, beyond)
    ensures FitsIfPresent(Written(dir, ch, db, repository), other, r, repository, beyond)
  {
    ChannelMarks(other);
    WrittenElsewhere(dir, ch, db, repository, DbName(other));
    WrittenElsewhere(dir, ch, db, repository, ZipName(other));
    WrittenElsewhere(dir, ch, db, repository, InstallerName(other));
  }

  lemma {:induction false} WrittenFiles(dir: Directory, ch: Channel, db: Database, repository: string)
    requires ch != Alpha
    ensures var after := Written(dir, ch, db, repository);
      && after.Keys == dir.Keys + {DbName(ch), ZipName(ch), InstallerName(ch)}
      && after[DbName(ch)] == FeedFile(db)
      && after[ZipName(ch)] == Zip([Member(DbName(ch), FeedFile(db))])
      && after[InstallerName(ch)] == Zip([Member(INI_NAME, Ini(repository, ch))])
  {
    ChannelMarks(ch);
  }

  /** The generated files of a channel. */
  predicate HoldsFeed(dir: Directory, ch: Channel, db: Database, repository: string) {
    && DbName(ch) in dir && dir[DbName(ch)] == FeedFile(db)
    && ZipName(ch) in dir && dir[ZipName(ch)] == Zip([Member(DbName(ch), FeedFile(db))])
    && InstallerName(ch) in dir && dir[InstallerName(ch)] == Zip([Member(INI_NAME, Ini(repository, ch))])
  }

  predicate FileOf(n: string, ch: Channel) {
    n == DbName(ch) || n == ZipName(ch) || n == InstallerName(ch)
  }

  /** Nothing but the files of these channels may differ. */
  ghost predicate OnlyFilesOf(dir: Directory, after: Directory, channels: set<Channel>) {
    forall n :: (forall ch :: ch in channels ==> !FileOf(n, ch)) ==>
      (n in dir <==> n in after) && (n in dir ==> after[n] == dir[n])
  }

  lemma {:induction false} WrittenOnly(dir: Directory, ch: Channel, db: Database, repository: string)
    ensures OnlyFilesOf(dir, Written(dir, ch, db, repository), {ch})
  {
    forall n | !FileOf(n, ch)
      ensures var after := Written(dir, ch, db, repository);
        (n in dir <==> n in after) && (n in dir ==> after[n] == dir[n])
    {
    }
  }

  lemma {:induction false} OnlyTwoChannels(dir: Directory, between: Directory, after: Directory, a: Channel, b: Channel)
    requires OnlyFilesOf(dir, between, {a}) && OnlyFilesOf(between, after, {b})
    ensures OnlyFilesOf(dir, after, {a, b})
  {
    forall n | !FileOf(n, a) && !FileOf(n, b)
      ensures (n in dir <==> n in after) && (n in dir ==> after[n] == dir[n])
    {
      assert (n in dir <==> n in between) && (n in between <==> n in after);
    }
  }

  lemma {:induction false} WrittenHolds(dir: Directory, ch: Channel, db: Database, repository: string)
    requires ch != Alpha
    ensures HoldsFeed(Written(dir, ch, db, repository), ch, db, repository)
  {
    WrittenFiles(dir, ch, db, repository);
  }

  lemma {:induction false} OtherHolds(dir: Directory, ch: Channel, db: Database, repository: string, other: Channel)
    requires other != ch && HoldsFeed(dir, other, db, repository)
    ensures HoldsFeed(Written(dir, ch, db, repository), other, db, repository)
  {
    ChannelMarks(other);
    WrittenElsewhere(dir, ch, db, repository, DbName(other));
    WrittenElsewhere(dir, ch, db, repository, ZipName(other));
    WrittenElsewhere(dir, ch, db, repository, InstallerName(other));
  }

  lemma {:induction false} WrittenFits(dir: Directory, ch: Channel, db: Database, r: Receipt, repository: string,
                                       beyond: char -> bool)
    requires ch != Alpha && r.files != [] && NoConflict(r.files) && DatabaseFits(db, r, repository, beyond)
    ensures FitsIfPresent(Written(dir, ch, db, repository), ch, r, repository, beyond)
  {
    WrittenFiles(dir, ch, db, repository);
    GateReadsIni(repository, ch);
  }

  /** What makes a directory acceptable apart from its checksum list and the channel asked for. */
  ghost predicate Tidy(dir: Directory, r: Receipt, tools: Tools, v: Validated) {
    && Sound(dir, r, tools, v) && FeedsFit(dir, r, v.repository, tools.beyond)
    && (forall n :: n in dir ==> AllowedName(n, dir, r)) && AllListable(dir)
  }

  ghost predicate InOrder(dir: Directory, r: Receipt, tools: Tools, v: Validated) {
    Tidy(dir, r, tools, v) && DbName(Alpha) in dir
  }

  predicate NameChars(s: string) {
    forall i :: 0 <= i < |s| ==> 'a' <= s[i] <= 'z' || s[i] == '-' || s[i] == '.'
  }

  lemma {:induction false} NameIsListable(n: string)
    requires NameChars(n) && |n| > 2
    ensures Listable(n)
  {
    SplitPlain(n, '/');
  }

  lemma {:induction false} JoinedName(prefix: string, middle: string, ending: string)
    requires NameChars(prefix) && |prefix| > 2 && NameChars(middle) && NameChars(ending)
    ensures Listable(prefix + (middle + ending))
  {
    NameIsListable(prefix + (middle + ending));
  }

  lemma {:induction false} GeneratedNamesListable(ch: Channel)
    ensures Listable(DbName(ch)) && Listable(ZipName(ch)) && Listable(InstallerName(ch))
  {
    assert NameChars(NAME_PREFIX) && |NAME_PREFIX| > 2;
    assert NameChars(Label(ch));
    assert NameChars("-db.json") && NameChars("-db.json.zip") && NameChars("-installer.zip");
    JoinedName(NAME_PREFIX, Label(ch), "-db.json");
    JoinedName(NAME_PREFIX, Label(ch), "-db.json.zip");
    JoinedName(NAME_PREFIX, Label(ch), "-installer.zip");
  }

  lemma {:induction false} WrittenNames(dir: Directory, ch: Channel, db: Database, r: Receipt, repository: string)
    requires ch != Alpha && (forall n :: n in dir ==> AllowedName(n, dir, r)) && AllListable(dir)
    ensures var after := Written(dir, ch, db, repository);
      (forall n :: n in after ==> AllowedName(n, after, r)) && AllListable(after)
  {
    WrittenFiles(dir, ch, db, repository);
    GeneratedNamesListable(ch);
  }

  lemma {:induction false} WrittenPayload(dir: Directory, ch: Channel, db: Database, repository: string)
    requires ch != Alpha
    ensures SamePayload(dir, Written(dir, ch, db, repository))
  {
    forall n | !Rewritable(n)
      ensures var after := Written(dir, ch, db, repository);
        (n in dir <==> n in after) && (n in dir ==> after[n] == dir[n])
    {
      WrittenElsewhere(dir, ch, db, repository, n);
    }
  }

  /** Generating the feed of a further channel keeps everything else in order. */
  lemma {:induction false} GeneratedInOrder(dir: Directory, ch: Channel, r: Receipt, tools: Tools, v: Validated,
                                            timestamp: int)
    requires ch != Alpha && InOrder(dir, r, tools, v) && AsciiRepository(v.repository)
    ensures var after := Written(dir, ch, DatabaseOf(r, v.repository, "v" + r.version, timestamp), v.repository);
      InOrder(after, r, tools, v) && DbName(ch) in after && SamePayload(dir, after)
  {
    var db := DatabaseOf(r, v.repository, "v" + r.version, timestamp);
    var after := Written(dir, ch, db, v.repository);
    forall i | 0 <= i < |r.files| ensures r.files[i].asset == AssetName(r.files[i].path) {
      assert r.files[i] in r.files;
    }
    GeneratedFits(r, dir[DbName(Alpha)].database, v.repository, timestamp, tools);
    WrittenPayload(dir, ch, db, v.repository);
    SoundStays(dir, after, r, tools, v);
    WrittenNames(dir, ch, db, r, v.repository);
    WrittenFits(dir, ch, db, r, v.repository, tools.beyond);
    OtherFeedStays(dir, ch, db, Alpha, r, v.repository, tools.beyond);
    OtherFeedStays(dir, ch, db, if ch == Beta then Stable else Beta, r, v.repository, tools.beyond);
    WrittenFiles(dir, ch, db, v.repository);
  }

  lemma {:induction false} FeedSurvivesListing(dir: Directory, listed: Directory, ch: Channel, r: Receipt,
                                               repository: string, beyond: char -> bool)
    requires FitsIfPresent(dir, ch, r, repository, beyond)
    requires listed.Keys == dir.Keys + {SUMS} && forall n :: n in dir && n != SUMS ==> listed[n] == dir[n]
    ensures FitsIfPresent(listed, ch, r, repository, beyond)
    ensures DbName(ch) in listed <==> DbName(ch) in dir
  {
    ChannelMarks(ch);
    OtherMarks();
  }

  /** With a fresh checksum list, a directory in order is accepted, with the same verdict as ever. */
  lemma {:induction false} ListedIsAccepted(dir: Directory, listed: Directory, channel: Channel, r: Receipt,
                                            tools: Tools, v: Validated)
    requires Tidy(dir, r, tools, v) && DbName(channel) in dir
    requires listed.Keys == dir.Keys + {SUMS} && (forall n :: n in dir && n != SUMS ==> listed[n] == dir[n])
    requires ChecksumsMatch(listed, tools)
    ensures Accepts(listed, channel, tools, v) && SamePayload(dir, listed)
  {
    ListedPayload(dir, listed);
    SoundStays(dir, listed, r, tools, v);
    FeedsSurviveListing(dir, listed, r, v.repository, tools.beyond);
    NamesSurviveListing(dir, listed, r);
  }

  lemma {:induction false} ListedPayload(dir: Directory, listed: Directory)
    requires listed.Keys == dir.Keys + {SUMS} && forall n :: n in dir && n != SUMS ==> listed[n] == dir[n]
    ensures SamePayload(dir, listed)
  {
  }

  lemma {:induction false} FeedsSurviveListing(dir: Directory, listed: Directory, r: Receipt, repository: string,
                                               beyond: char -> bool)
    requires FeedsFit(dir, r, repository, beyond)
    requires listed.Keys == dir.Keys + {SUMS} && forall n :: n in dir && n != SUMS ==> listed[n] == dir[n]
    ensures FeedsFit(listed, r, repository, beyond)
  {
    FeedSurvivesListing(dir, listed, Alpha, r, repository, beyond);
    FeedSurvivesListing(dir, listed, Beta, r, repository, beyond);
    FeedSurvivesListing(dir, listed, Stable, r, repository, beyond);
  }

  lemma {:induction false} NamesSurviveListing(dir: Directory, listed: Directory, r: Receipt)
    requires forall n :: n in dir ==> AllowedName(n, dir, r)
    requires listed.Keys == dir.Keys + {SUMS}
    ensures forall n :: n in listed ==> AllowedName(n, listed, r)
  {
    forall n | n in listed ensures AllowedName(n, listed, r) {
      if n != SUMS { NameSurvives(n, dir, listed, r); }
    }
  }

  lemma {:induction false} NameSurvives(n: string, dir: Directory, listed: Directory, r: Receipt)
    requires AllowedName(n, dir, r) && dir.Keys <= listed.Keys
    ensures AllowedName(n, listed, r)
  {
  }

  /** A verdict is the only one. */
  lemma {:induction false} OneVerdict(dir: Directory, channel: Channel, tools: Tools, v: Validated, w: Validated)
    requires Accepts(dir, channel, tools, v) && Accepts(dir, channel, tools, w)
    ensures v == w
  {
  }

  lemma {:induction false} AcceptedInOrder(dir: Directory, tools: Tools, v: Validated)
    requires Accepts(dir, Alpha, tools, v)
    ensures InOrder(dir, dir[RECEIPT_FILE].receipt, tools, v)
  {
    forall n | n in dir && n != SUMS ensures Listable(n) { MatchedListable(dir, tools, n); }
  }

  // ---------------------------------------------------------------- promotion

  predicate Identified(v: Validated, repository: string, sourceRevision: string) {
    Identity(v.fields.sourceRevision, v.repository, sourceRevision, repository)
  }

  predicate Evidenced(dir: Directory, v: Validated, tools: Tools) {
    EVIDENCE_FILE in dir && dir[EVIDENCE_FILE] == EvidenceFile(tools.identify(v))
  }

  predicate PathsAllowed(r: Receipt) {
    forall i :: 0 <= i < |r.files| ==> ValidatePath(r.files[i].path)
  }

  /** Exactly when a candidate can be promoted, given its verdict on alpha. */
  ghost predicate Promotable(dir: Directory, channel: Channel, repository: string, sourceRevision: string,
                             timestamp: int, tools: Tools, v: Validated)
  {
    && channel != Alpha && Accepts(dir, Alpha, tools, v) && Evidenced(dir, v, tools)
    && Identified(v, repository, sourceRevision)
    && PathsAllowed(dir[RECEIPT_FILE].receipt) && AsciiRepository(repository) && timestamp >= EARLIEST
  }

  lemma {:induction false} GeneratesExactly(dir: Directory, r: Receipt, tools: Tools, v: Validated, repository: string,
                                            timestamp: int)
    requires InOrder(dir, r, tools, v)
    ensures Generates(dir, repository, "v" + r.version, timestamp, tools) <==>
      PathsAllowed(r) && AsciiRepository(repository) && timestamp >= EARLIEST
  {
    SourcesOk(dir, r.files, tools);
    EntriesAccepted(dir, r, tools);
  }

  lemma {:induction false} SourcesOk(dir: Directory, files: seq<FileEntry>, tools: Tools)
    requires forall e :: e in files ==> EntryOk(dir, tools, e)
    ensures forall i :: 0 <= i < |files| ==> SourceOk(dir, tools, files[i])
  {
    forall i | 0 <= i < |files| ensures SourceOk(dir, tools, files[i]) { assert files[i] in files; }
  }

  lemma {:induction false} EntriesAccepted(dir: Directory, r: Receipt, tools: Tools)
    requires forall i :: 0 <= i < |r.files| ==> SourceOk(dir, tools, r.files[i])
    ensures (forall i :: 0 <= i < |r.files| ==> EntryAccepted(dir, tools, r.files[i])) <==> PathsAllowed(r)
  {
  }

  /** The feed that a promotion at this time generates, the same for every channel. */
  function PromotedFeed(r: Receipt, repository: string, timestamp: int): Database {
    DatabaseOf(r, repository, "v" + r.version, timestamp)
  }

  /** Generates one channel of a promotion. */
  method GenerateTarget(dir: Directory, ch: Channel, ghost r: Receipt, v: Validated, repository: string,
                        timestamp: int, tools: Tools)
    returns (after: Option<Directory>)
    requires ch != Alpha && InOrder(dir, r, tools, v) && v.repository == repository
    ensures after.Some? <==> PathsAllowed(r) && AsciiRepository(repository) && timestamp >= EARLIEST
    ensures after.Some? ==>
      InOrder(after.value, r, tools, v) && DbName(ch) in after.value && SamePayload(dir, after.value)
    ensures after.Some? ==> after.value == Written(dir, ch, PromotedFeed(r, repository, timestamp), repository)
  {
    GeneratesExactly(dir, r, tools, v, repository, timestamp);
    after := Generate(dir, ch, repository, "v" + v.version, timestamp, tools);
    if after.Some? { GeneratedInOrder(dir, ch, r, tools, v, timestamp); }
  }

  /** The feeds of every channel that a promotion is about. */
  predicate HoldsFeeds(dir: Directory, channel: Channel, db: Database, repository: string) {
    HoldsFeed(dir, Beta, db, repository) && (channel == Stable ==> HoldsFeed(dir, Stable, db, repository))
  }

  /** A release promotion generates the beta feed as well. */
  function TargetsOf(channel: Channel): set<Channel> {
    if channel == Stable then {Beta, Stable} else {Beta}
  }

  /** Generates all channels of a promotion. */
  method GenerateTargets(dir: Directory, channel: Channel, ghost r: Receipt, v: Validated, repository: string,
                         timestamp: int, tools: Tools)
    returns (after: Option<Directory>)
    requires channel != Alpha && InOrder(dir, r, tools, v) && v.repository == repository
    ensures after.Some? <==> PathsAllowed(r) && AsciiRepository(repository) && timestamp >= EARLIEST
    ensures after.Some? ==>
      InOrder(after.value, r, tools, v) && DbName(channel) in after.value && SamePayload(dir, after.value)
    ensures after.Some? ==> HoldsFeeds(after.value, channel, PromotedFeed(r, repository, timestamp), repository)
    ensures after.Some? ==> OnlyFilesOf(dir, after.value, TargetsOf(channel))
  {
    ghost var db := PromotedFeed(r, repository, timestamp);
    after := GenerateTarget(dir, Beta, r, v, repository, timestamp, tools);
    if after.None? { return; }
    WrittenHolds(dir, Beta, db, repository);
    WrittenOnly(dir, Beta, db, repository);
    if channel == Stable {
      var beta := after.value;
      after := GenerateTarget(beta, Stable, r, v, repository, timestamp, tools);
      WrittenHolds(beta, Stable, db, repository);
      OtherHolds(beta, Stable, db, repository, Beta);
      WrittenOnly(beta, Stable, db, repository);
      OnlyTwoChannels(dir, beta, after.value, Beta, Stable);
    }
  }

  lemma {:induction false} ListingHolds(dir: Directory, listed: Directory, ch: Channel, db: Database,
                                        repository: string)
    requires HoldsFeed(dir, ch, db, repository)
    requires listed.Keys == dir.Keys + {SUMS} && forall n :: n in dir && n != SUMS ==> listed[n] == dir[n]
    ensures HoldsFeed(listed, ch, db, repository)
  {
    ChannelMarks(ch);
    OtherMarks();
  }

  /** No file but the checksum list and those of the channels promoted to may differ. */
  ghost predicate OnlyPrepared(dir: Directory, after: Directory, channel: Channel) {
    forall n :: n != SUMS && (forall ch :: ch in TargetsOf(channel) ==> !FileOf(n, ch)) ==>
      (n in dir <==> n in after) && (n in dir ==> after[n] == dir[n])
  }

  lemma {:induction false} ListedOnly(dir: Directory, written: Directory, after: Directory, channel: Channel)
    requires OnlyFilesOf(dir, written, TargetsOf(channel))
    requires after.Keys == written.Keys + {SUMS} && forall n :: n in written && n != SUMS ==> after[n] == written[n]
    ensures OnlyPrepared(dir, after, channel)
  {
    forall n | n != SUMS && forall ch :: ch in TargetsOf(channel) ==> !FileOf(n, ch)
      ensures (n in dir <==> n in after) && (n in dir ==> after[n] == dir[n])
    {
      assert n in written <==> n in after;
    }
  }

  /** Verifies a directory that is accepted. */
  method VerifyAgain(dir: Directory, channel: Channel, ghost v: Validated, tools: Tools)
    returns (verdict: Option<Validated>)
    requires Accepts(dir, channel, tools, v)
    ensures verdict == Some(v)
  {
    verdict := Verify(dir, channel, tools);
    OneVerdict(dir, channel, tools, verdict.value, v);
  }

  lemma {:induction false} FeedsListed(dir: Directory, after: Directory, channel: Channel, db: Database,
                                       repository: string)
    requires HoldsFeeds(dir, channel, db, repository)
    requires after.Keys == dir.Keys + {SUMS} && forall n :: n in dir && n != SUMS ==> after[n] == dir[n]
    ensures HoldsFeeds(after, channel, db, repository)
  {
    ListingHolds(dir, after, Beta, db, repository);
    if channel == Stable { ListingHolds(dir, after, Stable, db, repository); }
  }

  /** Lists the files of a directory in order anew. */
  method ListAnew(dir: Directory, channel: Channel, ghost r: Receipt, ghost v: Validated, tools: Tools)
    returns (after: Directory)
    requires GoodTools(tools) && InOrder(dir, r, tools, v) && Evidenced(dir, v, tools) && DbName(channel) in dir
    ensures Accepts(after, channel, tools, v) && Evidenced(after, v, tools) && SamePayload(dir, after)
    ensures after.Keys == dir.Keys + {SUMS} && forall n :: n in dir && n != SUMS ==> after[n] == dir[n]
  {
    after := WriteChecksums(dir, tools);
    ListedIsAccepted(dir, after, channel, r, tools, v);
    EvidenceStays(dir, after, v, tools);
  }

  /** Lists the files of a directory in order anew and verifies it. */
  method ListAndVerify(dir: Directory, channel: Channel, ghost r: Receipt, ghost v: Validated, tools: Tools,
                       ghost db: Database, ghost repository: string)
    returns (verdict: Option<Validated>, after: Directory)
    requires GoodTools(tools) && InOrder(dir, r, tools, v) && Evidenced(dir, v, tools) && DbName(channel) in dir
    requires channel != Alpha && HoldsFeeds(dir, channel, db, repository)
    ensures verdict == Some(v) && Accepts(after, channel, tools, v) && Evidenced(after, v, tools)
    ensures SamePayload(dir, after) && HoldsFeeds(after, channel, db, repository)
    ensures after.Keys == dir.Keys + {SUMS} && forall n :: n in dir && n != SUMS ==> after[n] == dir[n]
  {
    after := ListAnew(dir, channel, r, v, tools);
    FeedsListed(dir, after, channel, db, repository);
    verdict := VerifyAgain(after, channel, v, tools);
  }

  /** Promotion succeeds exactly for promotable candidates. It ends with the very verdict the
      candidate had on alpha, so its identity, receipt and evidence remain valid, and it changes
      nothing but the checksum list and the feeds of the new channels, which it generates at its own
      time. A refused promotion changes nothing at all. */
  method PreparePromotion(dir: Directory, channel: Channel, repository: string, sourceRevision: string, timestamp: int,
                          tools: Tools)
    returns (v: Option<Validated>, after: Directory)
    requires GoodTools(tools)
    ensures v.Some? ==> Promotable(dir, channel, repository, sourceRevision, timestamp, tools, v.value)
    ensures v.None? ==> forall x :: !Promotable(dir, channel, repository, sourceRevision, timestamp, tools, x)
    ensures v.Some? ==> Prepared(dir, after, channel, repository, timestamp, tools, v.value)
    ensures v.None? ==> after == dir
  {
    v, after := None, dir;
    if channel == Alpha { return; }
    var validated := Verify(dir, Alpha, tools);
    if validated.None? { return; }
    AlphaVerdict(dir, channel, repository, sourceRevision, timestamp, tools, validated.value);
    if !Evidenced(dir, validated.value, tools) || !Identified(validated.value, repository, sourceRevision) { return; }
    v, after := PrepareChannels(dir, channel, repository, timestamp, tools, validated.value);
  }

  /** What a promotion leaves: an accepted directory with the payload, verdict and evidence of the
      alpha candidate and feeds generated at the given time. */
  ghost predicate Prepared(dir: Directory, after: Directory, channel: Channel, repository: string, timestamp: int,
                           tools: Tools, v: Validated)
  {
    && Accepts(after, channel, tools, v) && Evidenced(after, v, tools)
    && SamePayload(dir, after) && OnlyPrepared(dir, after, channel)
    && RECEIPT_FILE in dir && dir[RECEIPT_FILE].ReceiptFile?
    && HoldsFeeds(after, channel, PromotedFeed(dir[RECEIPT_FILE].receipt, repository, timestamp), repository)
  }

  /** The part of a promotion after the checks of the alpha candidate. */
  method PrepareChannels(dir: Directory, channel: Channel, repository: string, timestamp: int, tools: Tools,
                         v: Validated)
    returns (verdict: Option<Validated>, after: Directory)
    requires GoodTools(tools) && channel != Alpha
    requires Accepts(dir, Alpha, tools, v) && Evidenced(dir, v, tools) && v.repository == repository
    ensures verdict.Some? <==>
      PathsAllowed(dir[RECEIPT_FILE].receipt) && AsciiRepository(repository) && timestamp >= EARLIEST
    ensures verdict.Some? ==> verdict.value == v && Prepared(dir, after, channel, repository, timestamp, tools, v)
    ensures verdict.None? ==> after == dir
  {
    verdict, after := None, dir;
    AcceptedInOrder(dir, tools, v);
    ghost var r := dir[RECEIPT_FILE].receipt;
    var written := GenerateTargets(dir, channel, r, v, repository, timestamp, tools);
    if written.None? { return; }
    EvidenceStays(dir, written.value, v, tools);
    verdict, after :=
      ListAndVerify(written.value, channel, r, v, tools, PromotedFeed(r, repository, timestamp), repository);
    SamePayloadTrans(dir, written.value, after);
    ListedOnly(dir, written.value, after, channel);
  }

  lemma {:induction false} SamePayloadTrans(dir: Directory, written: Directory, after: Directory)
    requires SamePayload(dir, written) && SamePayload(written, after)
    ensures SamePayload(dir, after)
  {
  }

  lemma {:induction false} AlphaVerdict(dir: Directory, channel: Channel, repository: string, sourceRevision: string,
                                        timestamp: int, tools: Tools, v: Validated)
    requires Accepts(dir, Alpha, tools, v)
    ensures forall x :: Promotable(dir, channel, repository, sourceRevision, timestamp, tools, x) ==> x == v
  {
    forall x | Promotable(dir, channel, repository, sourceRevision, timestamp, tools, x) ensures x == v {
      OneVerdict(dir, Alpha, tools, v, x);
    }
  }

  lemma {:induction false} EvidenceStays(dir: Directory, after: Directory, v: Validated, tools: Tools)
    requires Evidenced(dir, v, tools) && SamePayload(dir, after)
    ensures Evidenced(after, v, tools)
  {
    OtherMarks();
  }
}
