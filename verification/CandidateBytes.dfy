/** Publication compares the contents of assets; that is a comparison of the bytes in the candidate directories. */
module CandidateBytes {
  import opened Releases
  import opened CandidateFiles
  import opened Distribution
  import opened PublishableCandidate
  import Promotion
  import RS = ReleaseState

  /** Different files have different bytes, or different digests. */
  ghost predicate Tells<T>(f: Content -> T) {
    forall a, b :: f(a) == f(b) ==> a == b
  }

  /** The feed announces the digest of every file it names. */
  ghost predicate Announces(db: Database, dir: Directory, tools: Tools) {
    forall a :: a in Targets(db, tools.beyond).Values ==> a in dir && Announced(db, tools.beyond, a, tools.md5(dir[a]))
  }

  lemma {:induction false} AnnouncedOnce(db: Database, beyond: char -> bool, asset: string, digest: string,
                                         other: string)
    requires asset in Targets(db, beyond).Values
    requires Announced(db, beyond, asset, digest) && Announced(db, beyond, asset, other)
    ensures digest == other
  {
    var path :| path in Targets(db, beyond) && Targets(db, beyond)[path] == asset;
  }

  lemma {:induction false} SameMeant(db: Database, dir: Directory, other: Directory, tools: Tools,
                                     bytes: Content -> seq<nat>, asset: string)
    requires Tells(tools.md5) && Announces(db, dir, tools) && Announces(db, other, tools)
    requires asset in Targets(db, tools.beyond).Values
    ensures Meant(db, dir, tools, bytes, asset) == Meant(db, other, tools, bytes, asset)
  {
    AnnouncedOnce(db, tools.beyond, asset, tools.md5(dir[asset]), tools.md5(other[asset]));
  }

  lemma {:induction false} SameItems(a: map<RS.Name, RS.Content>, b: map<RS.Name, RS.Content>, names: set<RS.Name>)
    requires a.Keys == b.Keys == names && forall n :: n in names ==> a[n] == b[n]
    ensures a == b
  {
  }

  /** What a feed installs depends on the feed alone. */
  lemma {:induction false} SameInstalls(db: Database, dir: Directory, other: Directory, tools: Tools,
                                        bytes: Content -> seq<nat>)
    requires Tells(tools.md5) && Announces(db, dir, tools) && Announces(db, other, tools)
    ensures Installs(db, dir, tools, bytes) == Installs(db, other, tools, bytes)
  {
    var items, others := Installs(db, dir, tools, bytes), Installs(db, other, tools, bytes);
    var names := PayloadNames(Targets(db, tools.beyond).Values);
    forall n | n in names ensures items[n] == others[n] {
      SameMeant(db, dir, other, tools, bytes, n.path);
    }
    SameItems(items, others, names);
  }

  /** A feed that is there, packed, and announces what it names. */
  ghost predicate Packed(dir: Directory, t: Channel, tools: Tools) {
    && DbName(t) in dir && dir[DbName(t)].FeedFile? && Announces(dir[DbName(t)].database, dir, tools)
    && ZipName(t) in dir && dir[ZipName(t)] == Zip([Member(DbName(t), dir[DbName(t)])])
  }

  lemma {:induction false} FittingAnnounces(db: Database, dir: Directory, r: Receipt, repository: string, tools: Tools)
    requires DatabaseFits(db, r, repository, tools.beyond)
    requires forall i :: 0 <= i < |r.files| ==> SourceOk(dir, tools, r.files[i])
    ensures Announces(db, dir, tools)
  {
    FittingEntries(db, r, repository, tools.beyond);
    AssetsNamed(Targets(db, tools.beyond), Announcements(db), r.files);
    forall a | a in Assets(r.files) ensures a in dir && Announced(db, tools.beyond, a, tools.md5(dir[a])) {
      AssetAnnounced(db, dir, r, repository, tools, a);
    }
  }

  ghost predicate PackedIfThere(dir: Directory, t: Channel, tools: Tools) {
    (DbName(t) in dir || ZipName(t) in dir) ==> Packed(dir, t, tools)
  }

  lemma {:induction false} AcceptedPacked(dir: Directory, channel: Channel, tools: Tools, v: Validated, t: Channel)
    requires Accepts(dir, channel, tools, v)
    ensures PackedIfThere(dir, t, tools)
  {
    var r := dir[RECEIPT_FILE].receipt;
    ChannelFilesTogether(dir, channel, tools, v, t);
    if DbName(t) in dir {
      Promotion.SourcesOk(dir, r.files, tools);
      FittingAnnounces(dir[DbName(t)].database, dir, r, v.repository, tools);
    }
  }

  /** Two candidates have equal feeds, as publication compares them, exactly when the zipped feed
      files are equal: a feed that was generated again at another time is another feed. */
  lemma {:induction false} PackedFeedsCompare(dir: Directory, other: Directory, r: Receipt, q: Receipt, v: Validated,
                                              w: Validated, tools: Tools, bytes: Content -> seq<nat>, t: Channel)
    requires Packed(dir, t, tools) && Packed(other, t, tools) && Tells(tools.md5) && Tells(bytes)
    ensures ContentOf(RS.FeedZip(t), dir, r, v, tools, bytes) == ContentOf(RS.FeedZip(t), other, q, w, tools, bytes)
      <==> dir[ZipName(t)] == other[ZipName(t)]
  {
    if dir[ZipName(t)] == other[ZipName(t)] {
      assert dir[ZipName(t)].members[0] == other[ZipName(t)].members[0];
      SameInstalls(dir[DbName(t)].database, dir, other, tools, bytes);
    }
  }

  predicate SameFile(dir: Directory, other: Directory, n: string) {
    n in dir && n in other && dir[n] == other[n]
  }

  lemma {:induction false} PrerequisiteCompares(dir: Directory, r: Receipt, v: Validated, other: Directory, q: Receipt,
                                                w: Validated, tools: Tools, bytes: Content -> seq<nat>,
                                                feeds: map<Channel, RS.Content>, o: RS.Order, t: Channel)
    requires Packed(dir, t, tools) && PackedIfThere(other, t, tools) && Tells(tools.md5) && Tells(bytes)
    requires o.channel != Alpha && t == RS.Prerequisite(o.channel)
      && o.candidate == AsCandidate(other, q, w, tools, bytes)
    requires t in feeds && feeds[t] == ContentOf(RS.FeedZip(t), dir, r, v, tools, bytes)
    ensures RS.PrerequisiteMet(feeds, o) <==> SameFile(dir, other, ZipName(t))
  {
    CandidateFile(other, q, w, tools, bytes, RS.FeedZip(t));
    if ZipName(t) in other { PackedFeedsCompare(dir, other, r, q, v, w, tools, bytes, t); }
  }

  /** The prerequisite of a promotion compares bytes: when the live feed of the channel before came
      from one accepted directory, it must be the very zipped feed of the directory to be promoted. */
  lemma {:induction false} PromotionComparesBytes(dir: Directory, channel: Channel, r: Receipt, v: Validated,
                                                  other: Directory, q: Receipt, w: Validated, tools: Tools,
                                                  bytes: Content -> seq<nat>, feeds: map<Channel, RS.Content>,
                                                  o: RS.Order, t: Channel)
    requires o.channel != Alpha && t == RS.Prerequisite(o.channel)
      && o.candidate == AsCandidate(other, q, w, tools, bytes)
    requires ZipName(t) in dir && t in feeds && feeds[t] == ContentOf(RS.FeedZip(t), dir, r, v, tools, bytes)
    requires Accepts(dir, channel, tools, v) && Accepts(other, o.channel, tools, w) && Tells(tools.md5) && Tells(bytes)
    ensures RS.PrerequisiteMet(feeds, o) <==> SameFile(dir, other, ZipName(t))
  {
    AcceptedPacked(dir, channel, tools, v, t);
    AcceptedPacked(other, o.channel, tools, w, t);
    PrerequisiteCompares(dir, r, v, other, q, w, tools, bytes, feeds, o, t);
  }

  /** The other files are compared byte by byte, too. */
  lemma {:induction false} FilesCompare(dir: Directory, other: Directory, r: Receipt, q: Receipt, v: Validated,
                                        w: Validated, tools: Tools, bytes: Content -> seq<nat>, n: RS.Name)
    requires Spell(n, r) in dir && Spell(n, q) in other && !n.FeedZip? && Tells(bytes)
    requires n.Receipt? ==> dir[VALIDATED_FILE] == ValidatedFile(v) && other[VALIDATED_FILE] == ValidatedFile(w)
    ensures ContentOf(n, dir, r, v, tools, bytes) == ContentOf(n, other, q, w, tools, bytes)
      <==> dir[Spell(n, r)] == other[Spell(n, q)]
  {
  }
}
