/** From the alpha release to the stable one: promotions prepared one after the other, and when
    each of them can be published. */
module PromotionChain {
  import opened Releases
  import opened CandidateFiles
  import opened Distribution
  import opened Promotion
  import opened PublishableCandidate
  import opened CandidateBytes
  import RS = ReleaseState
  import Safety = ReleaseSafety

  /** The order that publishes a directory to a channel. */
  ghost function OrderOf(dir: Directory, channel: Channel, r: Receipt, v: Validated, tools: Tools,
                         bytes: Content -> seq<nat>): RS.Order
  {
    RS.Order(AsCandidate(dir, r, v, tools, bytes), channel, v.fields.sourceRevision, true)
  }

  // ---------------------------------------------------------------- the payload is the same

  lemma {:induction false} CoreNotRewritable(n: RS.Name, r: Receipt)
    requires ReceiptNamed(r) && n in CoreAssets(r) + {RS.Receipt, RS.Evidence}
    ensures !Rewritable(Spell(n, r))
  {
    PayloadNotRewritable(r);
    if n.Payload? {
      var i :| 0 <= i < |r.files| && r.files[i].asset == n.path;
    }
  }

  lemma {:induction false} SameCoreFile(n: RS.Name, dir: Directory, after: Directory, r: Receipt, v: Validated,
                                        tools: Tools, bytes: Content -> seq<nat>)
    requires ReceiptNamed(r) && Complete(dir, r) && SamePayload(dir, after)
    requires n in CoreAssets(r) + {RS.Receipt, RS.Evidence}
    ensures Spell(n, r) in dir && Spell(n, r) in after
    ensures ContentOf(n, after, r, v, tools, bytes) == ContentOf(n, dir, r, v, tools, bytes)
  {
    CoreNotRewritable(n, r);
    assert Spell(n, r) in dir;
    OtherMarks();
  }

  lemma {:induction false} SameCore(dir: Directory, after: Directory, r: Receipt, v: Validated, tools: Tools,
                                    bytes: Content -> seq<nat>)
    requires ReceiptNamed(r) && Complete(dir, r) && SamePayload(dir, after)
    ensures var c, d := AsCandidate(after, r, v, tools, bytes), AsCandidate(dir, r, v, tools, bytes);
      RS.Agrees(c.files, d.files, RS.Core(c))
  {
    var c, d := AsCandidate(after, r, v, tools, bytes), AsCandidate(dir, r, v, tools, bytes);
    forall n | n in RS.Core(c) ensures n in c.files && n in d.files && d.files[n] == c.files[n] {
      SameCoreFile(n, dir, after, r, v, tools, bytes);
      CandidateFile(dir, r, v, tools, bytes, n);
      CandidateFile(after, r, v, tools, bytes, n);
    }
  }

  // ---------------------------------------------------------------- one promotion after another

  /** A directory as far as publishing it to a channel goes. */
  ghost predicate Publishable(dir: Directory, channel: Channel, r: Receipt, v: Validated, tools: Tools,
                              bytes: Content -> seq<nat>)
  {
    ReceiptNamed(r) && Complete(dir, r) && RS.Verified(AsCandidate(dir, r, v, tools, bytes), channel)
  }

  lemma {:induction false} AcceptedPublishable(dir: Directory, channel: Channel, r: Receipt, v: Validated, tools: Tools,
                                               bytes: Content -> seq<nat>)
    requires Accepts(dir, channel, tools, v) && Evidenced(dir, v, tools) && r == dir[RECEIPT_FILE].receipt
    ensures Publishable(dir, channel, r, v, tools, bytes)
  {
    PayloadNamed(dir, tools, r);
    AcceptedComplete(dir, channel, tools, v);
    AcceptedIsVerified(AsCandidate(dir, r, v, tools, bytes), dir, channel, tools, v, bytes);
  }

  lemma {:induction false} OrdersContinue(dir: Directory, next: Directory, channel: Channel, to: Channel, r: Receipt,
                                          v: Validated, tools: Tools, bytes: Content -> seq<nat>)
    requires ReceiptNamed(r) && Complete(dir, r) && SamePayload(dir, next)
    requires to != Alpha && channel == RS.Prerequisite(to)
    ensures Safety.Promotes(OrderOf(next, to, r, v, tools, bytes), OrderOf(dir, channel, r, v, tools, bytes))
  {
    SameCore(dir, next, r, v, tools, bytes);
  }

  lemma {:induction false} FeedsOfOrders(dir: Directory, next: Directory, t: Channel, r: Receipt, v: Validated,
                                         tools: Tools, bytes: Content -> seq<nat>)
    requires Packed(dir, t, tools) && Packed(next, t, tools) && Tells(tools.md5) && Tells(bytes)
    ensures var files := AsCandidate(dir, r, v, tools, bytes).files;
      var others := AsCandidate(next, r, v, tools, bytes).files;
      var feed := RS.FeedZip(t);
      feed in files && feed in others && (others[feed] == files[feed] <==> SameFile(dir, next, ZipName(t)))
  {
    CandidateFile(dir, r, v, tools, bytes, RS.FeedZip(t));
    CandidateFile(next, r, v, tools, bytes, RS.FeedZip(t));
    PackedFeedsCompare(dir, next, r, r, v, v, tools, bytes, t);
  }

  /** When one directory was published, the next one with the same payload can be exactly when both
      hold the same zipped feed of the channel that was published. */
  lemma {:induction false} NextPublishable(dir: Directory, next: Directory, channel: Channel, to: Channel, r: Receipt,
                                           v: Validated, tools: Tools, bytes: Content -> seq<nat>, s: RS.Remote)
    requires Publishable(dir, channel, r, v, tools, bytes) && SamePayload(dir, next)
    requires to != Alpha && channel == RS.Prerequisite(to) && Tells(tools.md5) && Tells(bytes)
    requires Packed(dir, channel, tools) && Packed(next, channel, tools)
    requires RS.Ready(s, OrderOf(dir, channel, r, v, tools, bytes), v.repository)
    ensures var o, p := OrderOf(dir, channel, r, v, tools, bytes), OrderOf(next, to, r, v, tools, bytes);
      RS.Ready(RS.Final(s, o), p, v.repository) <==> SameFile(dir, next, ZipName(channel))
  {
    var o, p := OrderOf(dir, channel, r, v, tools, bytes), OrderOf(next, to, r, v, tools, bytes);
    OrdersContinue(dir, next, channel, to, r, v, tools, bytes);
    Safety.NextReady(s, o, p, v.repository);
    FeedsOfOrders(dir, next, channel, r, v, tools, bytes);
  }

  // ---------------------------------------------------------------- alpha, beta, release

  /** A feed generated again is the same only at the same time. */
  lemma {:induction false} SameTimeSameFeed(dir: Directory, other: Directory, ch: Channel, r: Receipt,
                                            repository: string, t1: int, t2: int)
    requires HoldsFeed(dir, ch, PromotedFeed(r, repository, t1), repository)
    requires HoldsFeed(other, ch, PromotedFeed(r, repository, t2), repository)
    ensures SameFile(dir, other, ZipName(ch)) <==> t1 == t2
  {
    if SameFile(dir, other, ZipName(ch)) {
      var zip, otherZip := dir[ZipName(ch)], other[ZipName(ch)];
      assert zip.members[0].content == FeedFile(PromotedFeed(r, repository, t1));
      assert otherZip.members[0].content == FeedFile(PromotedFeed(r, repository, t2));
    }
  }

  lemma {:induction false} AlphaFeedKept(dir: Directory, after: Directory, tools: Tools)
    requires SamePayload(dir, after) && Packed(dir, Alpha, tools)
    ensures SameFile(dir, after, ZipName(Alpha))
  {
    ChannelMarks(Alpha);
    OtherMarks();
  }

  lemma {:induction false} ReceiptKept(dir: Directory, after: Directory)
    requires SamePayload(dir, after) && RECEIPT_FILE in dir
    ensures RECEIPT_FILE in after && after[RECEIPT_FILE] == dir[RECEIPT_FILE]
  {
    OtherMarks();
  }

  lemma {:induction false} AcceptedHolds(dir: Directory, channel: Channel, tools: Tools, v: Validated, t: Channel)
    requires Accepts(dir, channel, tools, v) && (DbName(t) in dir || ZipName(t) in dir)
    ensures Packed(dir, t, tools)
  {
    AcceptedPacked(dir, channel, tools, v, t);
  }

  /** A beta promotion keeps the alpha feed, so it can be published once the alpha release is. */
  lemma {:induction false} BetaReady(dir: Directory, beta: Directory, r: Receipt, v: Validated, tools: Tools,
                                     bytes: Content -> seq<nat>, s: RS.Remote)
    requires Accepts(dir, Alpha, tools, v) && Evidenced(dir, v, tools) && r == dir[RECEIPT_FILE].receipt
    requires Accepts(beta, Beta, tools, v) && SamePayload(dir, beta) && Tells(tools.md5) && Tells(bytes)
    requires RS.Ready(s, OrderOf(dir, Alpha, r, v, tools, bytes), v.repository)
    ensures RS.Ready(RS.Final(s, OrderOf(dir, Alpha, r, v, tools, bytes)), OrderOf(beta, Beta, r, v, tools, bytes),
                     v.repository)
  {
    AcceptedPublishable(dir, Alpha, r, v, tools, bytes);
    AcceptedHolds(dir, Alpha, tools, v, Alpha);
    AlphaFeedKept(dir, beta, tools);
    AcceptedHolds(beta, Beta, tools, v, Alpha);
    NextPublishable(dir, beta, Alpha, Beta, r, v, tools, bytes, s);
  }

  /** A release promotion generates the beta feed again, so it can be published after the beta one
      exactly when both were prepared at the same time. */
  lemma {:induction false} StableReady(beta: Directory, stable: Directory, r: Receipt, v: Validated, t1: int, t2: int,
                                       tools: Tools, bytes: Content -> seq<nat>, s: RS.Remote)
    requires Accepts(beta, Beta, tools, v) && Evidenced(beta, v, tools) && r == beta[RECEIPT_FILE].receipt
    requires Accepts(stable, Stable, tools, v) && SamePayload(beta, stable) && Tells(tools.md5) && Tells(bytes)
    requires HoldsFeed(beta, Beta, PromotedFeed(r, v.repository, t1), v.repository)
    requires HoldsFeed(stable, Beta, PromotedFeed(r, v.repository, t2), v.repository)
    requires RS.Ready(s, OrderOf(beta, Beta, r, v, tools, bytes), v.repository)
    ensures RS.Ready(RS.Final(s, OrderOf(beta, Beta, r, v, tools, bytes)), OrderOf(stable, Stable, r, v, tools, bytes),
                     v.repository)
      <==> t1 == t2
  {
    AcceptedPublishable(beta, Beta, r, v, tools, bytes);
    AcceptedHolds(beta, Beta, tools, v, Beta);
    AcceptedHolds(stable, Stable, tools, v, Beta);
    NextPublishable(beta, stable, Beta, Stable, r, v, tools, bytes, s);
    SameTimeSameFeed(beta, stable, Beta, r, v.repository, t1, t2);
  }

  lemma {:induction false} SamePayloadBetween(dir: Directory, beta: Directory, stable: Directory)
    requires SamePayload(dir, beta) && SamePayload(dir, stable)
    ensures SamePayload(beta, stable)
  {
  }

  /** The whole way of a candidate: when its alpha release can be published, the beta promotion can be
      published after it, and the release promotion after that exactly when it was prepared with the
      timestamp of the beta promotion. */
  lemma {:induction false} ReleasableAtSameTime(dir: Directory, beta: Directory, stable: Directory, r: Receipt,
                                                v: Validated, t1: int, t2: int, tools: Tools,
                                                bytes: Content -> seq<nat>, s: RS.Remote)
    requires Accepts(dir, Alpha, tools, v) && Evidenced(dir, v, tools) && r == dir[RECEIPT_FILE].receipt
    requires Prepared(dir, beta, Beta, v.repository, t1, tools, v)
    requires Prepared(dir, stable, Stable, v.repository, t2, tools, v)
    requires Tells(tools.md5) && Tells(bytes)
    requires RS.Ready(s, OrderOf(dir, Alpha, r, v, tools, bytes), v.repository)
    ensures var alphaDone := RS.Final(s, OrderOf(dir, Alpha, r, v, tools, bytes));
      var betaDone := RS.Final(alphaDone, OrderOf(beta, Beta, r, v, tools, bytes));
      && RS.Ready(alphaDone, OrderOf(beta, Beta, r, v, tools, bytes), v.repository)
      && (RS.Ready(betaDone, OrderOf(stable, Stable, r, v, tools, bytes), v.repository) <==> t1 == t2)
  {
    BetaReady(dir, beta, r, v, tools, bytes, s);
    ReceiptKept(dir, beta);
    SamePayloadBetween(dir, beta, stable);
    StableReady(beta, stable, r, v, t1, t2, tools, bytes, RS.Final(s, OrderOf(dir, Alpha, r, v, tools, bytes)));
  }
}
