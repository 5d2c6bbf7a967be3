/** What a publication leaves on the release host, and what it asks for, asset by asset. */
module PublishedState {
  import opened Options
  import opened Releases
  import opened ReleaseState

  // ---------------------------------------------------------------- the settled tags

  predicate Distinct(tags: seq<Tag>) {
    forall i, j :: 0 <= i < j < |tags| ==> tags[i] != tags[j]
  }

  /** Settling tags one after the other does to each what settling it alone would do. */
  lemma {:induction false} SettledOne(s: Remote, o: Order, tags: seq<Tag>, tag: Tag)
    requires Distinct(tags)
    ensures var t := SettledAll(o, tags, s);
      if tag in tags then tag in t.entries && t.entries[tag] == FinalEntry(o, tag, s)
      else (tag in t.entries <==> tag in s.entries) && (tag in s.entries ==> t.entries[tag] == s.entries[tag])
    decreases |tags|
  {
    if tags == [] {
    } else {
      var t := Settled(o, tags[0], s);
      SettledOne(t, o, tags[1..], tag);
      if tag == tags[0] {
        assert tag !in tags[1..];
      } else {
        assert tag in tags <==> tag in tags[1..];
      }
    }
  }

  lemma {:induction false} NeededOnce(o: Order)
    ensures Distinct(NeededTags(o))
    ensures Version(o.candidate.version) in NeededTags(o)
    ensures forall t: Channel :: Feed(t) in NeededTags(o) <==> PublishesTo(o, t)
    ensures forall v :: Version(v) in NeededTags(o) <==> v == o.candidate.version
  {
  }

  // ---------------------------------------------------------------- what is published

  /** A release publication also refreshes beta. */
  predicate PublishesTo(o: Order, t: Channel) {
    match o.channel
    case Alpha => t == Alpha
    case Beta => t == Beta
    case Stable => t == Beta || t == Stable
  }

  /** The files of a channel's release: the database, its zip, and an installer but for alpha. */
  predicate ChannelFile(t: Channel, n: Name) {
    match n
    case Database(c) => c == t
    case FeedZip(c) => c == t
    case Installer(c) => c == t && t != Alpha
    case _ => false
  }

  function AssetsOf(s: Remote, tag: Tag): map<Name, Content> {
    if ReleaseOf(s, tag).Some? then ReleaseOf(s, tag).value.assets else map[]
  }

  /** A channel's release holds the candidate's channel files, keeps what else it had, and presents
      the version, as a prerelease unless this is a release publication. */
  ghost predicate ChannelReleasePublished(s: Remote, end: Remote, o: Order, t: Channel) {
    && Feed(t) in end.entries
    && end.entries[Feed(t)].revision
      == (if Feed(t) in s.entries then s.entries[Feed(t)].revision else o.sourceRevision)
    && var release := end.entries[Feed(t)].release;
    && release.Some? && release.value.shown == Some(Shown(o.candidate.version, o.channel == Stable))
    && (forall n :: ChannelFile(t, n) ==>
          n in o.candidate.files && n in release.value.assets && release.value.assets[n] == o.candidate.files[n])
    && (forall n :: !ChannelFile(t, n) ==>
          (n in release.value.assets <==> n in AssetsOf(s, Feed(t)))
          && (n in AssetsOf(s, Feed(t)) ==> release.value.assets[n] == AssetsOf(s, Feed(t))[n]))
  }

  /** The version's release is at the validated revision; an alpha run leaves exactly the candidate's
      files there, a promotion what was there, and only a release publication presents it. */
  ghost predicate VersionPublished(s: Remote, end: Remote, o: Order) {
    var tag := Version(o.candidate.version);
    && tag in end.entries && end.entries[tag].revision == o.sourceRevision
    && var release, before := end.entries[tag].release, ReleaseOf(s, tag);
    && release.Some?
    && release.value.assets == (if o.channel == Alpha then o.candidate.files else AssetsOf(s, tag))
    && release.value.shown == (if o.channel == Stable then Some(Shown(o.candidate.version, true))
                               else if before.Some? then before.value.shown else None)
  }

  /** The feeds of exactly the channels published to are the candidate's. */
  ghost predicate FeedsPublished(s: Remote, end: Remote, o: Order) {
    forall t: Channel ::
      if PublishesTo(o, t)
      then FeedZip(t) in o.candidate.files && t in end.feeds && end.feeds[t] == o.candidate.files[FeedZip(t)]
      else (t in end.feeds <==> t in s.feeds) && (t in s.feeds ==> end.feeds[t] == s.feeds[t])
  }

  /** No other tag is touched. */
  ghost predicate OthersUntouched(s: Remote, end: Remote, o: Order) {
    forall tag: Tag :: !(tag.Feed? && PublishesTo(o, tag.channel)) && tag != Version(o.candidate.version) ==>
      (tag in end.entries <==> tag in s.entries) && (tag in s.entries ==> end.entries[tag] == s.entries[tag])
  }

  /** The candidate of a ready order has the feeds of all channels published to. */
  lemma {:induction false} HasChannelFiles(s: Remote, o: Order, repository: string, t: Channel, n: Name)
    requires Proper(o) && Ready(s, o, repository) && PublishesTo(o, t) && ChannelFile(t, n)
    ensures n in o.candidate.files
  {
    assert o.channel == Stable ==> FeedZip(Beta) in o.candidate.files;
    assert Database(t) in o.candidate.files;
  }

  lemma {:induction false} EndEntry(s: Remote, o: Order, tag: Tag)
    requires tag in NeededTags(o)
    ensures tag in Final(s, o).entries && Final(s, o).entries[tag] == FinalEntry(o, tag, s)
  {
    NeededOnce(o);
    SettledOne(s, o, NeededTags(o), tag);
  }

  /** Which names are picked for a channel, and what the release then holds. */
  lemma {:induction false} ChannelAssets(before: map<Name, Content>, files: map<Name, Content>, t: Channel, n: Name)
    ensures var after := before + Pick(files, ChannelNames(t));
      if ChannelFile(t, n) && n in files then n in after && after[n] == files[n]
      else (n in after <==> n in before) && (n in before ==> after[n] == before[n])
  {
  }

  lemma {:induction false} ChannelRelease(s: Remote, o: Order, repository: string, t: Channel)
    requires Proper(o) && Ready(s, o, repository) && PublishesTo(o, t)
    ensures ChannelReleasePublished(s, Final(s, o), o, t)
  {
    NeededOnce(o);
    EndEntry(s, o, Feed(t));
    forall n | ChannelFile(t, n) ensures n in o.candidate.files { HasChannelFiles(s, o, repository, t, n); }
    var before := AssetsOf(s, Feed(t));
    FilledChannel(s, Final(s, o), o, t, before, before + Pick(o.candidate.files, ChannelNames(t)));
  }

  lemma {:induction false} FilledChannel(s: Remote, end: Remote, o: Order, t: Channel, before: map<Name, Content>,
                                         after: map<Name, Content>)
    requires forall n :: ChannelFile(t, n) ==> n in o.candidate.files
    requires before == AssetsOf(s, Feed(t)) && after == before + Pick(o.candidate.files, ChannelNames(t))
    requires Feed(t) in end.entries && end.entries[Feed(t)]
      == Entry(if Feed(t) in s.entries then s.entries[Feed(t)].revision else o.sourceRevision,
               Some(Release(after, Some(Shown(o.candidate.version, o.channel == Stable)))))
    ensures ChannelReleasePublished(s, end, o, t)
  {
    forall n ensures
      if ChannelFile(t, n) then n in after && after[n] == o.candidate.files[n]
      else (n in after <==> n in before) && (n in before ==> after[n] == before[n])
    {
      ChannelAssets(before, o.candidate.files, t, n);
    }
  }

  lemma {:induction false} StartedIsCompleted(before: map<Name, Content>, files: map<Name, Content>)
    requires Agrees(files, before, before.Keys)
    ensures before + files == files
  {
  }

  lemma {:induction false} VersionRelease(s: Remote, o: Order, repository: string)
    requires Proper(o) && Ready(s, o, repository)
    ensures VersionPublished(s, Final(s, o), o)
  {
    NeededOnce(o);
    EndEntry(s, o, Version(o.candidate.version));
    if o.channel == Alpha {
      StartedIsCompleted(AssetsOf(s, Version(o.candidate.version)), o.candidate.files);
    }
  }

  lemma {:induction false} FeedsSwitched(s: Remote, o: Order, repository: string)
    requires Proper(o) && Ready(s, o, repository)
    ensures FeedsPublished(s, Final(s, o), o)
  {
    forall t: Channel | PublishesTo(o, t)
      ensures FeedZip(t) in o.candidate.files && t in NewFeeds(o)
    {
      HasChannelFiles(s, o, repository, t, FeedZip(t));
    }
  }

  lemma {:induction false} NothingElse(s: Remote, o: Order)
    ensures OthersUntouched(s, Final(s, o), o)
  {
    NeededOnce(o);
    forall tag: Tag | !(tag.Feed? && PublishesTo(o, tag.channel)) && tag != Version(o.candidate.version)
      ensures tag !in NeededTags(o)
    {
      assert tag.Feed? ==> tag == Feed(tag.channel);
      assert tag.Version? ==> tag == Version(tag.version);
    }
    forall tag: Tag | tag !in NeededTags(o)
      ensures (tag in Final(s, o).entries <==> tag in s.entries)
        && (tag in s.entries ==> Final(s, o).entries[tag] == s.entries[tag])
    {
      SettledOne(s, o, NeededTags(o), tag);
    }
  }

  /** What a finished publication leaves behind, name by name. */
  lemma {:induction false} PublishedExactly(s: Remote, o: Order, repository: string)
    requires Proper(o) && Ready(s, o, repository)
    ensures VersionPublished(s, Final(s, o), o) && FeedsPublished(s, Final(s, o), o)
    ensures forall t: Channel :: PublishesTo(o, t) ==> ChannelReleasePublished(s, Final(s, o), o, t)
    ensures OthersUntouched(s, Final(s, o), o)
  {
    VersionRelease(s, o, repository);
    FeedsSwitched(s, o, repository);
    NothingElse(s, o);
    forall t: Channel | PublishesTo(o, t) ensures ChannelReleasePublished(s, Final(s, o), o, t) {
      ChannelRelease(s, o, repository, t);
    }
  }

  // ---------------------------------------------------------------- what is asked for

  /** The feed that a promotion must find in the channel before it. */
  ghost predicate FeedBefore(s: Remote, o: Order) {
    var files := o.candidate.files;
    match o.channel
    case Alpha => true
    case Beta => FeedZip(Alpha) in files && Alpha in s.feeds && s.feeds[Alpha] == files[FeedZip(Alpha)]
    case Stable => FeedZip(Beta) in files && Beta in s.feeds && s.feeds[Beta] == files[FeedZip(Beta)]
  }

  /** What may already be under the version tag of an alpha run: nothing at all, or the tag at this
      revision with a part of the candidate. */
  ghost predicate VersionStarted(s: Remote, o: Order) {
    var tag := Version(o.candidate.version);
    tag in s.entries ==>
      && s.entries[tag].revision == o.sourceRevision
      && forall n :: n in AssetsOf(s, tag) ==> n in o.candidate.files && AssetsOf(s, tag)[n] == o.candidate.files[n]
  }

  /** What must be under the version tag of a promotion: the release at this revision with every
      validated asset, the receipt and the evidence, byte for byte. */
  ghost predicate VersionThere(s: Remote, o: Order) {
    var tag := Version(o.candidate.version);
    && ReleaseOf(s, tag).Some? && s.entries[tag].revision == o.sourceRevision
    && forall n :: n in o.candidate.assets || n == Receipt || n == Evidence ==>
         n in o.candidate.files && n in AssetsOf(s, tag) && AssetsOf(s, tag)[n] == o.candidate.files[n]
  }

  /** A publication can be done exactly for an accepted candidate of this repository and of the full
      commit it is run for, with the feed before it live and the version tag as it has to be. */
  lemma {:induction false} ReadyExactly(s: Remote, o: Order, repository: string)
    ensures Ready(s, o, repository) <==>
      && o.accepted && o.candidate.repository == repository && o.candidate.revision == o.sourceRevision
      && |o.sourceRevision| == 40 && (forall c :: c in o.sourceRevision ==> LowerHex(c))
      && FeedBefore(s, o) && if o.channel == Alpha then VersionStarted(s, o) else VersionThere(s, o)
  {
    HexDigits(o.sourceRevision);
    var tag := Version(o.candidate.version);
    assert ReleaseOf(s, tag).Some? ==> tag in s.entries;
    assert o.channel != Alpha ==> (VersionReady(s, o) <==> VersionThere(s, o)) by {
      assert forall n :: n in Core(o.candidate) <==> n in o.candidate.assets || n == Receipt || n == Evidence;
    }
  }
}
