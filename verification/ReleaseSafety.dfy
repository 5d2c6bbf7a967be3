/** What holds over any series of publication runs, finished, refused or cut off. */
module ReleaseSafety {
  import opened Releases
  import opened ReleaseState

  // ---------------------------------------------------------------- resuming

  /** What `Publish` guarantees of a run that is cut. */
  ghost predicate CutRun(s: Remote, t: Remote, o: Order, repository: string) {
    && EndState(t, o, repository) == EndState(s, o, repository)
    && (Ready(t, o, repository) <==> Ready(s, o, repository))
  }

  /** However often runs for the same candidate are cut, the run that finishes ends, accepted or
      refused, in the state an uninterrupted run would have ended in; cuts neither spoil a candidate
      that could be published nor make one publishable. */
  lemma {:induction false} Resumable(states: seq<Remote>, o: Order, repository: string)
    requires states != []
    requires forall i :: 0 < i < |states| ==> CutRun(states[i - 1], states[i], o, repository)
    ensures EndState(states[|states| - 1], o, repository) == EndState(states[0], o, repository)
    ensures Ready(states[|states| - 1], o, repository) <==> Ready(states[0], o, repository)
  {
    for i := 1 to |states|
      invariant EndState(states[i - 1], o, repository) == EndState(states[0], o, repository)
      invariant Ready(states[i - 1], o, repository) <==> Ready(states[0], o, repository)
    {
      assert CutRun(states[i - 1], states[i], o, repository);
    }
  }

  lemma {:induction false} SettleKeepsDone(s: Remote, o: Order, tag: Tag, done: Tag)
    requires Done(s, o, done)
    ensures Done(Settled(o, tag, s), o, done)
  {
    if tag == done {
      assert s.entries[tag := s.entries[tag]] == s.entries;
    }
  }

  lemma {:induction false} SettleDoes(s: Remote, o: Order, tag: Tag)
    ensures Done(Settled(o, tag, s), o, tag)
  {
    var release := ReleaseOf(s, tag);
    var r := if release.Some? then release.value else EMPTY;
    var files := match tag
      case Version(_) => o.candidate.files
      case Feed(t) => Pick(o.candidate.files, ChannelNames(t));
    assert r.assets + files + files == r.assets + files;
  }

  lemma {:induction false} SettledAllDoes(s: Remote, o: Order, tags: seq<Tag>, done: set<Tag>)
    requires forall tag :: tag in done ==> Done(s, o, tag)
    ensures forall tag :: tag in done || tag in tags ==> Done(SettledAll(o, tags, s), o, tag)
    decreases |tags|
  {
    if tags == [] {
    } else {
      var t := Settled(o, tags[0], s);
      SettleDoes(s, o, tags[0]);
      forall tag | tag in done ensures Done(t, o, tag) { SettleKeepsDone(s, o, tags[0], tag); }
      SettledAllDoes(t, o, tags[1..], done + {tags[0]});
    }
  }

  /** Settling a tag other than the version leaves the version's release alone. */
  lemma {:induction false} OthersKept(s: Remote, o: Order, tags: seq<Tag>, tag: Tag)
    requires tag !in tags && tag in s.entries
    ensures tag in SettledAll(o, tags, s).entries && SettledAll(o, tags, s).entries[tag] == s.entries[tag]
    decreases |tags|
  {
    if tags == [] {
    } else {
      OthersKept(Settled(o, tags[0], s), o, tags[1..], tag);
    }
  }

  lemma {:induction false} SettledComplete(s: Remote, o: Order, repository: string)
    requires Proper(o) && Ready(s, o, repository)
    ensures AllDone(SettledAll(o, NeededTags(o), s), o)
  {
    var v, tags := Version(o.candidate.version), NeededTags(o);
    SettledAllDoes(s, o, tags, {});
    var t := Settled(o, v, s);
    OthersKept(t, o, tags[1..], v);
    if o.channel == Alpha {
      var assets := if ReleaseOf(s, v).Some? then ReleaseOf(s, v).value.assets else map[];
      assert assets + o.candidate.files == o.candidate.files;
    }
  }

  lemma {:induction false} SettleFeeds(s: Remote, o: Order, tags: seq<Tag>)
    ensures SettledAll(o, tags, s).feeds == s.feeds
    decreases |tags|
  {
    if tags == [] {
    } else {
      SettleFeeds(Settled(o, tags[0], s), o, tags[1..]);
    }
  }

  /** Publishing the same candidate again is possible and changes nothing. */
  lemma {:induction false} PublishedOnce(s: Remote, o: Order, repository: string)
    requires Proper(o) && Ready(s, o, repository)
    ensures Ready(Final(s, o), o, repository) && Final(Final(s, o), o) == Final(s, o)
  {
    var t := SettledAll(o, NeededTags(o), s);
    SettledComplete(s, o, repository);
    SettleFeeds(s, o, NeededTags(o));
    SwitchIsFinal(t, o, repository);
  }

  // ---------------------------------------------------------------- promoting what was published

  /** The next channel's order for the same payload. */
  ghost predicate Promotes(p: Order, o: Order) {
    && p.channel != Alpha && o.channel == Prerequisite(p.channel)
    && p.candidate.version == o.candidate.version && p.sourceRevision == o.sourceRevision
    && Core(p.candidate) == Core(o.candidate)
    && Agrees(p.candidate.files, o.candidate.files, Core(p.candidate))
  }

  lemma {:induction false} PublishedIsComplete(s: Remote, o: Order, repository: string)
    requires Proper(o) && Ready(s, o, repository)
    ensures Complete(Final(s, o), o)
    ensures o.channel in Final(s, o).feeds && FeedZip(o.channel) in o.candidate.files
    ensures Final(s, o).feeds[o.channel] == o.candidate.files[FeedZip(o.channel)]
  {
    SettledComplete(s, o, repository);
    SettleFeeds(s, o, NeededTags(o));
    assert o.channel in NewFeeds(o);
  }

  lemma {:induction false} StillReady(t: Remote, o: Order, p: Order)
    requires Complete(t, o) && Promotes(p, o)
    ensures VersionReady(t, p)
  {
  }

  /** After a publication the next channel is ready exactly when it carries the very feed that was
      published; nothing else can stand in the way of a promotion of the same payload. */
  lemma {:induction false} NextReady(s: Remote, o: Order, p: Order, repository: string)
    requires Proper(o) && Ready(s, o, repository) && Allowed(p, repository) && Promotes(p, o)
    ensures var feed := FeedZip(o.channel);
      && feed in o.candidate.files
      && (Ready(Final(s, o), p, repository) <==>
            feed in p.candidate.files && p.candidate.files[feed] == o.candidate.files[feed])
  {
    PublishedIsComplete(s, o, repository);
    StillReady(Final(s, o), o, p);
  }

  // ---------------------------------------------------------------- what the feeds promise

  /** A live feed names a version whose tag is at the validated revision and holds every asset the
      feed installs, byte for byte. */
  ghost predicate Backed(s: Remote, t: Channel, feed: Content) {
    && feed.FeedFile? && feed.channel == t
    && var release := ReleaseOf(s, Version(feed.version));
    && release.Some? && Receipt in release.value.assets
    && IsVerdict(release.value.assets[Receipt], feed.version, s.entries[Version(feed.version)].revision)
    && Agrees(feed.items, release.value.assets, feed.items.Keys)
  }

  ghost predicate Safe(s: Remote) {
    forall t: Channel :: t in s.feeds ==> Backed(s, t, s.feeds[t])
  }

  lemma {:induction false} StillBacked(s: Remote, t: Remote, channel: Channel, feed: Content)
    requires Backed(s, channel, feed) && Keeps(s, t)
    ensures Backed(t, channel, feed)
  {
    assert KeepsEntry(Version(feed.version), s.entries[Version(feed.version)], t.entries[Version(feed.version)]);
  }

  lemma {:induction false} NewFeedBacked(s: Remote, o: Order, repository: string, t: Channel)
    requires Verified(o.candidate, o.channel) && Identified(o, repository) && Complete(s, o) && t in NewFeeds(o)
    ensures Backed(s, t, NewFeeds(o)[t])
  {
    var c := o.candidate;
    var assets := ReleaseOf(s, Version(c.version)).value.assets;
    assert Agrees(c.files, assets, Core(c));
    assert Receipt in Core(c);
    var feed := c.files[FeedZip(t)];
    forall n | n in feed.items
      ensures n in assets && assets[n] == feed.items[n]
    {
      assert n in c.assets && n in Core(c);
    }
  }

  /** No run, whatever its candidate and however it ends, breaks the promise of a feed. */
  lemma {:induction false} EffectKeepsSafe(s: Remote, t: Remote, o: Order, repository: string)
    requires Safe(s) && Proper(o) && Effect(s, t, o, repository)
    ensures Safe(t)
  {
    forall channel | channel in t.feeds
      ensures Backed(t, channel, t.feeds[channel])
    {
      if t.feeds != s.feeds && channel in NewFeeds(o) {
        NewFeedBacked(t, o, repository, channel);
      } else {
        StillBacked(s, t, channel, s.feeds[channel]);
      }
    }
  }

  // ---------------------------------------------------------------- whole histories

  /** The states between the runs of a repository that began without feeds. */
  ghost predicate History(states: seq<Remote>, orders: seq<Order>, repository: string) {
    && |states| == |orders| + 1 && states[0].feeds == map[]
    && forall i :: 0 <= i < |orders| ==> Proper(orders[i]) && Effect(states[i], states[i + 1], orders[i], repository)
  }

  ghost predicate Announces(s: Remote, t: Channel, version: string) {
    t in s.feeds && s.feeds[t].FeedFile? && s.feeds[t].version == version
  }

  lemma {:induction false} HistoryIsSafe(states: seq<Remote>, orders: seq<Order>, repository: string, i: nat)
    requires History(states, orders, repository) && i < |states|
    ensures Safe(states[i])
  {
    for k := 0 to i
      invariant Safe(states[k])
    {
      EffectKeepsSafe(states[k], states[k + 1], orders[k], repository);
    }
  }

  /** Whatever was under a version tag once is under it for ever, unchanged. */
  lemma {:induction false} NothingIsLost(states: seq<Remote>, orders: seq<Order>, repository: string, i: nat, j: nat)
    requires History(states, orders, repository) && i <= j < |states|
    ensures Keeps(states[i], states[j])
  {
    for k := i to j
      invariant Keeps(states[i], states[k])
    {
      assert Effect(states[k], states[k + 1], orders[k], repository);
      KeepsTrans(states[i], states[k], states[k + 1]);
    }
  }

  /** A run that puts a version into the beta or the release feed found it in the feed before. */
  lemma {:induction false} OneRunPromotes(s: Remote, t: Remote, o: Order, repository: string, channel: Channel,
                                          version: string)
    requires Proper(o) && Effect(s, t, o, repository) && channel != Alpha
    requires Announces(t, channel, version) && !Announces(s, channel, version)
    ensures Announces(s, Prerequisite(channel), version)
  {
    var c := o.candidate;
    assert channel in NewFeeds(o);
    assert c.files[FeedZip(channel)].version == c.version == version;
    assert c.files[FeedZip(Prerequisite(o.channel))].version == c.version;
  }

  /** A version in the beta feed was in the alpha feed before, and one in the release feed in the beta feed. */
  lemma {:induction false} PromotedInOrder(states: seq<Remote>, orders: seq<Order>, repository: string, i: nat,
                                           channel: Channel, version: string)
    returns (j: nat)
    requires History(states, orders, repository) && i < |states|
    requires channel != Alpha && Announces(states[i], channel, version)
    ensures j < i && Announces(states[j], Prerequisite(channel), version)
  {
    j := i;
    while Announces(states[j], channel, version)
      invariant j <= i && (j < i ==> Announces(states[j + 1], channel, version))
      invariant j == i ==> Announces(states[j], channel, version)
      decreases j
    {
      j := j - 1;
    }
    OneRunPromotes(states[j], states[j + 1], orders[j], repository, channel, version);
  }

  /** A version in the release feed went through alpha and beta first. */
  lemma {:induction false} ReleasedThroughAll(states: seq<Remote>, orders: seq<Order>, repository: string, i: nat,
                                              version: string)
    requires History(states, orders, repository) && i < |states| && Announces(states[i], Stable, version)
    ensures exists j, k :: 0 <= k < j < i && Announces(states[j], Beta, version) && Announces(states[k], Alpha, version)
  {
    var j := PromotedInOrder(states, orders, repository, i, Stable, version);
    var k := PromotedInOrder(states, orders, repository, j, Beta, version);
  }
}
