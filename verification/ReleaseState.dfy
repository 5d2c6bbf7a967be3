/** The remote state of releases and feeds, and what publishing a candidate does to it. */
module ReleaseState {
  import opened Options
  import opened Releases

  /** How a step of a run ends: with a value, with an error, or cut off before an API call. */
  datatype Result<T> = Ok(value: T) | Refused | Cut {
    predicate IsFailure() { !Ok? }

    function PropagateFailure<U>(): Result<U>
      requires IsFailure()
    {
      if Refused? then Refused else Cut
    }

    function Extract(): T
      requires !IsFailure()
    {
      value
    }
  }

  datatype Unit = Unit

  /** An immutable version tag, or the mutable release of a channel. */
  datatype Tag = Version(version: string) | Feed(channel: Channel)

  datatype Name = Payload(path: string) | Archive | AssetList | Checksums | Receipt | Evidence
    | Database(channel: Channel) | FeedZip(channel: Channel) | Installer(channel: Channel)

  /** Asset bytes, and what they say: a verdict names a version and its revision, a feed a version
      and the bytes of every payload asset it installs. Contents are equal only if all bytes are. */
  datatype Content = Bytes(data: seq<nat>) | Validated(version: string, revision: string, data: seq<nat>)
    | FeedFile(channel: Channel, version: string, items: map<Name, Content>, data: seq<nat>)

  datatype Shown = Shown(version: string, stable: bool)

  datatype Release = Release(assets: map<Name, Content>, shown: Option<Shown>)

  /** A tag of the repository: the revision it points to, and the release made for it, if any. */
  datatype Entry = Entry(revision: string, release: Option<Release>)

  /** What the repository holds: its tags, and the feeds on the downloader branch. */
  datatype Remote = Remote(entries: map<Tag, Entry>, feeds: map<Channel, Content>)

  datatype Candidate = Candidate(
    version: string, revision: string, repository: string, assets: set<Name>, files: map<Name, Content>)

  /** One publication; `accepted` is the verdict of candidate verification and delivery evidence. */
  datatype Order = Order(candidate: Candidate, channel: Channel, sourceRevision: string, accepted: bool)

  const EMPTY := Release(map[], None)

  // ---------------------------------------------------------------- what a run is about

  function Prerequisite(ch: Channel): Channel {
    if ch == Stable then Beta else Alpha
  }

  predicate Targets(ch: Channel, t: Channel) {
    t == ch || (ch == Stable && t == Beta)
  }

  function ChannelNames(t: Channel): set<Name> {
    {Database(t), FeedZip(t)} + if t == Alpha then {} else {Installer(t)}
  }

  function Core(c: Candidate): set<Name> {
    c.assets + {Receipt, Evidence}
  }

  function Pick(files: map<Name, Content>, names: set<Name>): map<Name, Content> {
    map n | n in names && n in files :: files[n]
  }

  predicate Identified(o: Order, repository: string) {
    Identity(o.candidate.revision, o.candidate.repository, o.sourceRevision, repository)
  }

  predicate IsVerdict(c: Content, version: string, revision: string) {
    c.Validated? && c.version == version && c.revision == revision
  }

  /** What candidate verification establishes about the files of an accepted candidate. */
  ghost predicate Verified(c: Candidate, ch: Channel) {
    && Database(ch) in c.files
    && (forall t: Channel :: Database(t) in c.files <==> FeedZip(t) in c.files)
    && (forall t: Channel :: t != Alpha ==> (Database(t) in c.files <==> Installer(t) in c.files))
    && Core(c) <= c.files.Keys
    && IsVerdict(c.files[Receipt], c.version, c.revision)
    && (forall t: Channel :: FeedZip(t) in c.files ==>
          var feed := c.files[FeedZip(t)];
          && feed.FeedFile? && feed.channel == t && feed.version == c.version
          && feed.items.Keys <= c.assets && forall n :: n in feed.items ==> feed.items[n] == c.files[n])
  }

  ghost predicate Proper(o: Order) {
    o.accepted ==> Verified(o.candidate, o.channel)
  }

  ghost predicate Agrees(files: map<Name, Content>, assets: map<Name, Content>, names: set<Name>) {
    forall n :: n in names ==> n in files && n in assets && assets[n] == files[n]
  }

  // ---------------------------------------------------------------- what a whole run does

  ghost predicate Allowed(o: Order, repository: string) {
    o.accepted && Identified(o, repository)
  }

  /** A promotion needs this very candidate in the feed of the channel before. */
  ghost predicate PrerequisiteMet(feeds: map<Channel, Content>, o: Order) {
    o.channel != Alpha ==>
      var before, files := Prerequisite(o.channel), o.candidate.files;
      FeedZip(before) in files && before in feeds && feeds[before] == files[FeedZip(before)]
  }

  ghost predicate AssetsReady(o: Order, assets: map<Name, Content>) {
    Agrees(o.candidate.files, assets, if o.channel == Alpha then assets.Keys else Core(o.candidate))
  }

  function ReleaseOf(s: Remote, tag: Tag): Option<Release> {
    if tag in s.entries then s.entries[tag].release else None
  }

  /** The version tag is at the validated revision, and holds nothing but (all of, for a
      promotion) the candidate's bytes. */
  ghost predicate VersionReady(s: Remote, o: Order) {
    var tag := Version(o.candidate.version);
    var release := ReleaseOf(s, tag);
    && (o.channel != Alpha ==> release.Some?)
    && (tag in s.entries ==> s.entries[tag].revision == o.sourceRevision)
    && (release.Some? ==> AssetsReady(o, release.value.assets))
  }

  /** Exactly when an uninterrupted run succeeds. */
  ghost predicate Ready(s: Remote, o: Order, repository: string) {
    Allowed(o, repository) && PrerequisiteMet(s.feeds, o) && VersionReady(s, o)
  }

  /** An alpha run that finds the version's Git tag at another revision and without a release: it
      makes an empty release for the tag before it refuses. */
  predicate Strays(s: Remote, o: Order) {
    var tag := Version(o.candidate.version);
    o.channel == Alpha && tag in s.entries && s.entries[tag].release.None?
      && s.entries[tag].revision != o.sourceRevision
  }

  /** What a refused run leaves behind. */
  function Refusal(s: Remote, o: Order): Remote {
    var tag := Version(o.candidate.version);
    if Strays(s, o) then WithEntry(s, tag, s.entries[tag].(release := Some(EMPTY))) else s
  }

  ghost function FinalRelease(o: Order, tag: Tag, r: Release): Release {
    match tag
    case Version(v) =>
      Release(if o.channel == Alpha then r.assets + o.candidate.files else r.assets,
              if o.channel == Stable then Some(Shown(o.candidate.version, true)) else r.shown)
    case Feed(t) =>
      Release(r.assets + Pick(o.candidate.files, ChannelNames(t)),
        Some(Shown(o.candidate.version, o.channel == Stable)))
  }

  /** What becomes of a tag that a run needs. */
  ghost function FinalEntry(o: Order, tag: Tag, s: Remote): Entry {
    var release := ReleaseOf(s, tag);
    Entry(if tag in s.entries then s.entries[tag].revision else o.sourceRevision,
          Some(FinalRelease(o, tag, if release.Some? then release.value else EMPTY)))
  }

  ghost function Settled(o: Order, tag: Tag, s: Remote): Remote {
    s.(entries := s.entries[tag := FinalEntry(o, tag, s)])
  }

  function NewFeeds(o: Order): map<Channel, Content> {
    map t: Channel | Targets(o.channel, t) && FeedZip(t) in o.candidate.files :: o.candidate.files[FeedZip(t)]
  }

  function NeededTags(o: Order): seq<Tag> {
    [Version(o.candidate.version)] + (if o.channel == Stable then [Feed(Beta)] else []) + [Feed(o.channel)]
  }

  ghost function SettledAll(o: Order, tags: seq<Tag>, s: Remote): Remote {
    if tags == [] then s else SettledAll(o, tags[1..], Settled(o, tags[0], s))
  }

  /** The remote state an uninterrupted run ends in. */
  ghost function Final(s: Remote, o: Order): Remote {
    SettledAll(o, NeededTags(o), s).(feeds := s.feeds + NewFeeds(o))
  }

  /** The remote state one uninterrupted run ends in, successful or not. */
  ghost function EndState(s: Remote, o: Order, repository: string): Remote {
    if Ready(s, o, repository) then Final(s, o) else if Allowed(o, repository) then Refusal(s, o) else s
  }

  /** Nothing under a version tag is lost or changed, and no tag moves. */
  ghost predicate Keeps(s: Remote, t: Remote) {
    forall tag :: tag in s.entries ==> tag in t.entries && KeepsEntry(tag, s.entries[tag], t.entries[tag])
  }

  ghost predicate KeepsEntry(tag: Tag, before: Entry, now: Entry) {
    && now.revision == before.revision
    && (tag.Version? && before.release.Some? ==>
          now.release.Some?
            && Agrees(before.release.value.assets, now.release.value.assets, before.release.value.assets.Keys))
  }

  lemma {:induction false} KeepsTrans(s: Remote, t: Remote, u: Remote)
    requires Keeps(s, t) && Keeps(t, u)
    ensures Keeps(s, u)
  {
    forall tag | tag in s.entries
      ensures tag in u.entries && KeepsEntry(tag, s.entries[tag], u.entries[tag])
    {
      assert KeepsEntry(tag, s.entries[tag], t.entries[tag]) && KeepsEntry(tag, t.entries[tag], u.entries[tag]);
    }
  }

  /** What every step before the feed switch keeps. */
  ghost predicate Step(s: Remote, t: Remote, o: Order) {
    && Keeps(s, t) && t.feeds == s.feeds
    && (VersionReady(s, o) <==> VersionReady(t, o)) && Final(t, o) == Final(s, o)
  }

  lemma {:induction false} StepTrans(s: Remote, t: Remote, u: Remote, o: Order)
    requires Step(s, t, o) && Step(t, u, o)
    ensures Step(s, u, o)
  {
  }

  // ---------------------------------------------------------------- single changes

  function WithEntry(s: Remote, tag: Tag, e: Entry): Remote {
    s.(entries := s.entries[tag := e])
  }

  lemma {:induction false} SettleAbsorbs(s: Remote, tag: Tag, e: Entry, o: Order)
    requires FinalEntry(o, tag, WithEntry(s, tag, e)) == FinalEntry(o, tag, s)
    ensures Settled(o, tag, WithEntry(s, tag, e)) == Settled(o, tag, s)
  {
    var f := FinalEntry(o, tag, s);
    assert s.entries[tag := e][tag := f] == s.entries[tag := f];
  }

  lemma {:induction false} SettleCommutes(s: Remote, tag: Tag, e: Entry, other: Tag, o: Order)
    requires tag != other
    ensures Settled(o, other, WithEntry(s, tag, e)) == WithEntry(Settled(o, other, s), tag, e)
    ensures FinalEntry(o, tag, Settled(o, other, s)) == FinalEntry(o, tag, s)
    ensures FinalEntry(o, tag, WithEntry(Settled(o, other, s), tag, e)) == FinalEntry(o, tag, WithEntry(s, tag, e))
  {
    var f := FinalEntry(o, other, s);
    assert s.entries[tag := e][other := f] == s.entries[other := f][tag := e];
  }

  /** A change to one of the tags that comes to the same in the end comes to the same altogether. */
  lemma {:induction false} SameSettled(s: Remote, tag: Tag, e: Entry, o: Order, tags: seq<Tag>)
    requires tag in tags && FinalEntry(o, tag, WithEntry(s, tag, e)) == FinalEntry(o, tag, s)
    ensures SettledAll(o, tags, WithEntry(s, tag, e)) == SettledAll(o, tags, s)
    decreases |tags|
  {
    if tags[0] == tag {
      SettleAbsorbs(s, tag, e, o);
    } else {
      SettleCommutes(s, tag, e, tags[0], o);
      SameSettled(Settled(o, tags[0], s), tag, e, o, tags[1..]);
    }
  }

  lemma {:induction false} SameFinal(s: Remote, tag: Tag, e: Entry, o: Order)
    requires tag in NeededTags(o) && FinalEntry(o, tag, WithEntry(s, tag, e)) == FinalEntry(o, tag, s)
    ensures Final(WithEntry(s, tag, e), o) == Final(s, o)
  {
    SameSettled(s, tag, e, o, NeededTags(o));
  }

  /** A needed tag that already is as the run leaves it. */
  ghost predicate Done(s: Remote, o: Order, tag: Tag) {
    tag in s.entries && FinalEntry(o, tag, s) == s.entries[tag]
  }

  lemma {:induction false} NothingLeft(s: Remote, o: Order, tags: seq<Tag>)
    requires forall tag :: tag in tags ==> Done(s, o, tag)
    ensures SettledAll(o, tags, s) == s
    decreases |tags|
  {
    if tags == [] {
    } else {
      assert Done(s, o, tags[0]);
      assert s.entries[tags[0] := s.entries[tags[0]]] == s.entries;
      NothingLeft(s, o, tags[1..]);
    }
  }

  // ---------------------------------------------------------------- steps of a run

  /** A change to one needed tag is a step when it keeps that tag's promises. */
  lemma {:induction false} OneEntryStep(s: Remote, tag: Tag, e: Entry, o: Order)
    requires tag in NeededTags(o) && FinalEntry(o, tag, WithEntry(s, tag, e)) == FinalEntry(o, tag, s)
    requires tag in s.entries ==> KeepsEntry(tag, s.entries[tag], e)
    requires tag.Version? ==> (VersionReady(s, o) <==> VersionReady(WithEntry(s, tag, e), o))
    ensures Step(s, WithEntry(s, tag, e), o)
  {
    SameFinal(s, tag, e, o);
    var t := WithEntry(s, tag, e);
    forall other | other in s.entries
      ensures other in t.entries && KeepsEntry(other, s.entries[other], t.entries[other])
    {
      assert other == tag || t.entries[other] == s.entries[other];
    }
  }

  function Created(s: Remote, tag: Tag, revision: string): Entry {
    Entry(if tag in s.entries then s.entries[tag].revision else revision, Some(EMPTY))
  }

  /** The release for a tag, created if it is missing. */
  function WithRelease(s: Remote, tag: Tag, revision: string): (t: Remote)
    ensures ReleaseOf(t, tag).Some?
  {
    if ReleaseOf(s, tag).Some? then s else WithEntry(s, tag, Created(s, tag, revision))
  }

  lemma {:induction false} CreateStep(s: Remote, tag: Tag, o: Order)
    requires ReleaseOf(s, tag).None? && tag in NeededTags(o) && (tag.Version? ==> o.channel == Alpha)
    ensures Step(s, WithEntry(s, tag, Created(s, tag, o.sourceRevision)), o)
  {
    OneEntryStep(s, tag, Created(s, tag, o.sourceRevision), o);
  }

  /** The assets of a release while `up` is being uploaded: other assets are untouched, and what
      is uploaded is whole, absent or still as before. */
  ghost predicate Uploading(before: map<Name, Content>, now: map<Name, Content>, up: map<Name, Content>,
                            replace: bool)
  {
    && (forall n :: n !in up ==> (n in now <==> n in before) && (n in before ==> now[n] == before[n]))
    && (forall n :: n in up && n in now ==> now[n] == up[n] || (n in before && now[n] == before[n]))
    && (!replace ==> Agrees(before, now, before.Keys))
  }

  lemma {:induction false} UploadFinal(before: map<Name, Content>, now: map<Name, Content>, up: map<Name, Content>,
                                       replace: bool, files: map<Name, Content>)
    requires Uploading(before, now, up, replace)
    requires forall n :: n in up ==> n in files && up[n] == files[n]
    ensures now + files == before + files
  {
  }

  ghost predicate UploadAllowed(o: Order, tag: Tag, up: map<Name, Content>) {
    match tag
    case Version(_) => o.channel == Alpha && Agrees(o.candidate.files, up, up.Keys)
    case Feed(t) => up == Pick(o.candidate.files, ChannelNames(t))
  }

  function WithAssets(e: Entry, assets: map<Name, Content>): Entry
    requires e.release.Some?
  {
    e.(release := Some(e.release.value.(assets := assets)))
  }

  lemma {:induction false} UploadStep(s: Remote, tag: Tag, now: map<Name, Content>, up: map<Name, Content>, o: Order)
    requires ReleaseOf(s, tag).Some? && tag in NeededTags(o) && UploadAllowed(o, tag, up)
    requires Uploading(s.entries[tag].release.value.assets, now, up, tag.Feed?)
    ensures Step(s, WithEntry(s, tag, WithAssets(s.entries[tag], now)), o)
  {
    UploadFinal(s.entries[tag].release.value.assets, now, up, tag.Feed?,
      if tag.Version? then o.candidate.files else up);
    OneEntryStep(s, tag, WithAssets(s.entries[tag], now), o);
  }

  function WithShown(e: Entry, shown: Shown): Entry
    requires e.release.Some?
  {
    e.(release := Some(e.release.value.(shown := Some(shown))))
  }

  lemma {:induction false} PresentStep(s: Remote, tag: Tag, o: Order)
    requires ReleaseOf(s, tag).Some? && tag in NeededTags(o) && (tag.Version? ==> o.channel == Stable)
    ensures Step(s, WithEntry(s, tag, WithShown(s.entries[tag], Shown(o.candidate.version, o.channel == Stable))), o)
  {
    OneEntryStep(s, tag, WithShown(s.entries[tag], Shown(o.candidate.version, o.channel == Stable)), o);
  }

  /** The version tag holds the candidate: all of it after an alpha run, its core for a promotion. */
  ghost predicate Complete(s: Remote, o: Order) {
    var tag, files := Version(o.candidate.version), o.candidate.files;
    && ReleaseOf(s, tag).Some? && s.entries[tag].revision == o.sourceRevision
    && if o.channel == Alpha then s.entries[tag].release.value.assets == files
       else Agrees(files, s.entries[tag].release.value.assets, Core(o.candidate))
  }

  ghost predicate AllDone(s: Remote, o: Order) {
    Complete(s, o) && forall tag :: tag in NeededTags(o) ==> Done(s, o, tag)
  }

  /** Everything a run can do to the remote state, however it ends. */
  ghost predicate Effect(s: Remote, t: Remote, o: Order, repository: string) {
    && Keeps(s, t)
    && (t.feeds == s.feeds
        || (t.feeds == s.feeds + NewFeeds(o) && Allowed(o, repository) && PrerequisiteMet(s.feeds, o)
          && Complete(t, o)))
  }

  function Switched(s: Remote, o: Order): Remote {
    s.(feeds := s.feeds + NewFeeds(o))
  }

  lemma {:induction false} SwitchedDone(s: Remote, o: Order)
    requires AllDone(s, o)
    ensures AllDone(Switched(s, o), o)
  {
    forall tag | tag in NeededTags(o) ensures Done(Switched(s, o), o, tag) { assert Done(s, o, tag); }
  }

  lemma {:induction false} SwitchedReady(s: Remote, o: Order, repository: string)
    requires Complete(s, o) && Allowed(o, repository) && PrerequisiteMet(s.feeds, o)
    ensures Ready(Switched(s, o), o, repository) && Effect(s, Switched(s, o), o, repository)
  {
  }

  /** Once every release is done, switching the feeds reaches the final state, and a further run stays there. */
  lemma {:induction false} SwitchIsFinal(s: Remote, o: Order, repository: string)
    requires AllDone(s, o) && Allowed(o, repository) && PrerequisiteMet(s.feeds, o)
    ensures Final(s, o) == Switched(s, o)
    ensures Ready(Switched(s, o), o, repository) && Final(Switched(s, o), o) == Switched(s, o)
    ensures Effect(s, Switched(s, o), o, repository)
  {
    var t := Switched(s, o);
    NothingLeft(s, o, NeededTags(o));
    SwitchedDone(s, o);
    SwitchedReady(s, o, repository);
    NothingLeft(t, o, NeededTags(o));
    assert t.feeds + NewFeeds(o) == t.feeds;
  }
}
