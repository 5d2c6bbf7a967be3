/** Publication runs against the release host; a run may be cut off before any API call. */
module Publication {
  import opened Sets
  import opened Options
  import opened Releases
  import opened ReleaseState

  /** At most `calls` API calls were made, and a run is only cut when none is left. */
  ghost predicate Spent<T>(before: nat, after: nat, calls: nat, r: Result<T>) {
    after <= before <= after + calls && (r.Cut? ==> after == 0 && before < calls)
  }

  ghost predicate OnlyTag(s: Remote, t: Remote, tag: Tag) {
    t.feeds == s.feeds && t.entries.Keys <= s.entries.Keys + {tag} && s.entries.Keys <= t.entries.Keys
    && forall other :: other in t.entries && other != tag ==> t.entries[other] == s.entries[other]
  }

  /** An accepted candidate has the files of every channel it is published to. */
  lemma {:induction false} TargetFiles(o: Order, feeds: map<Channel, Content>)
    requires Verified(o.candidate, o.channel) && PrerequisiteMet(feeds, o)
    ensures Core(o.candidate) <= o.candidate.files.Keys
    ensures forall t: Channel :: Targets(o.channel, t) ==> ChannelNames(t) <= o.candidate.files.Keys
  {
  }

  lemma {:induction false} FewFeeds(o: Order)
    ensures |NewFeeds(o)| <= 2
  {
    SubsetSize(NewFeeds(o).Keys, {o.channel, Beta});
    assert |NewFeeds(o)| == |NewFeeds(o).Keys| && |{o.channel, Beta}| <= 2;
  }

  /** What is left when completing the version's release is refused. */
  lemma {:induction false} RefusedAfterCreate(s: Remote, t: Remote, o: Order)
    requires o.channel == Alpha && t == WithRelease(s, Version(o.candidate.version), o.sourceRevision)
    requires var e := t.entries[Version(o.candidate.version)];
      e.revision != o.sourceRevision || e.release.value.assets != map[]
    ensures t == Refusal(s, o)
  {
  }

  lemma {:induction false} SameStep(s: Remote, tag: Tag, o: Order)
    ensures Step(s, s, o) && OnlyTag(s, s, tag)
  {
  }

  lemma {:induction false} Missing(files: map<Name, Content>, assets: map<Name, Content>, missing: map<Name, Content>)
    requires Agrees(files, assets, assets.Keys) && missing == files - assets.Keys
    ensures |missing| <= |files| && assets + missing == files
    ensures Agrees(files, missing, missing.Keys) && forall n :: n in missing ==> n !in assets
  {
    FewerKeys(missing, files);
    TogetherWhole(files, assets, missing);
  }

  lemma {:induction false} TogetherWhole(files: map<Name, Content>, assets: map<Name, Content>,
                                         missing: map<Name, Content>)
    requires Agrees(files, assets, assets.Keys)
    requires forall n :: n in missing <==> n in files && n !in assets
    requires forall n :: n in missing ==> missing[n] == files[n]
    ensures assets + missing == files
  {
    var whole := assets + missing;
    forall n ensures n in whole <==> n in files {}
    forall n | n in files ensures whole[n] == files[n] {}
  }

  lemma {:induction false} FewerKeys(a: map<Name, Content>, b: map<Name, Content>)
    requires a.Keys <= b.Keys
    ensures |a| <= |b|
  {
    SubsetSize(a.Keys, b.Keys);
    assert |a| == |a.Keys| && |b| == |b.Keys|;
  }

  lemma {:induction false} OnlyUploaded(s: Remote, t: Remote, tag: Tag, up: map<Name, Content>, ok: bool)
    requires Uploaded(s, t, tag, up, tag.Feed?, ok)
    ensures OnlyTag(s, t, tag)
  {
  }

  lemma {:induction false} AllPicked(s: Remote, t: Remote, o: Order, target: Channel)
    requires ChannelNames(target) <= o.candidate.files.Keys
    requires Uploaded(s, t, Feed(target), Pick(o.candidate.files, ChannelNames(target)), true, true)
    ensures Agrees(o.candidate.files, t.entries[Feed(target)].release.value.assets, ChannelNames(target))
  {
  }

  lemma {:induction false} TargetDone(s: Remote, u: Remote, t: Remote, o: Order, target: Channel)
    requires Uploaded(s, u, Feed(target), Pick(o.candidate.files, ChannelNames(target)), true, true)
    requires t
      == WithEntry(u, Feed(target), WithShown(u.entries[Feed(target)], Shown(o.candidate.version, o.channel == Stable)))
    ensures Done(t, o, Feed(target))
  {
    var before, up := s.entries[Feed(target)].release.value.assets, Pick(o.candidate.files, ChannelNames(target));
    assert before + up + up == before + up;
  }

  lemma {:induction false} FewNames(c: Candidate, t: Channel)
    requires ChannelNames(t) <= c.files.Keys
    ensures Pick(c.files, ChannelNames(t)).Keys == ChannelNames(t) && |Pick(c.files, ChannelNames(t))| <= 3
  {
    assert Pick(c.files, ChannelNames(t)).Keys == ChannelNames(t);
    assert |ChannelNames(t)| <= 3;
  }

  /** Assets outside `rest` are uploaded, those in `rest` are as before. */
  ghost predicate PartUploaded(before: map<Name, Content>, now: map<Name, Content>, up: map<Name, Content>,
                               rest: set<Name>)
  {
    && (forall n :: n !in up || n in rest ==> (n in now <==> n in before) && (n in before ==> now[n] == before[n]))
    && (forall n :: n in up && n !in rest ==> n in now && now[n] == up[n])
  }

  ghost predicate Uploaded(s: Remote, t: Remote, tag: Tag, up: map<Name, Content>, replace: bool, ok: bool) {
    && ReleaseOf(s, tag).Some? && ReleaseOf(t, tag).Some?
    && var before, now := s.entries[tag].release.value.assets, t.entries[tag].release.value.assets;
    && t == WithEntry(s, tag, WithAssets(s.entries[tag], now))
    && Uploading(before, now, up, replace) && (ok ==> now == before + up)
  }

  lemma {:induction false} SameAssets(s: Remote, tag: Tag, up: map<Name, Content>, replace: bool)
    ensures ReleaseOf(s, tag).Some? ==> Uploaded(s, s, tag, up, replace, up == map[])
  {
    if ReleaseOf(s, tag).Some? {
      assert s.entries[tag := s.entries[tag]] == s.entries;
      assert s.entries[tag].release.value.assets + map[] == s.entries[tag].release.value.assets;
    }
  }

  ghost predicate PartlyUploaded(s: Remote, t: Remote, tag: Tag, up: map<Name, Content>, rest: set<Name>) {
    && ReleaseOf(s, tag).Some? && ReleaseOf(t, tag).Some?
    && var before, now := s.entries[tag].release.value.assets, t.entries[tag].release.value.assets;
    && t == WithEntry(s, tag, WithAssets(s.entries[tag], now)) && PartUploaded(before, now, up, rest)
  }

  lemma {:induction false} NoneUploaded(s: Remote, tag: Tag, up: map<Name, Content>)
    requires ReleaseOf(s, tag).Some?
    ensures PartlyUploaded(s, s, tag, up, up.Keys)
  {
    assert s.entries[tag := s.entries[tag]] == s.entries;
  }

  lemma {:induction false} OneUploaded(s: Remote, now: Remote, next: Remote, tag: Tag, up: map<Name, Content>,
                                       rest: set<Name>, n: Name, replace: bool)
    requires PartlyUploaded(s, now, tag, up, rest) && n in rest && rest <= up.Keys && ReleaseOf(next, tag).Some?
    requires !replace ==> forall n :: n in up ==> n !in s.entries[tag].release.value.assets
    requires var was, got := now.entries[tag].release.value.assets, next.entries[tag].release.value.assets;
      next == WithEntry(now, tag, WithAssets(now.entries[tag], got))
      && (got == was || (replace && got == was - {n}) || got == was[n := up[n]])
    ensures Uploaded(s, next, tag, up, replace, false)
    ensures next.entries[tag].release.value.assets == now.entries[tag].release.value.assets[n := up[n]] ==>
      PartlyUploaded(s, next, tag, up, rest - {n})
  {
    var before, was := s.entries[tag].release.value.assets, now.entries[tag].release.value.assets;
    var got := next.entries[tag].release.value.assets;
    OneMore(before, was, got, up, rest, n, replace);
    assert s.entries[tag := WithAssets(s.entries[tag], was)][tag := WithAssets(s.entries[tag], got)]
      == s.entries[tag := WithAssets(s.entries[tag], got)];
  }

  lemma {:induction false} OneMore(before: map<Name, Content>, was: map<Name, Content>, got: map<Name, Content>,
                                   up: map<Name, Content>, rest: set<Name>, n: Name, replace: bool)
    requires PartUploaded(before, was, up, rest) && n in rest && rest <= up.Keys
    requires !replace ==> forall n :: n in up ==> n !in before
    requires got == was || (replace && got == was - {n}) || got == was[n := up[n]]
    ensures Uploading(before, got, up, replace)
    ensures got == was[n := up[n]] ==> PartUploaded(before, got, up, rest - {n})
  {
  }

  lemma {:induction false} AllUploaded(s: Remote, t: Remote, tag: Tag, up: map<Name, Content>, replace: bool)
    requires PartlyUploaded(s, t, tag, up, {})
    requires !replace ==> forall n :: n in up ==> n !in s.entries[tag].release.value.assets
    ensures Uploaded(s, t, tag, up, replace, true)
  {
    var before, now := s.entries[tag].release.value.assets, t.entries[tag].release.value.assets;
    assert now == before + up;
  }

  class GitHub {
    const repository: string
    var remote: Remote
    /** API calls left before the run is cut off. */
    var budget: nat

    constructor (repository: string, remote: Remote, budget: nat)
      ensures this.repository == repository && this.remote == remote && this.budget == budget
    {
      this.repository, this.remote, this.budget := repository, remote, budget;
    }

    method Call() returns (r: Result<Unit>)
      modifies this`budget
      ensures !r.Refused? && Spent(old(budget), budget, 1, r)
    {
      if budget == 0 { return Cut; }
      budget := budget - 1;
      return Ok(Unit);
    }

    method GetRelease(tag: Tag) returns (r: Result<Option<Release>>)
      modifies this`budget
      ensures !r.Refused? && Spent(old(budget), budget, 1, r)
      ensures r.Ok? ==> r.value == ReleaseOf(remote, tag)
    {
      var _ :- Call();
      return Ok(ReleaseOf(remote, tag));
    }

    method Revision(tag: Tag) returns (r: Result<string>)
      modifies this`budget
      ensures Spent(old(budget), budget, 1, r)
      ensures r.Refused? ==> tag !in remote.entries
      ensures r.Ok? ==> tag in remote.entries && r.value == remote.entries[tag].revision
    {
      var _ :- Call();
      if tag !in remote.entries { return Refused; }
      return Ok(remote.entries[tag].revision);
    }

    /** A release for the tag; an existing tag keeps its revision. */
    method Create(tag: Tag, revision: string) returns (r: Result<Unit>)
      modifies this`budget, this`remote
      ensures Spent(old(budget), budget, 1, r)
      ensures r.Refused? ==> ReleaseOf(remote, tag).Some?
      ensures remote ==
        if r.Ok? then WithEntry(old(remote), tag, Created(old(remote), tag, revision)) else old(remote)
      ensures r.Ok? ==> ReleaseOf(old(remote), tag).None?
    {
      var _ :- Call();
      if ReleaseOf(remote, tag).Some? { return Refused; }
      remote := WithEntry(remote, tag, Created(remote, tag, revision));
      return Ok(Unit);
    }

    method SetShown(tag: Tag, shown: Shown) returns (r: Result<Unit>)
      modifies this`budget, this`remote
      ensures Spent(old(budget), budget, 1, r)
      ensures r.Refused? ==> ReleaseOf(remote, tag).None?
      ensures r.Ok? ==> ReleaseOf(old(remote), tag).Some?
      ensures remote == if r.Ok? then WithEntry(old(remote), tag, WithShown(old(remote).entries[tag], shown))
        else old(remote)
    {
      var _ :- Call();
      if ReleaseOf(remote, tag).None? { return Refused; }
      remote := WithEntry(remote, tag, WithShown(remote.entries[tag], shown));
      return Ok(Unit);
    }

    method GetFeed(channel: Channel) returns (r: Result<Option<Content>>)
      modifies this`budget
      ensures !r.Refused? && Spent(old(budget), budget, 1, r)
      ensures r.Ok? ==> r.value == if channel in remote.feeds then Some(remote.feeds[channel]) else None
    {
      var _ :- Call();
      return Ok(if channel in remote.feeds then Some(remote.feeds[channel]) else None);
    }

    /** Downloads assets and compares them with the candidate's files. */
    method VerifyRemote(tag: Tag, files: map<Name, Content>, names: set<Name>) returns (r: Result<Unit>)
      requires names <= files.Keys
      modifies this`budget
      ensures Spent(old(budget), budget, 1, r)
      ensures r.Ok?
        ==> names == {} || (ReleaseOf(remote, tag).Some? && Agrees(files, ReleaseOf(remote, tag).value.assets, names))
      ensures r.Refused? ==> ReleaseOf(remote, tag).None? || !Agrees(files, ReleaseOf(remote, tag).value.assets, names)
    {
      if names == {} { return Ok(Unit); }
      var _ :- Call();
      var release := ReleaseOf(remote, tag);
      if release.None? { return Refused; }
      var rest := names;
      while rest != {}
        invariant rest <= names && Agrees(files, release.value.assets, names - rest)
        decreases |rest|
      {
        var n :| n in rest;
        if n !in release.value.assets || release.value.assets[n] != files[n] { return Refused; }
        rest := rest - {n};
      }
      return Ok(Unit);
    }

    predicate Replaceable(tag: Tag, names: set<Name>) {
      tag.Feed? && forall n :: n in names ==> n.Database? || n.FeedZip? || n.Installer?
    }

    /** One asset, whole or not at all; an old one is deleted first when it may be replaced. */
    method UploadOne(tag: Tag, n: Name, up: map<Name, Content>, replace: bool) returns (r: Result<Unit>)
      requires ReleaseOf(remote, tag).Some? && n in up
      requires !replace ==> n !in remote.entries[tag].release.value.assets
      modifies this`budget, this`remote
      ensures !r.Refused? && Spent(old(budget), budget, 2, r)
      ensures ReleaseOf(remote, tag).Some? && tag in remote.entries
      ensures var before := old(remote.entries[tag].release.value.assets);
        var now := remote.entries[tag].release.value.assets;
        && remote == WithEntry(old(remote), tag, WithAssets(old(remote.entries[tag]), now))
        && (now == before || (replace && now == before - {n}) || now == before[n := up[n]])
        && (r.Ok? ==> now == before[n := up[n]])
    {
      var e := remote.entries[tag];
      var assets := e.release.value.assets;
      assert remote.entries[tag := WithAssets(e, assets)] == remote.entries;
      if replace && n in assets {
        var _ :- Call();
        assets := assets - {n};
        remote := WithEntry(remote, tag, WithAssets(e, assets));
      }
      var _ :- Call();
      remote := WithEntry(remote, tag, WithAssets(e, assets[n := up[n]]));
      assert old(remote).entries[tag := WithAssets(e, assets)][tag := WithAssets(e, assets[n := up[n]])]
        == old(remote).entries[tag := WithAssets(e, assets[n := up[n]])];
      assert e.release.value.assets[n := up[n]] == assets[n := up[n]];
      return Ok(Unit);
    }

    /** Uploads the assets one after the other, in any order. */
    method UploadAll(tag: Tag, up: map<Name, Content>, replace: bool) returns (r: Result<Unit>)
      requires ReleaseOf(remote, tag).Some?
      requires !replace ==> forall n :: n in up ==> n !in remote.entries[tag].release.value.assets
      modifies this`budget, this`remote
      ensures !r.Refused? && Spent(old(budget), budget, 2 * |up|, r)
      ensures Uploaded(old(remote), remote, tag, up, replace, r.Ok?)
    {
      ghost var before := remote;
      var rest := up.Keys;
      NoneUploaded(before, tag, up);
      while rest != {}
        invariant rest <= up.Keys && PartlyUploaded(before, remote, tag, up, rest)
        invariant budget <= old(budget) <= budget + 2 * (|up.Keys| - |rest|)
        decreases |rest|
      {
        var n :| n in rest;
        ghost var now := remote;
        var one := UploadOne(tag, n, up, replace);
        OneUploaded(before, now, remote, tag, up, rest, n, replace);
        if one.Cut? { return Cut; }
        rest := rest - {n};
      }
      AllUploaded(before, remote, tag, up, replace);
      return Ok(Unit);
    }

    /** Immutable assets are never replaced: without `replace` a name that exists refuses the upload,
        and with it only the feed and installer files of a channel are accepted. */
    method Upload(tag: Tag, up: map<Name, Content>, replace: bool) returns (r: Result<Unit>)
      modifies this`budget, this`remote
      ensures Spent(old(budget), budget, 1 + 2 * |up|, r)
      ensures r.Refused? ==> remote == old(remote) && UploadRefused(remote, tag, up, replace)
      ensures r.Ok? && up != map[] ==> ReleaseOf(old(remote), tag).Some? && (replace ==> Replaceable(tag, up.Keys))
      ensures if ReleaseOf(old(remote), tag).Some?
        then Uploaded(old(remote), remote, tag, up, replace, r.Ok?) else remote == old(remote)
    {
      SameAssets(remote, tag, up, replace);
      if up == map[] { return Ok(Unit); }
      if replace && !Replaceable(tag, up.Keys) { return Refused; }
      var _ :- Call();
      var release := ReleaseOf(remote, tag);
      if release.None? { return Refused; }
      if !replace && exists n :: n in up && n in release.value.assets { return Refused; }
      r := UploadAll(tag, up, replace);
    }

    predicate UploadRefused(s: Remote, tag: Tag, up: map<Name, Content>, replace: bool) {
      && up != map[]
      && (|| ReleaseOf(s, tag).None?
          || (replace && !Replaceable(tag, up.Keys))
          || (!replace && exists n :: n in up && n in ReleaseOf(s, tag).value.assets))
    }

    /** New commits are prepared unseen; one reference update then switches all the feeds at once. */
    method UpdateFeed(files: map<Channel, Content>) returns (r: Result<Unit>)
      modifies this`budget, this`remote
      ensures !r.Refused? && Spent(old(budget), budget, 5 + 2 * |files|, r)
      ensures remote == old(remote) || remote == old(remote).(feeds := old(remote).feeds + files)
      ensures r.Ok? ==> remote == old(remote).(feeds := old(remote).feeds + files)
    {
      var _ :- Call(); // the branch
      var _ :- Call(); // its tree
      var _ :- Calls(|files|); // one blob for each feed
      var _ :- Call(); // the new tree
      var _ :- Call(); // the new commit
      var _ :- Call(); // the reference
      remote := remote.(feeds := remote.feeds + files);
      var rest := files.Keys;
      while rest != {}
        invariant rest <= files.Keys && remote == old(remote).(feeds := old(remote).feeds + files)
        invariant budget <= old(budget) <= budget + 5 + |files| + (|files.Keys| - |rest|)
        decreases |rest|
      {
        var channel :| channel in rest;
        var seen :- GetFeed(channel);
        assert seen == Some(files[channel]);
        rest := rest - {channel};
      }
      return Ok(Unit);
    }

    method Calls(n: nat) returns (r: Result<Unit>)
      modifies this`budget
      ensures !r.Refused? && Spent(old(budget), budget, n, r)
    {
      for i := 0 to n
        invariant budget <= old(budget) <= budget + i
      {
        var _ :- Call();
      }
      return Ok(Unit);
    }

    /** Creates the release where it is missing. */
    method CreateMissing(o: Order, tag: Tag, release: Option<Release>) returns (r: Result<Unit>)
      requires release == ReleaseOf(remote, tag) && tag in NeededTags(o) && (tag.Version? ==> o.channel == Alpha)
      modifies this`budget, this`remote
      ensures !r.Refused? && Spent(old(budget), budget, 1, r)
      ensures Step(old(remote), remote, o) && OnlyTag(old(remote), remote, tag)
      ensures r.Ok? ==> ReleaseOf(remote, tag).Some?
      ensures r.Ok? && release.None? && tag !in old(remote).entries ==> remote.entries[tag].revision == o.sourceRevision
      ensures remote == old(remote) || remote == WithRelease(old(remote), tag, o.sourceRevision)
      ensures r.Ok? ==> remote == WithRelease(old(remote), tag, o.sourceRevision)
      ensures release.Some? ==> remote == old(remote)
    {
      SameStep(remote, tag, o);
      if release.None? {
        CreateStep(remote, tag, o);
        r := Create(tag, o.sourceRevision);
      } else {
        r := Ok(Unit);
      }
    }

    /** Uploads to a release of the run. */
    method UploadFiles(o: Order, tag: Tag, up: map<Name, Content>) returns (r: Result<Unit>)
      requires ReleaseOf(remote, tag).Some? && tag in NeededTags(o) && UploadAllowed(o, tag, up)
      requires tag.Feed? || forall n :: n in up ==> n !in remote.entries[tag].release.value.assets
      modifies this`budget, this`remote
      ensures !r.Refused? && Spent(old(budget), budget, 1 + 2 * |up|, r)
      ensures Step(old(remote), remote, o) && OnlyTag(old(remote), remote, tag)
      ensures Uploaded(old(remote), remote, tag, up, tag.Feed?, r.Ok?)
    {
      r := Upload(tag, up, tag.Feed?);
      OnlyUploaded(old(remote), remote, tag, up, r.Ok?);
      UploadStep(old(remote), tag, remote.entries[tag].release.value.assets, up, o);
    }

    /** Sets title, notes and the prerelease flag. */
    method Present(o: Order, tag: Tag) returns (r: Result<Unit>)
      requires ReleaseOf(remote, tag).Some? && tag in NeededTags(o) && (tag.Version? ==> o.channel == Stable)
      modifies this`budget, this`remote
      ensures !r.Refused? && Spent(old(budget), budget, 1, r)
      ensures Step(old(remote), remote, o) && OnlyTag(old(remote), remote, tag)
      ensures r.Ok? ==>
        var shown := Shown(o.candidate.version, o.channel == Stable);
        remote == WithEntry(old(remote), tag, WithShown(old(remote).entries[tag], shown))
    {
      SameStep(remote, tag, o);
      PresentStep(remote, tag, o);
      r := SetShown(tag, Shown(o.candidate.version, o.channel == Stable));
    }

    /** Alpha: the version's own release, created if need be and completed, never overwritten. */
    method PublishVersion(o: Order) returns (r: Result<Unit>)
      requires o.channel == Alpha
      modifies this`budget, this`remote
      ensures Spent(old(budget), budget, 6 + 2 * |o.candidate.files|, r)
      ensures Step(old(remote), remote, o)
      ensures r.Refused? ==> !VersionReady(old(remote), o) && remote == Refusal(old(remote), o)
      ensures r.Cut? && !VersionReady(old(remote), o) ==> Refusal(remote, o) == Refusal(old(remote), o)
      ensures r.Ok? ==> VersionReady(old(remote), o) && Complete(remote, o)
    {
      var tag, files := Version(o.candidate.version), o.candidate.files;
      var release :- GetRelease(tag);
      var _ :- CreateMissing(o, tag, release);
      if release.None? {
        release :- GetRelease(tag);
      }
      ghost var s := remote;
      r := CompleteVersion(o, tag, release.value);
      StepTrans(old(remote), s, remote, o);
      if r.Refused? { RefusedAfterCreate(old(remote), remote, o); }
    }

    method CompleteVersion(o: Order, tag: Tag, release: Release) returns (r: Result<Unit>)
      requires o.channel == Alpha && tag == Version(o.candidate.version) && ReleaseOf(remote, tag) == Some(release)
      modifies this`budget, this`remote
      ensures Spent(old(budget), budget, 3 + 2 * |o.candidate.files|, r)
      ensures Step(old(remote), remote, o)
      ensures r.Refused? ==> !VersionReady(old(remote), o) && remote == old(remote)
      ensures r.Refused? ==> remote.entries[tag].revision != o.sourceRevision || release.assets != map[]
      ensures !VersionReady(old(remote), o) ==> remote == old(remote)
      ensures r.Ok? ==> VersionReady(old(remote), o) && Complete(remote, o)
    {
      var files, existing := o.candidate.files, release.assets.Keys;
      SameStep(remote, tag, o);
      var revision :- Revision(tag);
      if revision != o.sourceRevision { return Refused; }
      if !(existing <= files.Keys) { return Refused; }
      var _ :- VerifyRemote(tag, files, existing);
      var missing := files - existing;
      Missing(files, release.assets, missing);
      r := UploadFiles(o, tag, missing);
    }

    /** One channel's mutable release: its feed and installer files, and how it presents itself. */
    method PublishTarget(o: Order, t: Channel) returns (r: Result<Unit>)
      requires Targets(o.channel, t) && ChannelNames(t) <= o.candidate.files.Keys
      modifies this`budget, this`remote
      ensures !r.Refused? && Spent(old(budget), budget, 11, r)
      ensures Step(old(remote), remote, o) && OnlyTag(old(remote), remote, Feed(t))
      ensures r.Ok? ==> Done(remote, o, Feed(t))
    {
      var release :- GetRelease(Feed(t));
      var _ :- CreateMissing(o, Feed(t), release);
      ghost var s := remote;
      r := FillTarget(o, t);
      StepTrans(old(remote), s, remote, o);
    }

    method VerifyAndPresent(o: Order, t: Channel) returns (r: Result<Unit>)
      requires Targets(o.channel, t) && ChannelNames(t) <= o.candidate.files.Keys && ReleaseOf(remote, Feed(t)).Some?
      requires Agrees(o.candidate.files, remote.entries[Feed(t)].release.value.assets, ChannelNames(t))
      modifies this`budget, this`remote
      ensures !r.Refused? && Spent(old(budget), budget, 2, r)
      ensures Step(old(remote), remote, o) && OnlyTag(old(remote), remote, Feed(t))
      ensures r.Ok? ==>
        var shown := Shown(o.candidate.version, o.channel == Stable);
        remote == WithEntry(old(remote), Feed(t), WithShown(old(remote).entries[Feed(t)], shown))
    {
      SameStep(remote, Feed(t), o);
      var _ :- VerifyRemote(Feed(t), o.candidate.files, ChannelNames(t));
      r := Present(o, Feed(t));
    }

    method FillTarget(o: Order, t: Channel) returns (r: Result<Unit>)
      requires Targets(o.channel, t) && ChannelNames(t) <= o.candidate.files.Keys && ReleaseOf(remote, Feed(t)).Some?
      modifies this`budget, this`remote
      ensures !r.Refused? && Spent(old(budget), budget, 9, r)
      ensures Step(old(remote), remote, o) && OnlyTag(old(remote), remote, Feed(t))
      ensures r.Ok? ==> Done(remote, o, Feed(t))
    {
      FewNames(o.candidate, t);
      var _ :- UploadFiles(o, Feed(t), Pick(o.candidate.files, ChannelNames(t)));
      AllPicked(old(remote), remote, o, t);
      ghost var s := remote;
      r := VerifyAndPresent(o, t);
      StepTrans(old(remote), s, remote, o);
      if r.Ok? { TargetDone(old(remote), s, remote, o, t); }
    }

    /** A promotion only checks the version's release. */
    method CheckVersion(o: Order) returns (r: Result<Unit>)
      requires o.channel != Alpha && Core(o.candidate) <= o.candidate.files.Keys
      modifies this`budget
      ensures Spent(old(budget), budget, 3, r)
      ensures r.Refused? ==> !VersionReady(remote, o)
      ensures r.Ok? ==> Complete(remote, o)
    {
      var tag := Version(o.candidate.version);
      var release :- GetRelease(tag);
      if release.None? { return Refused; }
      var revision :- Revision(tag);
      if revision != o.sourceRevision { return Refused; }
      r := VerifyRemote(tag, o.candidate.files, Core(o.candidate));
    }

    /** The prerequisite of a promotion. */
    method CheckPrerequisite(o: Order) returns (r: Result<Unit>)
      modifies this`budget
      ensures Spent(old(budget), budget, 1, r)
      ensures r.Refused? ==> !PrerequisiteMet(remote.feeds, o)
      ensures r.Ok? ==> PrerequisiteMet(remote.feeds, o)
    {
      if o.channel == Alpha { return Ok(Unit); }
      var before, files := Prerequisite(o.channel), o.candidate.files;
      if FeedZip(before) !in files { return Refused; }
      var feed :- GetFeed(before);
      if feed != Some(files[FeedZip(before)]) { return Refused; }
      return Ok(Unit);
    }

    /** The releases of all the channels the run publishes to. */
    method PublishTargets(o: Order) returns (r: Result<Unit>)
      requires forall t: Channel :: Targets(o.channel, t) ==> ChannelNames(t) <= o.candidate.files.Keys
      modifies this`budget, this`remote
      ensures !r.Refused? && Spent(old(budget), budget, 22, r)
      ensures Step(old(remote), remote, o)
      ensures Complete(old(remote), o) ==> Complete(remote, o)
      ensures r.Ok? ==> forall t: Channel :: Targets(o.channel, t) ==> Done(remote, o, Feed(t))
    {
      if o.channel != Stable {
        r := PublishTarget(o, o.channel);
      } else {
        var _ :- PublishTarget(o, Beta);
        ghost var s := remote;
        r := PublishTarget(o, Stable);
        StepTrans(old(remote), s, remote, o);
      }
    }

    /** The stable release also presents the version itself. */
    method PresentVersion(o: Order) returns (r: Result<Unit>)
      requires Complete(remote, o)
      requires forall t: Channel :: Targets(o.channel, t) ==> Done(remote, o, Feed(t))
      modifies this`budget, this`remote
      ensures !r.Refused? && Spent(old(budget), budget, 1, r)
      ensures Step(old(remote), remote, o)
      ensures r.Ok? ==> AllDone(remote, o)
    {
      var tag := Version(o.candidate.version);
      SameStep(remote, tag, o);
      if o.channel == Stable {
        r := Present(o, tag);
      } else {
        r := Ok(Unit);
        var release := ReleaseOf(remote, tag).value;
        assert o.channel == Alpha ==> release.assets + o.candidate.files == release.assets;
      }
    }

    /** The version's release: completed on alpha, only checked for a promotion. */
    method SettleVersion(o: Order) returns (r: Result<Unit>)
      requires Core(o.candidate) <= o.candidate.files.Keys
      modifies this`budget, this`remote
      ensures Spent(old(budget), budget, 7 + 2 * |o.candidate.files|, r)
      ensures Step(old(remote), remote, o)
      ensures r.Refused? ==> !VersionReady(old(remote), o) && remote == Refusal(old(remote), o)
      ensures r.Cut? && !VersionReady(old(remote), o) ==> Refusal(remote, o) == Refusal(old(remote), o)
      ensures r.Ok? ==> VersionReady(old(remote), o) && Complete(remote, o)
    {
      SameStep(remote, Version(o.candidate.version), o);
      if o.channel == Alpha {
        var _ :- PublishVersion(o);
        r := VerifyRemote(Version(o.candidate.version), o.candidate.files, o.candidate.files.Keys);
      } else {
        r := CheckVersion(o);
      }
    }

    /** Everything before the feeds are switched. */
    method PublishReleases(o: Order) returns (r: Result<Unit>)
      requires Proper(o) && Allowed(o, repository) && PrerequisiteMet(remote.feeds, o)
      modifies this`budget, this`remote
      ensures Spent(old(budget), budget, 30 + 2 * |o.candidate.files|, r)
      ensures Step(old(remote), remote, o)
      ensures r.Refused? ==> !VersionReady(old(remote), o) && remote == Refusal(old(remote), o)
      ensures r.Cut? && !VersionReady(old(remote), o) ==> Refusal(remote, o) == Refusal(old(remote), o)
      ensures r.Ok? ==> VersionReady(old(remote), o) && AllDone(remote, o)
    {
      TargetFiles(o, remote.feeds);
      var _ :- SettleVersion(o);
      ghost var s := remote;
      var targets := PublishTargets(o);
      StepTrans(old(remote), s, remote, o);
      var _ :- targets;
      ghost var t := remote;
      r := PresentVersion(o);
      StepTrans(old(remote), t, remote, o);
    }

    /** A whole publication: it succeeds exactly from the states that are ready for it and then
        leaves the final state; a refused run leaves everything as it was, but for an empty release
        exactly when `Strays` says so; a run that is cut leaves a state from which the same final
        state is reached; and no run does more than its effect allows. */
    method Publish(o: Order) returns (r: Result<Unit>)
      requires Proper(o)
      modifies this`budget, this`remote
      ensures Spent(old(budget), budget, 40 + 2 * |o.candidate.files|, r)
      ensures r.Ok? ==> Ready(old(remote), o, repository) && remote == Final(old(remote), o)
      ensures r.Refused? ==> !Ready(old(remote), o, repository)
      ensures r.Refused? ==> remote == if Allowed(o, repository) then Refusal(old(remote), o) else old(remote)
      ensures r.Refused? ==> (remote == old(remote) <==> !(Allowed(o, repository) && Strays(old(remote), o)))
      ensures r.Cut? && Ready(old(remote), o, repository) ==>
        Ready(remote, o, repository) && Final(remote, o) == Final(old(remote), o)
      ensures !r.Cut? ==> remote == EndState(old(remote), o, repository)
      ensures r.Cut? ==> (Ready(remote, o, repository) <==> Ready(old(remote), o, repository))
      ensures r.Cut? ==> EndState(remote, o, repository) == EndState(old(remote), o, repository)
      ensures Effect(old(remote), remote, o, repository)
    {
      SameStep(remote, Version(o.candidate.version), o);
      if !o.accepted || !Identified(o, repository) { return Refused; }
      var _ :- CheckPrerequisite(o);
      var _ :- PublishReleases(o);
      ghost var s := remote;
      SwitchIsFinal(s, o, repository);
      FewFeeds(o);
      r := UpdateFeed(NewFeeds(o));
      KeepsTrans(old(remote), s, remote);
    }
  }
}
