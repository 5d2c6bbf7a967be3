/** The first validation of a candidate, which records the verdict beside the files it is about. */
module ReceiptWriting {
  import opened Options
  import opened Releases
  import opened CandidateFiles
  import opened Distribution
  import opened Promotion

  /** The directory with the verdict in it. */
  ghost predicate VerdictAdded(dir: Directory, after: Directory, v: Validated) {
    && after.Keys == dir.Keys + {VALIDATED_FILE} && after[VALIDATED_FILE] == ValidatedFile(v)
    && forall n :: n in dir && n != VALIDATED_FILE ==> after[n] == dir[n]
  }

  lemma {:induction false} VerdictListable()
    ensures Listable(VALIDATED_FILE) && VALIDATED_FILE != SUMS
  {
    assert NameChars(VALIDATED_FILE) && |VALIDATED_FILE| > 2;
    NameIsListable(VALIDATED_FILE);
    OtherMarks();
  }

  lemma {:induction false} NotJudged(dir: Directory, r: Receipt, tools: Tools)
    requires PayloadOk(dir, tools, r)
    ensures VALIDATED_FILE !in Judgeable(r)
  {
    OtherMarks();
    ArchiveMark(r);
    assert VALIDATED_FILE[0] == 'v' && RECEIPT_FILE[0] == 'r';
    forall i | 0 <= i < |r.files| ensures r.files[i].asset != VALIDATED_FILE {
      assert r.files[i] in r.files && EntryOk(dir, tools, r.files[i]);
      AssetMark(r.files[i].path);
    }
  }

  lemma {:induction false} NotVerdictName(ch: Channel)
    ensures DbName(ch) != VALIDATED_FILE && ZipName(ch) != VALIDATED_FILE && InstallerName(ch) != VALIDATED_FILE
  {
    ChannelMarks(ch);
    OtherMarks();
  }

  lemma {:induction false} FeedStays(dir: Directory, after: Directory, v: Validated, ch: Channel, r: Receipt,
                                     repository: string, beyond: char -> bool)
    requires FitsIfPresent(dir, ch, r, repository, beyond) && VerdictAdded(dir, after, v)
    ensures FitsIfPresent(after, ch, r, repository, beyond)
    ensures DbName(ch) in after <==> DbName(ch) in dir
  {
    NotVerdictName(ch);
  }

  lemma {:induction false} NamesStay(dir: Directory, after: Directory, v: Validated, r: Receipt)
    requires (forall n :: n in dir ==> AllowedName(n, dir, r)) && VerdictAdded(dir, after, v)
    ensures forall n :: n in after ==> AllowedName(n, after, r)
  {
    forall n | n in after ensures AllowedName(n, after, r) {
      if n != VALIDATED_FILE { NameSurvives(n, dir, after, r); }
    }
  }

  lemma {:induction false} StaysListable(dir: Directory, after: Directory, tools: Tools, v: Validated)
    requires ChecksumsMatch(dir, tools) && VerdictAdded(dir, after, v)
    ensures AllListable(after)
  {
    VerdictListable();
    forall n | n in after && n != SUMS ensures Listable(n) {
      if n != VALIDATED_FILE { MatchedListable(dir, tools, n); }
    }
  }

  lemma {:induction false} FeedsStay(dir: Directory, after: Directory, v: Validated, r: Receipt, repository: string,
                                     beyond: char -> bool)
    requires FeedsFit(dir, r, repository, beyond) && VerdictAdded(dir, after, v)
    ensures FeedsFit(after, r, repository, beyond)
  {
    FeedStays(dir, after, v, Alpha, r, repository, beyond);
    FeedStays(dir, after, v, Beta, r, repository, beyond);
    FeedStays(dir, after, v, Stable, r, repository, beyond);
  }

  lemma {:induction false} SoundOnceRecorded(dir: Directory, after: Directory, r: Receipt, tools: Tools, v: Validated)
    requires Verdict(dir, r, tools, v) && VerdictAdded(dir, after, v)
    ensures Sound(after, r, tools, v)
  {
    NotJudged(dir, r, tools);
    VerdictStays(dir, after, r, tools, v);
  }

  /** Recording the verdict makes the directory tidy. */
  lemma {:induction false} RecordedIsTidy(dir: Directory, after: Directory, channel: Channel, r: Receipt, tools: Tools,
                                          v: Validated)
    requires Judges(dir, channel, tools, v) && r == dir[RECEIPT_FILE].receipt && VerdictAdded(dir, after, v)
    ensures Tidy(after, r, tools, v) && DbName(channel) in after
  {
    SoundOnceRecorded(dir, after, r, tools, v);
    FeedsStay(dir, after, v, r, v.repository, tools.beyond);
    NamesStay(dir, after, v, r);
    StaysListable(dir, after, tools, v);
  }

  method AddVerdict(dir: Directory, v: Validated) returns (after: Directory)
    ensures VerdictAdded(dir, after, v)
  {
    after := dir[VALIDATED_FILE := ValidatedFile(v)];
  }

  ghost predicate OnlyRecorded(dir: Directory, after: Directory) {
    forall n :: n != SUMS && n != VALIDATED_FILE ==> (n in dir <==> n in after) && (n in dir ==> after[n] == dir[n])
  }

  method ListFiles(dir: Directory, channel: Channel, ghost r: Receipt, tools: Tools, ghost v: Validated)
    returns (after: Directory)
    requires GoodTools(tools) && Tidy(dir, r, tools, v) && DbName(channel) in dir
    ensures Accepts(after, channel, tools, v)
    ensures after.Keys == dir.Keys + {SUMS} && forall n :: n in dir && n != SUMS ==> after[n] == dir[n]
  {
    after := WriteChecksums(dir, tools);
    ListedIsAccepted(dir, after, channel, r, tools, v);
  }

  lemma {:induction false} OnlyTwoFiles(dir: Directory, recorded: Directory, after: Directory, v: Validated)
    requires VerdictAdded(dir, recorded, v)
    requires after.Keys == recorded.Keys + {SUMS} && forall n :: n in recorded && n != SUMS ==> after[n] == recorded[n]
    ensures OnlyRecorded(dir, after)
  {
  }

  /** Records the verdict and lists the files anew. */
  method Record(dir: Directory, channel: Channel, tools: Tools, v: Validated) returns (after: Directory)
    requires GoodTools(tools) && Judges(dir, channel, tools, v)
    ensures Accepts(after, channel, tools, v) && OnlyRecorded(dir, after)
  {
    ghost var r := dir[RECEIPT_FILE].receipt;
    var recorded := AddVerdict(dir, v);
    RecordedIsTidy(dir, recorded, channel, r, tools, v);
    after := ListFiles(recorded, channel, r, tools, v);
    OnlyTwoFiles(dir, recorded, after, v);
  }

  /** When validation may succeed: the candidate is judged fit, and the record, if there is one, is
      that judgement; a missing record needs leave to be written. */
  ghost predicate Validates(dir: Directory, channel: Channel, tools: Tools, write: bool, v: Validated) {
    Judges(dir, channel, tools, v) && if VALIDATED_FILE in dir then Recorded(dir, v) else write
  }

  /** Without leave to write, validation is verification; with it, it also accepts a directory that is
      judged fit and has no record yet. */
  lemma {:induction false} ValidatesExactly(dir: Directory, channel: Channel, tools: Tools, v: Validated)
    ensures Validates(dir, channel, tools, false, v) <==> Accepts(dir, channel, tools, v)
    ensures Validates(dir, channel, tools, true, v)
      <==> Accepts(dir, channel, tools, v) || (Judges(dir, channel, tools, v) && "validated-candidate.json" !in dir)
  {
  }

  lemma {:induction false} OnlyJudgement(dir: Directory, channel: Channel, tools: Tools, write: bool, v: Validated)
    requires forall x :: Judges(dir, channel, tools, x) ==> x == v
    requires if VALIDATED_FILE in dir then !Recorded(dir, v) else !write
    ensures forall x :: !Validates(dir, channel, tools, write, x)
  {
  }

  /** Validation as it is called, with or without leave to record the verdict. After a success plain
      verification accepts, with the same verdict. */
  method Validate(dir: Directory, channel: Channel, tools: Tools, write: bool)
    returns (v: Option<Validated>, after: Directory)
    requires GoodTools(tools)
    ensures v.Some? ==> Validates(dir, channel, tools, write, v.value) && Accepts(after, channel, tools, v.value)
    ensures v.None? ==> forall x :: !Validates(dir, channel, tools, write, x)
    ensures v.None? || VALIDATED_FILE in dir ==> after == dir
    ensures OnlyRecorded(dir, after)
  {
    after := dir;
    v := Judge(dir, channel, tools);
    if v.None? { return; }
    var accepted := if VALIDATED_FILE in dir then Recorded(dir, v.value) else write;
    if !accepted {
      OnlyJudgement(dir, channel, tools, write, v.value);
      v := None;
    } else if VALIDATED_FILE !in dir {
      after := Record(dir, channel, tools, v.value);
    }
  }
}
