/** When the gate accepts a container that the builder wrote, and what it reads from it. */
module BuiltMetadata {
  import opened Bytes
  import opened Sorting
  import opened CompactMetadata
  import opened MetadataBuilder

  // ---------------------------------------------------------------- the order of ids

  lemma {:induction false} LessIrreflexive(a: seq<byte>)
    ensures !Less(a, a)
  {
    if a != [] { LessIrreflexive(a[1..]); }
  }

  lemma {:induction false} LessTotal(a: seq<byte>, b: seq<byte>)
    ensures a == b || Less(a, b) || Less(b, a)
    ensures !(Less(a, b) && Less(b, a))
  {
    if a != [] && b != [] {
      LessTotal(a[1..], b[1..]);
      if a[0] == b[0] && a[1..] == b[1..] {
        assert a == [a[0]] + a[1..] && b == [b[0]] + b[1..];
      }
    }
  }

  lemma {:induction false} AllZeroTail(s: seq<byte>)
    requires s != []
    ensures AllZero(s) <==> s[0] == 0 && AllZero(s[1..])
  {
    if s[0] == 0 && AllZero(s[1..]) {
      forall i | 0 <= i < |s| ensures s[i] == 0 {
        if i > 0 { assert s[i] == s[1..][i - 1]; }
      }
    }
  }

  lemma {:induction false} ZerosAreOne(a: seq<byte>, b: seq<byte>)
    requires |a| == |b| && AllZero(a) && AllZero(b)
    ensures a == b
  {
  }

  /** Nothing follows the first zero of the field. */
  predicate Tidy(field: seq<byte>) {
    AllZero(field[|UntilZero(field)|..])
  }

  lemma {:induction false} TidyTail(field: seq<byte>)
    requires field != [] && field[0] != 0
    ensures Tidy(field) <==> Tidy(field[1..])
    ensures UntilZero(field) == [field[0]] + UntilZero(field[1..])
  {
    assert field[|UntilZero(field)|..] == field[1..][|UntilZero(field[1..])|..];
  }

  /** Fields are ordered as the ids in them. */
  lemma {:induction false} FieldOrder(a: seq<byte>, b: seq<byte>)
    requires |a| == |b| && Tidy(a) && Tidy(b)
    ensures Less(UntilZero(a), UntilZero(b)) <==> Less(a, b)
  {
    if a == [] {
    } else if a[0] == 0 || b[0] == 0 {
      if a[0] == 0 && b[0] == 0 {
        ZerosAreOne(a, b);
        LessIrreflexive(a);
      }
    } else {
      TidyTail(a);
      TidyTail(b);
      FieldOrder(a[1..], b[1..]);
    }
  }

  // ---------------------------------------------------------------- numbers and header

  lemma {:induction false} NumberAt(data: seq<byte>, lo: nat, width: nat, n: nat)
    requires At(data, lo, Encoded(n, width))
    ensures Number(data, lo, lo + width) == n % Bound(width)
  {
    EncodedReadsBack(n, width);
    assert Slice(data, lo, lo + width) == data[lo..lo + width];
  }

  lemma {:induction false} PieceAt(data: seq<byte>, lo: nat, hi: nat, piece: seq<byte>)
    requires At(data, lo, piece) && hi == lo + |piece|
    ensures Slice(data, lo, hi) == piece
  {
  }

  /** The bytes between two places hold this number. */
  lemma {:induction false} NumberIs(data: seq<byte>, lo: nat, width: nat, n: nat)
    requires At(data, lo, Encoded(n, width)) && n < Bound(width)
    ensures Number(data, lo, lo + width) == n
  {
    NumberAt(data, lo, width, n);
    Small(n, Bound(width));
  }

  lemma {:induction false} Small(n: nat, b: nat)
    requires n < b
    ensures n % b == n
  {
  }

  predicate Numbers(data: seq<byte>, length: nat, count: nat) {
    && Number(data, 8, 12) == 1 && Number(data, 16, 24) == length && Number(data, 24, 28) == count
    && Number(data, 28, 36) == 96 && Number(data, 36, 40) == 128 && Number(data, 40, 44) == 128 * count
  }

  lemma {:induction false} NumbersIn(data: seq<byte>, length: nat, count: nat, four: nat, eight: nat)
    requires four == 4 && eight == 8 && length < U32 && 128 * count < U32
    requires At(data, 8, Encoded(1, four)) && At(data, 16, Encoded(length, eight)) && At(data, 24, Encoded(count, four))
    requires At(data, 28, Encoded(96, eight)) && At(data, 36, Encoded(128, four))
    requires At(data, 40, Encoded(128 * count, four))
    ensures Numbers(data, length, count)
  {
    Bounds();
    NumberIs(data, 8, four, 1);
    NumberIs(data, 16, eight, length);
    NumberIs(data, 24, four, count);
    NumberIs(data, 28, eight, 96);
    NumberIs(data, 36, four, 128);
    NumberIs(data, 40, four, 128 * count);
  }

  lemma {:induction false} ZeroEncoded(width: nat)
    ensures AllZero(Encoded(0, width))
  {
    if width > 0 {
      ZeroEncoded(width - 1);
      AllZeroTail(Encoded(0, width));
    }
  }

  lemma {:induction false} OtherPieces(data: seq<byte>, digest: seq<byte>)
    requires At(data, 12, Encoded(0, 4)) && At(data, 44, digest) && At(data, 76, CompactZeros(20)) && |digest| == 32
    ensures AllZero(Slice(data, 12, 16)) && AllZero(Slice(data, 76, 96)) && Slice(data, 44, 76) == digest
  {
    ZeroEncoded(4);
    PieceAt(data, 12, 16, Encoded(0, 4));
    PieceAt(data, 76, 96, CompactZeros(20));
    PieceAt(data, 44, 76, digest);
  }

  lemma {:induction false} GoodHeader(data: seq<byte>, count: nat, sha256: seq<byte> -> seq<byte>)
    requires Numbers(data, |data|, count) && 96 + 128 * count <= |data| <= MAX_SIZE
    requires AllZero(Slice(data, 12, 16)) && AllZero(Slice(data, 76, 96))
    requires Slice(data, 44, 76) == sha256(data[96..96 + 128 * count])
    ensures HeaderOk(data, sha256) && ShardCount(data) == count
  {
  }

  lemma {:induction false} BuiltHeader(data: seq<byte>, count: nat, sha256: seq<byte> -> seq<byte>, digest: seq<byte>)
    requires 96 + 128 * count <= |data| <= MAX_SIZE && digest == sha256(data[96..96 + 128 * count]) && |digest| == 32
    requires HeaderFor(data, |data|, count, digest)
    ensures HeaderOk(data, sha256) && ShardCount(data) == count
  {
    NumbersIn(data, |data|, count, 4, 8);
    OtherPieces(data, digest);
    GoodHeader(data, count, sha256);
  }

  lemma {:induction false} EntriesAt(data: seq<byte>, rows: seq<Entry>)
    requires RowsAt(data, rows, 96) && ShardCount(data) == |rows| && 96 + 128 * |rows| <= |data|
    ensures IndexEnd(data) == 96 + 128 * |rows| && Entries(data) == rows
  {
    forall k | 0 <= k < |rows|
      ensures data[INDEX_OFFSET + k * ENTRY_SIZE..INDEX_OFFSET + (k + 1) * ENTRY_SIZE] == rows[k]
    {
      assert At(data, 96 + 128 * k, rows[k]);
    }
  }

  // ---------------------------------------------------------------- one entry

  /** An id that the gate reads as it was written: no zero byte but at its end. */
  predicate Readable(id: seq<byte>) {
    id != [] && id[0] != 0 && forall i, j :: 0 <= i < j < |id| && id[i] == 0 ==> id[j] == 0
  }

  lemma {:induction false} ReadableExactly(id: seq<byte>)
    requires 1 <= |id| <= 32
    ensures Readable(id) <==> UntilZero(Padded(id)) != [] && Tidy(Padded(id))
  {
    var field, t := Padded(id), UntilZero(Padded(id));
    if t != [] && Tidy(field) {
      assert field[0] == t[0] && id[0] == field[0];
      forall i, j | 0 <= i < j < |id| && id[i] == 0 ensures id[j] == 0 {
        assert field[i] == 0 && i >= |t|;
        assert field[j] == field[|t|..][j - |t|];
      }
    }
    if Readable(id) {
      assert field[0] != 0;
      forall i | 0 <= i < |field[|t|..]| ensures field[|t|..][i] == 0 {
        assert field[|t|] == 0;
        assert field[|t|..][i] == field[|t| + i];
      }
    }
  }

  /** A length that the gate reads from a row: what four bytes hold. */
  predicate FitsShard(raw: seq<byte>) {
    0 < |raw| % U32 <= 16 * 1024 * 1024
  }

  lemma {:induction false} RowNumbers(row: Entry, s: Shard, offset: nat, length: nat, digest: seq<byte>)
    requires |s.id| <= 32 && RowFor(row, s, offset, length, digest) && offset < U32 && length < U32
    ensures Number(row, 40, 48) == offset && Number(row, 48, 52) == length && Number(row, 52, 56) == |s.raw| % U32
  {
    Bounds();
    NumberIs(row, 40, 8, offset);
    NumberIs(row, 48, 4, length);
    NumberAt(row, 52, 4, |s.raw|);
  }

  lemma {:induction false} AsciiId(id: seq<byte>)
    requires |id| <= 32 && forall i :: 0 <= i < |id| ==> id[i] < 128
    ensures forall i :: 0 <= i < |UntilZero(Padded(id))| ==> UntilZero(Padded(id))[i] < 128
  {
    var field, t := Padded(id), UntilZero(Padded(id));
    forall i | 0 <= i < |t| ensures t[i] < 128 { assert t[i] == field[i]; }
  }

  /** The gate accepts a row exactly when its id is readable and its shard has a length it allows. */
  lemma {:induction false} BuiltRow(row: Entry, s: Shard, offset: nat, length: nat, digest: seq<byte>, indexEnd: nat,
                                    size: nat)
    requires Takes(s) && RowFor(row, s, offset, length, digest)
    requires indexEnd <= offset && offset + length <= size < U32 && 4 <= length <= MAX_SHARD
    ensures EntryOk(row, indexEnd, size) <==> Readable(s.id) && FitsShard(s.raw)
    ensures ShardId(row) == UntilZero(Padded(s.id)) && ShardRange(row) == Range(offset, offset + length)
  {
    RowNumbers(row, s, offset, length, digest);
    ReadableExactly(s.id);
    AsciiId(s.id);
    assert Padded(s.id)[|ShardId(row)|..] == row[|ShardId(row)|..32];
  }

  // ---------------------------------------------------------------- all entries

  lemma {:induction false} StartsGrow(shards: seq<Shard>, codec: Codec, i: nat, j: nat)
    requires i <= j <= |shards|
    ensures StartOf(shards, codec, i) <= StartOf(shards, codec, j)
    decreases j
  {
    if i < j {
      StartsGrow(shards, codec, i, j - 1);
      NextStart(shards, codec, j - 1);
    }
  }

  lemma {:induction false} BuiltEntry(rows: seq<Entry>, shards: seq<Shard>, codec: Codec, k: nat)
    requires k < |rows| == |shards| && AllFit(shards) && GoodCodec(codec) && RowsOf(rows, shards, codec)
    requires Takes(shards[k]) && AllPack(shards, codec, |shards|) && StartOf(shards, codec, |shards|) <= MAX_SIZE
    ensures EntryOk(rows[k], 96 + 128 * |shards|, StartOf(shards, codec, |shards|))
      <==> Readable(shards[k].id) && FitsShard(shards[k].raw)
    ensures ShardId(rows[k]) == UntilZero(Padded(shards[k].id))
    ensures ShardRange(rows[k]) == Range(StartOf(shards, codec, k), StartOf(shards, codec, k + 1))
  {
    NextStart(shards, codec, k);
    StartsGrow(shards, codec, k + 1, |shards|);
    var length := |codec.compress(shards[k].raw)|;
    assert RowOf(rows[k], shards, codec, k);
    BuiltRow(rows[k], shards[k], StartOf(shards, codec, k), length, codec.sha256(shards[k].raw), 96 + 128 * |shards|,
      StartOf(shards, codec, |shards|));
  }

  /** No two shards have the same name once their ids fill their fields. */
  predicate OtherName(a: Shard, b: Shard) {
    FieldOf(a) != FieldOf(b)
  }

  lemma {:induction false} NamesInOrder(a: Shard, b: Shard)
    requires Takes(a) && Takes(b) && Readable(a.id) && Readable(b.id) && ById(a, b)
    ensures Less(UntilZero(Padded(a.id)), UntilZero(Padded(b.id))) <==> OtherName(a, b)
  {
    ReadableExactly(a.id);
    ReadableExactly(b.id);
    FieldOrder(Padded(a.id), Padded(b.id));
    LessTotal(Padded(a.id), Padded(b.id));
    LessIrreflexive(Padded(a.id));
  }

  ghost predicate ReadOne(row: Entry, shards: seq<Shard>, codec: Codec, k: nat)
    requires k < |shards| && AllFit(shards)
  {
    && ShardId(row) == UntilZero(Padded(shards[k].id))
    && ShardRange(row) == Range(StartOf(shards, codec, k), StartOf(shards, codec, k + 1))
  }

  /** Every row is read as the id and the place of its shard. */
  ghost predicate ReadAs(rows: seq<Entry>, shards: seq<Shard>, codec: Codec)
    requires |rows| == |shards| && AllFit(shards)
  {
    forall k :: 0 <= k < |rows| ==> ReadOne(rows[k], shards, codec, k)
  }

  ghost predicate AllReadable(shards: seq<Shard>) {
    forall k :: 0 <= k < |shards| ==> Readable(shards[k].id) && FitsShard(shards[k].raw)
  }

  ghost predicate AllTaken(shards: seq<Shard>) {
    forall k :: 0 <= k < |shards| ==> Takes(shards[k])
  }

  ghost predicate EachOk(rows: seq<Entry>, indexEnd: nat, size: nat) {
    forall k :: 0 <= k < |rows| ==> EntryOk(rows[k], indexEnd, size)
  }

  lemma {:induction false} EntriesRead(rows: seq<Entry>, shards: seq<Shard>, codec: Codec)
    requires |rows| == |shards| && AllFit(shards) && GoodCodec(codec) && RowsOf(rows, shards, codec)
    requires AllTaken(shards) && AllPack(shards, codec, |shards|) && StartOf(shards, codec, |shards|) <= MAX_SIZE
    ensures ReadAs(rows, shards, codec)
    ensures EachOk(rows, 96 + 128 * |shards|, StartOf(shards, codec, |shards|)) <==> AllReadable(shards)
  {
    forall k | 0 <= k < |rows|
      ensures EntryOk(rows[k], 96 + 128 * |shards|, StartOf(shards, codec, |shards|))
        <==> Readable(shards[k].id) && FitsShard(shards[k].raw)
      ensures ReadOne(rows[k], shards, codec, k)
    {
      BuiltEntry(rows, shards, codec, k);
    }
  }

  lemma {:induction false} BuiltOrder(rows: seq<Entry>, shards: seq<Shard>, codec: Codec)
    requires |rows| == |shards| && AllFit(shards) && SortedBy(ById, shards)
    requires AllTaken(shards) && AllReadable(shards) && ReadAs(rows, shards, codec)
    ensures Pairwise(Less, Ids(rows)) <==> Pairwise(OtherName, shards)
  {
    forall i, j | 0 <= i < j < |rows| ensures Less(Ids(rows)[i], Ids(rows)[j]) <==> OtherName(shards[i], shards[j]) {
      assert ReadOne(rows[i], shards, codec, i) && ReadOne(rows[j], shards, codec, j);
      NamesInOrder(shards[i], shards[j]);
    }
  }

  lemma {:induction false} TwoApart(rows: seq<Entry>, shards: seq<Shard>, codec: Codec, i: nat, j: nat)
    requires i < j < |rows| == |shards| && AllFit(shards) && ReadAs(rows, shards, codec)
    ensures Disjoint(ShardRange(rows[i]), ShardRange(rows[j]))
  {
    StartsGrow(shards, codec, i + 1, j);
    assert ReadOne(rows[i], shards, codec, i) && ReadOne(rows[j], shards, codec, j);
  }

  lemma {:induction false} BuiltDisjoint(rows: seq<Entry>, shards: seq<Shard>, codec: Codec)
    requires |rows| == |shards| && AllFit(shards) && ReadAs(rows, shards, codec)
    ensures Pairwise(Disjoint, Shards(rows))
  {
    var ranges := Shards(rows);
    forall i, j | 0 <= i < j < |ranges| ensures Disjoint(ranges[i], ranges[j]) {
      TwoApart(rows, shards, codec, i, j);
    }
  }

  // ---------------------------------------------------------------- the gate reads the builder

  lemma {:induction false} RowsAccepted(rows: seq<Entry>, shards: seq<Shard>, codec: Codec, indexEnd: nat, size: nat)
    requires |rows| == |shards| && AllFit(shards) && GoodCodec(codec) && RowsOf(rows, shards, codec)
    requires AllTaken(shards) && AllPack(shards, codec, |shards|) && SortedBy(ById, shards)
    requires indexEnd == 96 + 128 * |shards| && size == StartOf(shards, codec, |shards|) <= MAX_SIZE
    ensures EntriesOk(rows, indexEnd, size) <==> AllReadable(shards) && Pairwise(OtherName, shards)
    ensures Pairwise(Disjoint, Shards(rows))
  {
    EntriesRead(rows, shards, codec);
    BuiltDisjoint(rows, shards, codec);
    if AllReadable(shards) { BuiltOrder(rows, shards, codec); }
    assert EntriesOk(rows, indexEnd, size) <==> EachOk(rows, indexEnd, size) && Pairwise(Less, Ids(rows));
  }

  lemma {:induction false} TableRead(data: seq<byte>, rows: seq<Entry>, payloads: seq<byte>,
                                     sha256: seq<byte> -> seq<byte>, digest: seq<byte>)
    requires LaidOut(data, rows, payloads, sha256) && |data| <= MAX_SIZE
    requires digest == sha256(data[96..96 + 128 * |rows|]) && |digest| == 32
    ensures HeaderOk(data, sha256) && IndexEnd(data) == 96 + 128 * |rows| <= |data| && Entries(data) == rows
  {
    BuiltHeader(data, |rows|, sha256, digest);
    EntriesAt(data, rows);
  }

  lemma {:induction false} SizeOf(data: seq<byte>, rows: seq<Entry>, shards: seq<Shard>, codec: Codec)
    requires AllFit(shards) && ContainerFor(data, rows, shards, codec)
    ensures |data| == StartOf(shards, codec, |shards|)
  {
    assert shards[..|shards|] == shards;
  }

  lemma {:induction false} EntriesAreRows(data: seq<byte>, rows: seq<Entry>, shards: seq<Shard>, codec: Codec,
                                          payloads: seq<byte>)
    requires |rows| == |shards| && GoodCodec(codec) && |data| <= MAX_SIZE
    requires LaidOut(data, rows, payloads, codec.sha256)
    ensures HeaderOk(data, codec.sha256) && IndexEnd(data) == 96 + 128 * |shards| <= |data| && Entries(data) == rows
  {
    TableRead(data, rows, payloads, codec.sha256, codec.sha256(data[96..96 + 128 * |rows|]));
  }

  /** The gate accepts what was written exactly when it is not too long, every id is readable, every
      shard has a length that is allowed, and no two shards share a name. */
  lemma {:induction false} SortedAccepted(data: seq<byte>, rows: seq<Entry>, shards: seq<Shard>, codec: Codec)
    requires AllTaken(shards) && AllFit(shards) && GoodCodec(codec) && SortedBy(ById, shards)
    requires AllPack(shards, codec, |shards|) && ContainerFor(data, rows, shards, codec)
    ensures WellFormed(data, codec.sha256) <==>
      |data| <= 8 * 1024 * 1024 && AllReadable(shards) && Pairwise(OtherName, shards)
  {
    if |data| <= MAX_SIZE {
      EntriesAreRows(data, rows, shards, codec, Payloads(shards, codec));
      SizeOf(data, rows, shards, codec);
      RowsAccepted(rows, shards, codec, IndexEnd(data), |data|);
    }
  }

  lemma {:induction false} NotLessTransitive(a: seq<byte>, b: seq<byte>, c: seq<byte>)
    requires !Less(b, a) && !Less(c, b)
    ensures !Less(c, a)
  {
    LessTotal(a, b);
    LessTotal(b, c);
    LessTotal(a, c);
    if Less(a, b) && Less(b, c) { LessTransitive(a, b, c); }
  }

  lemma {:induction false} IdOrder()
    ensures TotalPreorder(ById)
  {
    forall a, b ensures ById(a, b) || ById(b, a) { LessTotal(FieldOf(a), FieldOf(b)); }
    forall a, b, c | ById(a, b) && ById(b, c) ensures ById(a, c) {
      NotLessTransitive(FieldOf(a), FieldOf(b), FieldOf(c));
    }
  }

  lemma {:induction false} SameConditions(shards: seq<Shard>, codec: Codec)
    ensures var sorted := Sort(ById, shards);
      && SortedBy(ById, sorted)
      && (AllTaken(shards) <==> AllTaken(sorted)) && (AllReadable(shards) <==> AllReadable(sorted))
      && (AllPack(shards, codec, |shards|) <==> AllPack(sorted, codec, |sorted|))
      && (Pairwise(OtherName, shards) <==> Pairwise(OtherName, sorted))
  {
    var sorted := Sort(ById, shards);
    IdOrder();
    SortSorts(ById, shards);
    SortMembers(ById, shards);
    SameMembers(shards, sorted, codec);
    SameMembers(sorted, shards, codec);
    if Pairwise(OtherName, shards) { PairwiseTransfers(OtherName, shards, sorted); }
    if Pairwise(OtherName, sorted) { PairwiseTransfers(OtherName, sorted, shards); }
  }

  lemma {:induction false} SameMembers(a: seq<Shard>, b: seq<Shard>, codec: Codec)
    requires forall s :: s in a <==> s in b
    ensures AllTaken(a) ==> AllTaken(b)
    ensures AllReadable(a) ==> AllReadable(b)
    ensures AllPack(a, codec, |a|) ==> AllPack(b, codec, |b|)
  {
    forall k | 0 <= k < |b| ensures exists i :: 0 <= i < |a| && a[i] == b[k] { assert b[k] in a; }
  }

  /** Of what the builder encodes, the gate accepts exactly the containers of at most 8 MiB whose ids
      have no zero byte but at their ends and differ without them, and whose shards are neither empty
      nor longer than 16 MiB (as far as 32 bits can tell). */
  lemma {:induction false} GateAcceptsBuilt(data: seq<byte>, rows: seq<Entry>, shards: seq<Shard>, codec: Codec)
    requires AllTaken(shards) && GoodCodec(codec) && AllPack(shards, codec, |shards|)
    requires AllFit(Sort(ById, shards)) && ContainerFor(data, rows, Sort(ById, shards), codec)
    ensures WellFormed(data, codec.sha256) <==>
      |data| <= 8 * 1024 * 1024 && AllReadable(shards) && Pairwise(OtherName, shards)
  {
    SameConditions(shards, codec);
    SortedAccepted(data, rows, Sort(ById, shards), codec);
  }

  lemma {:induction false} PayloadsPrefix(shards: seq<Shard>, codec: Codec, k: nat, n: nat)
    requires k <= n <= |shards|
    ensures Payloads(shards[..k], codec) <= Payloads(shards[..n], codec)
    decreases n
  {
    if k < n {
      PayloadsPrefix(shards, codec, k, n - 1);
      NextStart(shards, codec, n - 1);
    }
  }

  lemma {:induction false} PartAt(s: seq<byte>, at: nat, piece: seq<byte>, from: nat, to: nat)
    requires At(s, at, piece) && from <= to <= |piece|
    ensures s[at + from..at + to] == piece[from..to]
  {
    var part := s[at + from..at + to];
    forall i | 0 <= i < |part| ensures part[i] == piece[from..to][i] {
      assert part[i] == s[at + from + i] == s[at..at + |piece|][from + i];
    }
  }

  lemma {:induction false} PartOfPrefix(a: seq<byte>, b: seq<byte>, all: seq<byte>)
    requires a + b <= all
    ensures all[|a|..|a| + |b|] == b
  {
    assert all[|a|..|a| + |b|] == all[..|a + b|][|a|..];
  }

  /** At that place are the compressed bytes of the shard. */
  lemma {:induction false} PayloadThere(data: seq<byte>, shards: seq<Shard>, codec: Codec, k: nat)
    requires At(data, 96 + 128 * |shards|, Payloads(shards, codec)) && k < |shards|
    ensures StartOf(shards, codec, k) <= StartOf(shards, codec, k + 1) <= |data|
    ensures data[StartOf(shards, codec, k)..StartOf(shards, codec, k + 1)] == codec.compress(shards[k].raw)
  {
    var all, before := Payloads(shards, codec), Payloads(shards[..k], codec);
    NextStart(shards, codec, k);
    PayloadsPrefix(shards, codec, k + 1, |shards|);
    assert shards[..|shards|] == shards;
    PartOfPrefix(before, codec.compress(shards[k].raw), all);
    PartAt(data, 96 + 128 * |shards|, all, |before|, |before| + |codec.compress(shards[k].raw)|);
  }

  lemma {:induction false} RowReadsBack(rows: seq<Entry>, shards: seq<Shard>, codec: Codec, k: nat, row: Entry)
    requires |rows| == |shards| && AllTaken(shards) && AllFit(shards) && GoodCodec(codec)
    requires RowsOf(rows, shards, codec) && AllPack(shards, codec, |shards|)
    requires StartOf(shards, codec, |shards|) <= MAX_SIZE && k < |shards| && row == rows[k]
    ensures ReadOne(row, shards, codec, k)
  {
    BuiltEntry(rows, shards, codec, k);
  }

  /** The gate reads the rows that were written, and from each the id of its shard and its place. */
  lemma {:induction false} ShardsReadBack(data: seq<byte>, rows: seq<Entry>, shards: seq<Shard>, codec: Codec, k: nat)
    requires AllTaken(shards) && AllFit(shards) && GoodCodec(codec) && AllPack(shards, codec, |shards|)
    requires ContainerFor(data, rows, shards, codec) && |data| <= MAX_SIZE && k < |shards|
    ensures IndexEnd(data) <= |data| && Entries(data) == rows
    ensures ShardId(rows[k]) == UntilZero(Padded(shards[k].id))
    ensures ShardRange(rows[k]) == Range(StartOf(shards, codec, k), StartOf(shards, codec, k + 1))
  {
    SizeOf(data, rows, shards, codec);
    EntriesAreRows(data, rows, shards, codec, Payloads(shards, codec));
    RowReadsBack(rows, shards, codec, k, rows[k]);
  }
}
