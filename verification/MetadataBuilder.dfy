/** The writer of the compact metadata container, and the gate reading what it wrote. */
module MetadataBuilder {
  import opened Options
  import opened Bytes
  import opened Sorting
  import opened CompactMetadata

  const U32 := 0x1_0000_0000
  const MAGIC: seq<byte> := [77, 77, 77, 69, 84, 65, 49, 0] // "MMMETA1" and a zero byte

  datatype Shard = Shard(id: seq<byte>, kind: byte, raw: seq<byte>, itemRows: nat, hashRows: nat, auxRows: nat)

  /** The compressor, which puts a size of four bytes in front, and the digest. */
  datatype Codec = Codec(compress: seq<byte> -> seq<byte>, sha256: seq<byte> -> seq<byte>)

  ghost predicate GoodCodec(c: Codec) {
    forall s :: |c.compress(s)| >= 4 && |c.sha256(s)| == 32
  }

  // ---------------------------------------------------------------- little-endian numbers

  /** The number as so many bytes, lowest first; what does not fit is cut off. */
  function Encoded(n: nat, width: nat): (s: seq<byte>)
    ensures |s| == width
  {
    if width == 0 then [] else [n % 256] + Encoded(n / 256, width - 1)
  }

  function Bound(width: nat): (b: nat)
    ensures b > 0
  {
    if width == 0 then 1 else 256 * Bound(width - 1)
  }

  lemma {:induction false} Multiples(p: int, d: int)
    requires p > 0
    ensures (d >= 1 ==> p * d >= p) && (d <= -1 ==> p * d <= -p)
  {
  }

  lemma {:induction false} Divided(n: nat, p: nat) returns (q: nat, m: nat)
    requires p > 0
    ensures m == n % p && m < p && n == p * q + m
  {
    q, m := n / p, n % p;
  }

  lemma {:induction false} Unique(n: nat, p: nat, k: nat, r: nat)
    requires r < p && n == p * k + r
    ensures n % p == r
  {
    var q, m := Divided(n, p);
    assert p * (q - k) == p * q - p * k == r - m;
    Multiples(p, q - k);
  }

  lemma {:induction false} Remainder(n: nat, b: nat)
    requires b > 0
    ensures 256 * b > 0 && n % (256 * b) == n % 256 + 256 * (n / 256 % b)
  {
    var q, r := Divided(n, 256);
    var k, m := Divided(q, b);
    assert n == 256 * (b * k + m) + r == (256 * b) * k + (256 * m + r);
    Unique(n, 256 * b, k, 256 * m + r);
  }

  lemma {:induction false} EncodedReadsBack(n: nat, width: nat)
    ensures LittleEndian(Encoded(n, width)) == n % Bound(width)
    decreases width
  {
    if width == 0 {
    } else {
      EncodedReadsBack(n / 256, width - 1);
      assert Encoded(n, width)[1..] == Encoded(n / 256, width - 1);
      Remainder(n, Bound(width - 1));
    }
  }

  lemma {:induction false} Bounds()
    ensures Bound(4) == U32 && Bound(8) == U32 * U32
  {
    assert Bound(1) == 256 && Bound(2) == 256 * Bound(1) && Bound(3) == 256 * Bound(2) && Bound(4) == 256 * Bound(3);
    assert Bound(5) == 256 * Bound(4) && Bound(6) == 256 * Bound(5) && Bound(7) == 256 * Bound(6);
    assert Bound(8) == 256 * Bound(7);
  }

  // ---------------------------------------------------------------- one row of the index

  /** The id in a field of 32 bytes. */
  function Padded(id: seq<byte>): (field: seq<byte>)
    requires |id| <= 32
    ensures |field| == 32
  {
    id + seq(32 - |id|, _ => 0)
  }

  /** What a row says about a shard. */
  ghost predicate RowFor(row: Entry, s: Shard, offset: nat, length: nat, digest: seq<byte>)
    requires |s.id| <= 32
  {
    && row[..32] == Padded(s.id) && row[32] == s.kind && AllZero(row[33..40])
    && row[40..48] == Encoded(offset, 8) && row[48..52] == Encoded(length, 4) && row[52..56] == Encoded(|s.raw|, 4)
    && row[56..88] == digest && row[88..92] == Encoded(s.itemRows, 4) && row[92..96] == Encoded(s.hashRows, 4)
    && row[96..100] == Encoded(s.auxRows, 4) && AllZero(row[100..128])
  }

  method Put(row: array<byte>, at: nat, part: seq<byte>)
    requires at + |part| <= row.Length
    modifies row
    ensures row[at..at + |part|] == part
    ensures forall i :: 0 <= i < row.Length && !(at <= i < at + |part|) ==> row[i] == old(row[i])
  {
    forall j | 0 <= j < |part| {
      row[at + j] := part[j];
    }
  }

  method PutPlace(row: array<byte>, offset: nat, length: nat, rawLength: nat)
    requires row.Length == 128
    modifies row
    ensures row[40..48] == Encoded(offset, 8)
    ensures row[48..52] == Encoded(length, 4) && row[52..56] == Encoded(rawLength, 4)
    ensures forall i :: 0 <= i < 128 && !(40 <= i < 56) ==> row[i] == old(row[i])
  {
    Put(row, 40, Encoded(offset, 8));
    ghost var first := row[40..48];
    Put(row, 48, Encoded(length, 4));
    assert row[40..48] == first;
    ghost var second := row[48..52];
    Put(row, 52, Encoded(rawLength, 4));
    assert row[40..48] == first && row[48..52] == second;
  }

  method PutCounts(row: array<byte>, digest: seq<byte>, items: nat, hashes: nat, auxiliary: nat)
    requires row.Length == 128 && |digest| == 32
    modifies row
    ensures row[56..88] == digest && row[88..92] == Encoded(items, 4)
    ensures row[92..96] == Encoded(hashes, 4) && row[96..100] == Encoded(auxiliary, 4)
    ensures forall i :: 0 <= i < 128 && !(56 <= i < 100) ==> row[i] == old(row[i])
  {
    Put(row, 56, digest);
    ghost var first := row[56..88];
    Put(row, 88, Encoded(items, 4));
    assert row[56..88] == first;
    ghost var second := row[88..92];
    Put(row, 92, Encoded(hashes, 4));
    assert row[56..88] == first && row[88..92] == second;
    ghost var third := row[92..96];
    Put(row, 96, Encoded(auxiliary, 4));
    assert row[56..88] == first && row[88..92] == second && row[92..96] == third;
  }

  method MakeRow(s: Shard, offset: nat, length: nat, digest: seq<byte>) returns (row: Entry)
    requires |s.id| <= 32 && |digest| == 32
    ensures RowFor(row, s, offset, length, digest)
  {
    var a := new byte[128](_ => 0);
    Put(a, 0, s.id);
    assert a[..32] == Padded(s.id) by { assert a[..|s.id|] == a[0..0 + |s.id|] == s.id; }
    a[32] := s.kind;
    assert a[..32] == Padded(s.id);
    ghost var field := a[..32];
    PutPlace(a, offset, length, |s.raw|);
    assert a[..32] == field;
    ghost var place, lengths := a[40..48], a[48..56];
    PutCounts(a, digest, s.itemRows, s.hashRows, s.auxRows);
    assert a[..32] == field && a[40..48] == place && a[48..56] == lengths;
    assert a[48..52] == lengths[..4] && a[52..56] == lengths[4..];
    row := a[..];
    assert row[..32] == a[..32] && row[40..48] == a[40..48] && row[48..52] == a[48..52] && row[52..56] == a[52..56];
    assert row[56..88] == a[56..88] && row[88..92] == a[88..92] && row[92..96] == a[92..96];
    assert row[96..100] == a[96..100];
  }

  // ---------------------------------------------------------------- the whole container

  /** The compressed shards one after the other. */
  function Payloads(shards: seq<Shard>, codec: Codec): seq<byte> {
    if shards == [] then []
    else Payloads(shards[..|shards| - 1], codec) + codec.compress(shards[|shards| - 1].raw)
  }

  /** Where shard `k` is put: behind header, index and the shards before it. */
  function StartOf(shards: seq<Shard>, codec: Codec, k: nat): nat
    requires k <= |shards|
  {
    96 + 128 * |shards| + |Payloads(shards[..k], codec)|
  }

  ghost predicate AllFit(shards: seq<Shard>) {
    forall k :: 0 <= k < |shards| ==> |shards[k].id| <= 32
  }

  ghost predicate RowOf(row: Entry, shards: seq<Shard>, codec: Codec, k: nat)
    requires k < |shards| && AllFit(shards)
  {
    RowFor(row, shards[k], StartOf(shards, codec, k), |codec.compress(shards[k].raw)|, codec.sha256(shards[k].raw))
  }

  // ---------------------------------------------------------------- appending

  /** The piece stands at this place. */
  predicate At(s: seq<byte>, at: nat, piece: seq<byte>) {
    at + |piece| <= |s| && s[at..at + |piece|] == piece
  }

  lemma {:induction false} StillAt(s: seq<byte>, more: seq<byte>, at: nat, piece: seq<byte>)
    requires At(s, at, piece)
    ensures At(s + more, at, piece)
  {
    assert (s + more)[at..at + |piece|] == s[at..at + |piece|];
  }

  lemma {:induction false} NowAt(s: seq<byte>, piece: seq<byte>)
    ensures At(s + piece, |s|, piece)
  {
  }

  method Extend(s: seq<byte>, piece: seq<byte>) returns (t: seq<byte>)
    ensures t == s + piece && At(t, |s|, piece)
    ensures forall at: nat, p: seq<byte> {:trigger At(t, at, p)} :: At(s, at, p) ==> At(t, at, p)
  {
    t := s + piece;
    NowAt(s, piece);
    forall at: nat, p: seq<byte> | At(s, at, p) ensures At(t, at, p) { StillAt(s, piece, at, p); }
  }

  /** The header: magic, version, no flags, length, count, geometry, digest of the index, and zeros. */
  ghost predicate HeaderFor(data: seq<byte>, length: nat, count: nat, digest: seq<byte>) {
    && At(data, 0, MAGIC) && At(data, 8, Encoded(1, 4)) && At(data, 12, Encoded(0, 4))
    && At(data, 16, Encoded(length, 8)) && At(data, 24, Encoded(count, 4))
    && At(data, 28, Encoded(96, 8)) && At(data, 36, Encoded(128, 4)) && At(data, 40, Encoded(128 * count, 4))
    && At(data, 44, digest) && At(data, 76, CompactZeros(20))
  }

  function CompactZeros(n: nat): (s: seq<byte>)
    ensures |s| == n && AllZero(s)
  {
    seq(n, _ => 0)
  }

  method MakeHeader(length: nat, count: nat, digest: seq<byte>) returns (header: seq<byte>)
    requires |digest| == 32
    ensures |header| == 96 && HeaderFor(header, length, count, digest)
  {
    header := Extend([], MAGIC);
    header := Extend(header, Encoded(1, 4));
    header := Extend(header, Encoded(0, 4));
    header := Extend(header, Encoded(length, 8));
    header := Extend(header, Encoded(count, 4));
    header := Extend(header, Encoded(96, 8));
    header := Extend(header, Encoded(128, 4));
    header := Extend(header, Encoded(128 * count, 4));
    header := Extend(header, digest);
    header := Extend(header, CompactZeros(20));
  }

  // ---------------------------------------------------------------- encoding

  /** The rows of the first shards, and where they stand. */
  ghost predicate RowsOf(rows: seq<Entry>, shards: seq<Shard>, codec: Codec)
    requires |rows| <= |shards| && AllFit(shards)
  {
    forall k :: 0 <= k < |rows| ==> RowOf(rows[k], shards, codec, k)
  }

  ghost predicate RowsAt(data: seq<byte>, rows: seq<Entry>, base: nat) {
    forall k :: 0 <= k < |rows| ==> At(data, base + 128 * k, rows[k])
  }

  lemma {:induction false} MoreRows(rows: seq<Entry>, row: Entry, shards: seq<Shard>, codec: Codec)
    requires |rows| < |shards| && AllFit(shards) && RowsOf(rows, shards, codec)
    requires RowOf(row, shards, codec, |rows|)
    ensures RowsOf(rows + [row], shards, codec)
  {
    forall k | 0 <= k < |rows| + 1 ensures RowOf((rows + [row])[k], shards, codec, k) {
      assert k < |rows| ==> (rows + [row])[k] == rows[k];
    }
  }

  lemma {:induction false} RowAppended(data: seq<byte>, rows: seq<Entry>, row: Entry, base: nat)
    requires RowsAt(data, rows, base) && |data| == base + 128 * |rows|
    ensures RowsAt(data + row, rows + [row], base)
  {
    NowAt(data, row);
    forall k | 0 <= k < |rows| ensures At(data + row, base + 128 * k, rows[k]) {
      StillAt(data, row, base + 128 * k, rows[k]);
    }
  }

  lemma {:induction false} AtBehind(front: seq<byte>, s: seq<byte>, at: nat, piece: seq<byte>)
    requires At(s, at, piece)
    ensures At(front + s, |front| + at, piece)
  {
    assert (front + s)[|front| + at..|front| + at + |piece|] == s[at..at + |piece|];
  }

  lemma {:induction false} RowsBehind(front: seq<byte>, index: seq<byte>, rows: seq<Entry>, rest: seq<byte>)
    requires RowsAt(index, rows, 0)
    ensures RowsAt(front + index + rest, rows, |front|)
  {
    forall k | 0 <= k < |rows| ensures At(front + index + rest, |front| + 128 * k, rows[k]) {
      AtBehind(front, index, 128 * k, rows[k]);
      StillAt(front + index, rest, |front| + 128 * k, rows[k]);
    }
  }

  lemma {:induction false} NextStart(shards: seq<Shard>, codec: Codec, k: nat)
    requires k < |shards|
    ensures Payloads(shards[..k + 1], codec) == Payloads(shards[..k], codec) + codec.compress(shards[k].raw)
    ensures StartOf(shards, codec, k + 1) == StartOf(shards, codec, k) + |codec.compress(shards[k].raw)|
  {
    assert shards[..k + 1][..k] == shards[..k];
  }

  /** A header, these rows and these payloads, one after the other. */
  ghost predicate LaidOut(data: seq<byte>, rows: seq<Entry>, payloads: seq<byte>, sha256: seq<byte> -> seq<byte>) {
    && |data| == 96 + 128 * |rows| + |payloads|
    && HeaderFor(data, |data|, |rows|, sha256(data[96..96 + 128 * |rows|]))
    && RowsAt(data, rows, 96) && At(data, 96 + 128 * |rows|, payloads)
  }

  /** What the builder writes: a header, a row for each shard, and the compressed shards. */
  ghost predicate ContainerFor(data: seq<byte>, rows: seq<Entry>, shards: seq<Shard>, codec: Codec)
    requires AllFit(shards)
  {
    && |rows| == |shards| && RowsOf(rows, shards, codec) && LaidOut(data, rows, Payloads(shards, codec), codec.sha256)
  }

  lemma {:induction false} HeaderStays(header: seq<byte>, rest: seq<byte>, length: nat, count: nat, digest: seq<byte>)
    requires HeaderFor(header, length, count, digest)
    ensures HeaderFor(header + rest, length, count, digest)
  {
    StillAt(header, rest, 0, MAGIC);
    StillAt(header, rest, 8, Encoded(1, 4));
    StillAt(header, rest, 12, Encoded(0, 4));
    StillAt(header, rest, 16, Encoded(length, 8));
    StillAt(header, rest, 24, Encoded(count, 4));
    StillAt(header, rest, 28, Encoded(96, 8));
    StillAt(header, rest, 36, Encoded(128, 4));
    StillAt(header, rest, 40, Encoded(128 * count, 4));
    StillAt(header, rest, 44, digest);
    StillAt(header, rest, 76, CompactZeros(20));
  }

  /** No compressed shard is too long. */
  ghost predicate AllPack(shards: seq<Shard>, codec: Codec, n: nat)
    requires n <= |shards|
  {
    forall k :: 0 <= k < n ==> |codec.compress(shards[k].raw)| <= 16 * 1024 * 1024
  }

  /** The first `k` shards are encoded. */
  ghost predicate Encoding(shards: seq<Shard>, codec: Codec, k: nat, index: seq<byte>, payloads: seq<byte>,
                           offset: nat, rows: seq<Entry>)
    requires k <= |shards| && AllFit(shards)
  {
    && AllPack(shards, codec, k)
    && payloads == Payloads(shards[..k], codec) && offset == StartOf(shards, codec, k)
    && |rows| == k && |index| == 128 * k && RowsOf(rows, shards, codec) && RowsAt(index, rows, 0)
  }

  lemma {:induction false} OneMoreShard(shards: seq<Shard>, codec: Codec, k: nat, index: seq<byte>, payloads: seq<byte>,
                                        offset: nat, rows: seq<Entry>, row: Entry, compressed: seq<byte>)
    requires k < |shards| && AllFit(shards) && Encoding(shards, codec, k, index, payloads, offset, rows)
    requires RowOf(row, shards, codec, k) && compressed == codec.compress(shards[k].raw)
    requires |compressed| <= 16 * 1024 * 1024
    ensures Encoding(shards, codec, k + 1, index + row, payloads + compressed, offset + |compressed|, rows + [row])
  {
    MoreRows(rows, row, shards, codec);
    RowAppended(index, rows, row, 0);
    NextStart(shards, codec, k);
  }

  /** The rows and payloads of all shards, unless one is too long. */
  method EncodeShards(shards: seq<Shard>, codec: Codec)
    returns (ok: bool, index: seq<byte>, payloads: seq<byte>, ghost rows: seq<Entry>)
    requires AllFit(shards) && GoodCodec(codec)
    ensures ok <==> AllPack(shards, codec, |shards|)
    ensures ok ==> Encoding(shards, codec, |shards|, index, payloads, StartOf(shards, codec, |shards|), rows)
  {
    index, payloads, rows := [], [], [];
    var offset: nat := 96 + 128 * |shards|;
    for k := 0 to |shards|
      invariant Encoding(shards, codec, k, index, payloads, offset, rows)
    {
      var compressed := codec.compress(shards[k].raw);
      if |compressed| > 16 * 1024 * 1024 { return false, index, payloads, rows; }
      var row := MakeRow(shards[k], offset, |compressed|, codec.sha256(shards[k].raw));
      OneMoreShard(shards, codec, k, index, payloads, offset, rows, row, compressed);
      index, payloads, offset := index + row, payloads + compressed, offset + |compressed|;
      rows := rows + [row];
    }
    ok := true;
  }

  lemma {:induction false} Parts(header: seq<byte>, index: seq<byte>, payloads: seq<byte>)
    requires |header| == 96
    ensures var data := header + index + payloads;
      data[96..96 + |index|] == index && At(data, 96 + |index|, payloads)
  {
    NowAt(header + index, payloads);
  }

  lemma {:induction false} HeaderOfWhole(header: seq<byte>, index: seq<byte>, payloads: seq<byte>, length: nat,
                                         count: nat, digest: seq<byte>)
    requires HeaderFor(header, length, count, digest)
    ensures HeaderFor(header + index + payloads, length, count, digest)
  {
    HeaderStays(header, index, length, count, digest);
    HeaderStays(header + index, payloads, length, count, digest);
  }

  lemma {:induction false} Assembled(header: seq<byte>, index: seq<byte>, payloads: seq<byte>, rows: seq<Entry>,
                                     sha256: seq<byte> -> seq<byte>, length: nat, digest: seq<byte>)
    requires |index| == 128 * |rows| && RowsAt(index, rows, 0) && |header| == 96
    requires length == 96 + |index| + |payloads| && digest == sha256(index)
    requires HeaderFor(header, length, |rows|, digest)
    ensures LaidOut(header + index + payloads, rows, payloads, sha256)
  {
    Parts(header, index, payloads);
    HeaderOfWhole(header, index, payloads, length, |rows|, digest);
    RowsBehind(header, index, rows, payloads);
  }

  /** Header, index and payloads in one file. */
  method Assemble(index: seq<byte>, payloads: seq<byte>, ghost rows: seq<Entry>, sha256: seq<byte> -> seq<byte>)
    returns (data: seq<byte>)
    requires |index| == 128 * |rows| && RowsAt(index, rows, 0) && |sha256(index)| == 32
    ensures LaidOut(data, rows, payloads, sha256)
  {
    var length, digest := 96 + |index| + |payloads|, sha256(index);
    var header := MakeHeader(length, |index| / 128, digest);
    Assembled(header, index, payloads, rows, sha256, length, digest);
    data := header + index + payloads;
  }

  // ---------------------------------------------------------------- the builder

  /** The field that holds an id; ids that do not fit are not taken. */
  function FieldOf(s: Shard): seq<byte> {
    if |s.id| <= 32 then Padded(s.id) else s.id
  }

  /** Shards are sorted by the field that holds their id. */
  predicate ById(a: Shard, b: Shard) {
    !Less(FieldOf(b), FieldOf(a))
  }

  /** What the builder takes: an id of one to 32 ASCII characters, one of two kinds, row counts of 32 bits. */
  predicate Takes(s: Shard) {
    && 1 <= |s.id| <= 32 && (forall i :: 0 <= i < |s.id| ==> s.id[i] < 128) && s.kind <= 1
    && s.itemRows < U32 && s.hashRows < U32 && s.auxRows < U32
  }

  class MetadataFileBuilder {
    var shards: seq<Shard>

    /** All shards were taken, and no two have the same id. */
    ghost predicate Valid() reads this {
      && (forall k :: 0 <= k < |shards| ==> Takes(shards[k]))
      && forall i, j :: 0 <= i < j < |shards| ==> shards[i].id != shards[j].id
    }

    constructor ()
      ensures Valid() && shards == []
    {
      shards := [];
    }

    /** Adds a shard, unless its id or a count is not possible or the id is there already. */
    method AddPayload(s: Shard) returns (ok: bool)
      requires Valid() && s.kind <= 1
      modifies this
      ensures Valid()
      ensures ok <==> Takes(s) && forall k :: 0 <= k < |old(shards)| ==> old(shards)[k].id != s.id
      ensures shards == if ok then old(shards) + [s] else old(shards)
    {
      if |s.id| == 0 || |s.id| > 32 || exists i :: 0 <= i < |s.id| && s.id[i] >= 128 { return false; }
      if exists k :: 0 <= k < |shards| && shards[k].id == s.id { return false; }
      if s.itemRows >= U32 || s.hashRows >= U32 || s.auxRows >= U32 { return false; }
      shards := shards + [s];
      return true;
    }

    /** The container of all shards in the order of their ids, unless one is too long when compressed. */
    method Encode(codec: Codec) returns (r: Option<seq<byte>>, ghost rows: seq<Entry>)
      requires Valid() && GoodCodec(codec)
      ensures AllFit(Sort(ById, shards))
      ensures r.Some? <==> AllPack(Sort(ById, shards), codec, |shards|)
      ensures r.Some? ==> ContainerFor(r.value, rows, Sort(ById, shards), codec)
    {
      var sorted := Sort(ById, shards);
      SortMembers(ById, shards);
      assert forall k :: 0 <= k < |sorted| ==> sorted[k] in sorted;
      var ok, index, payloads;
      ok, index, payloads, rows := EncodeShards(sorted, codec);
      if !ok { return None, rows; }
      var data := Assemble(index, payloads, rows, codec.sha256);
      assert sorted[..|sorted|] == sorted;
      return Some(data), rows;
    }
  }
}
