/** The geometry check of the compact metadata container.

    The code looks at one index entry at a time and, at the end, at neighbouring ranges
    of a sorted list.  `WellFormed` is the global property it is meant to establish. */
module CompactMetadata {
  import opened Sets
  import opened Bytes
  import opened Sorting

  datatype Fault =
    | Size | Version | Reserved | Length | IndexGeometry | IndexBounds | IndexChecksum
    | IdPadding | Id | Order | Kind | EntryReserved | ShardLength | ShardBounds | Overlap

  datatype Verdict = Accepted | Rejected(fault: Fault)

  /** Half open. */
  datatype Range = Range(start: int, end: int)

  // ---------------------------------------------------------------- bytes

  function Min(a: int, b: int): int { if a <= b then a else b }

  /** A slice that may run past the end, as in the scripts. */
  function Slice(data: seq<byte>, lo: nat, hi: nat): (s: seq<byte>)
    requires lo <= hi
    ensures hi <= |data| ==> |s| == hi - lo
  {
    data[Min(lo, |data|)..Min(hi, |data|)]
  }

  function LittleEndian(s: seq<byte>): (n: nat) {
    if s == [] then 0 else s[0] + 256 * LittleEndian(s[1..])
  }

  predicate AllZero(s: seq<byte>) {
    forall i :: 0 <= i < |s| ==> s[i] == 0
  }

  function UntilZero(s: seq<byte>): (t: seq<byte>)
    ensures t <= s && (forall i :: 0 <= i < |t| ==> t[i] != 0) && (|t| < |s| ==> s[|t|] == 0)
  {
    if s == [] || s[0] == 0 then [] else [s[0]] + UntilZero(s[1..])
  }

  /** Lexicographic order of byte strings. */
  predicate Less(a: seq<byte>, b: seq<byte>) {
    b != [] && (a == [] || a[0] < b[0] || (a[0] == b[0] && Less(a[1..], b[1..])))
  }

  lemma {:induction false} LessTransitive(a: seq<byte>, b: seq<byte>, c: seq<byte>)
    requires Less(a, b) && Less(b, c)
    ensures Less(a, c)
  {
    if a != [] && a[0] == b[0] == c[0] {
      LessTransitive(a[1..], b[1..], c[1..]);
    }
  }

  // ---------------------------------------------------------------- the layout

  const MAX_SIZE := 8 * 1024 * 1024
  const MAX_SHARD := 16 * 1024 * 1024
  const INDEX_OFFSET := 96
  const ENTRY_SIZE := 128

  function Number(data: seq<byte>, lo: nat, hi: nat): nat
    requires lo <= hi
  {
    LittleEndian(Slice(data, lo, hi))
  }

  function ShardCount(data: seq<byte>): nat { Number(data, 24, 28) }

  function IndexEnd(data: seq<byte>): nat { INDEX_OFFSET + ShardCount(data) * ENTRY_SIZE }

  ghost predicate HeaderOk(data: seq<byte>, sha256: seq<byte> -> seq<byte>) {
    && |data| <= MAX_SIZE
    && Number(data, 8, 12) == 1
    && AllZero(Slice(data, 12, 16)) && AllZero(Slice(data, 76, 96))
    && Number(data, 16, 24) == |data|
    && Number(data, 28, 36) == INDEX_OFFSET && Number(data, 36, 40) == ENTRY_SIZE
    && Number(data, 40, 44) == ShardCount(data) * ENTRY_SIZE
    && IndexEnd(data) <= |data|
    && sha256(data[INDEX_OFFSET..IndexEnd(data)]) == Slice(data, 44, 76)
  }

  /** One index entry. */
  type Entry = e: seq<byte> | |e| == 128 witness seq(128, i => 0)

  function Entries(data: seq<byte>): (entries: seq<Entry>)
    requires IndexEnd(data) <= |data|
    ensures |entries| == ShardCount(data)
  {
    seq(ShardCount(data), k requires 0 <= k < ShardCount(data) =>
      data[INDEX_OFFSET + k * ENTRY_SIZE..INDEX_OFFSET + (k + 1) * ENTRY_SIZE])
  }

  function ShardId(entry: Entry): seq<byte> {
    UntilZero(entry[..32])
  }

  function ShardRange(entry: Entry): Range {
    Range(Number(entry, 40, 48), Number(entry, 40, 48) + Number(entry, 48, 52))
  }

  /** What one entry must satisfy on its own, apart from its place in the order. */
  predicate EntryOk(entry: Entry, indexEnd: nat, size: nat) {
    && AllZero(entry[|ShardId(entry)|..32])
    && (forall i :: 0 <= i < |ShardId(entry)| ==> ShardId(entry)[i] < 128)
    && ShardId(entry) != []
    && entry[32] <= 1
    && AllZero(entry[33..40]) && AllZero(entry[100..128])
    && 0 < Number(entry, 48, 52) <= MAX_SHARD && 0 < Number(entry, 52, 56) <= MAX_SHARD
    && indexEnd <= ShardRange(entry).start && ShardRange(entry).end <= size
  }

  predicate Disjoint(a: Range, b: Range) { a.end <= b.start || b.end <= a.start }

  /** The ids, in index order. */
  function Ids(entries: seq<Entry>): (ids: seq<seq<byte>>)
    ensures |ids| == |entries|
  {
    seq(|entries|, k requires 0 <= k < |entries| => ShardId(entries[k]))
  }

  /** Where the shards lie, in index order. */
  function Shards(entries: seq<Entry>): (s: seq<Range>)
    ensures |s| == |entries|
  {
    seq(|entries|, k requires 0 <= k < |entries| => ShardRange(entries[k]))
  }

  ghost predicate EntriesOk(entries: seq<Entry>, indexEnd: nat, size: nat) {
    && (forall k :: 0 <= k < |entries| ==> EntryOk(entries[k], indexEnd, size))
    && Pairwise(Less, Ids(entries))
  }

  /** Header and entries in order, ids strictly increasing, every pair of shards disjoint. */
  ghost predicate WellFormed(data: seq<byte>, sha256: seq<byte> -> seq<byte>) {
    && HeaderOk(data, sha256)
    && EntriesOk(Entries(data), IndexEnd(data), |data|)
    && Pairwise(Disjoint, Shards(Entries(data)))
  }

  // ---------------------------------------------------------------- sorted neighbours

  predicate RangeLe(a: Range, b: Range) {
    a.start < b.start || (a.start == b.start && a.end <= b.end)
  }

  predicate NeighboursApart(s: seq<Range>) {
    forall i :: 0 <= i < |s| - 1 ==> s[i].end <= s[i + 1].start
  }

  lemma {:induction false} ApartIsTransitive(s: seq<Range>, i: nat, j: nat)
    requires NeighboursApart(s) && i < j < |s| && forall r :: r in s ==> r.start < r.end
    ensures s[i].end <= s[j].start
  {
    if i + 1 == j {
    } else {
      ApartIsTransitive(s, i, j - 1);
      assert s[j - 1] in s;
    }
  }

  /** Non-empty ranges are pairwise disjoint exactly when, once sorted, no neighbours overlap. */
  lemma {:induction false} SortedNeighboursSuffice(s: seq<Range>)
    requires forall r :: r in s ==> r.start < r.end
    ensures Pairwise(Disjoint, s) <==> NeighboursApart(Sort(RangeLe, s))
  {
    var t := Sort(RangeLe, s);
    assert TotalPreorder(RangeLe);
    SortSorts(RangeLe, s);
    SortMembers(RangeLe, s);
    if NeighboursApart(t) {
      forall i, j | 0 <= i < j < |t| ensures Disjoint(t[i], t[j]) {
        ApartIsTransitive(t, i, j);
      }
      PairwiseTransfers(Disjoint, t, s);
    }
    if Pairwise(Disjoint, s) {
      PairwiseTransfers(Disjoint, s, t);
      forall i | 0 <= i < |t| - 1 ensures t[i].end <= t[i + 1].start {
        assert t[i] in t && t[i + 1] in t && RangeLe(t[i], t[i + 1]) && Disjoint(t[i], t[i + 1]);
      }
    }
  }

  // ---------------------------------------------------------------- consequences

  function TotalLength(s: seq<Range>): int {
    if s == [] then 0 else s[0].end - s[0].start + TotalLength(s[1..])
  }

  function Cells(lo: int, hi: int): (s: set<int>)
    requires lo <= hi
    ensures |s| == hi - lo && forall x :: x in s <==> lo <= x < hi
    decreases hi - lo
  {
    if lo == hi then {} else Cells(lo, hi - 1) + {hi - 1}
  }

  predicate Inside(r: Range, x: int) { r.start <= x < r.end }

  lemma {:induction false} OutsideFirst(s: seq<Range>, x: int)
    requires s != [] && Pairwise(Disjoint, s) && exists r :: r in s[1..] && Inside(r, x)
    ensures !Inside(s[0], x)
  {
    var r :| r in s[1..] && Inside(r, x);
    var k :| 0 <= k < |s[1..]| && s[1..][k] == r;
    assert r == s[k + 1] && Disjoint(s[0], s[k + 1]);
  }

  /** Pairwise disjoint ranges cover as many places as their lengths add up to. */
  lemma {:induction false} CoveredCount(s: seq<Range>) returns (covered: set<int>)
    requires Pairwise(Disjoint, s) && forall r :: r in s ==> r.start < r.end
    ensures |covered| == TotalLength(s)
    ensures forall x :: x in covered ==> exists r :: r in s && Inside(r, x)
  {
    covered := {};
    if s == [] {
    } else {
      var rest := CoveredCount(s[1..]);
      var first := Cells(s[0].start, s[0].end);
      forall x | x in rest ensures x !in first { OutsideFirst(s, x); }
      assert first !! rest;
      covered := first + rest;
      assert s[0] in s;
      forall x | x in covered ensures exists r :: r in s && Inside(r, x) {
        if x in first { assert Inside(s[0], x); }
      }
    }
  }

  /** The shards of an accepted container fit, all together, behind its index. */
  lemma {:induction false} ShardsFit(data: seq<byte>, sha256: seq<byte> -> seq<byte>)
    requires WellFormed(data, sha256)
    ensures TotalLength(Shards(Entries(data))) <= |data| - IndexEnd(data)
  {
    var s := Shards(Entries(data));
    ShardsNonEmpty(Entries(data), IndexEnd(data), |data|);
    var covered := CoveredCount(s);
    SubsetSize(covered, Cells(IndexEnd(data), |data|));
  }

  // ---------------------------------------------------------------- which fault is reported

  /** The first `n` checks of the header pass. */
  ghost predicate HeaderPasses(data: seq<byte>, sha256: seq<byte> -> seq<byte>, n: nat) {
    && (n > 0 ==> |data| <= MAX_SIZE)
    && (n > 1 ==> Number(data, 8, 12) == 1)
    && (n > 2 ==> AllZero(Slice(data, 12, 16)) && AllZero(Slice(data, 76, 96)))
    && (n > 3 ==> Number(data, 16, 24) == |data|)
    && (n > 4 ==> Number(data, 28, 36) == INDEX_OFFSET && Number(data, 36, 40) == ENTRY_SIZE
                  && Number(data, 40, 44) == ShardCount(data) * ENTRY_SIZE)
    && (n > 5 ==> IndexEnd(data) <= |data|)
    && (n > 6 ==> IndexEnd(data) <= |data| && sha256(data[INDEX_OFFSET..IndexEnd(data)]) == Slice(data, 44, 76))
  }

  /** The fault is that of the first check that fails. */
  ghost predicate HeaderFault(data: seq<byte>, sha256: seq<byte> -> seq<byte>, f: Fault) {
    var n := match f
      case Size => 0 case Version => 1 case Reserved => 2 case Length => 3
      case IndexGeometry => 4 case IndexBounds => 5 case IndexChecksum => 6 case _ => 7;
    n < 7 && HeaderPasses(data, sha256, n) && !HeaderPasses(data, sha256, n + 1)
  }

  /** What one entry must satisfy after the id before it, which is empty for the first. */
  predicate Follows(entry: Entry, previous: seq<byte>, indexEnd: nat, size: nat) {
    EntryOk(entry, indexEnd, size) && (previous == [] || Less(previous, ShardId(entry)))
  }

  /** The first `n` checks of an entry pass. */
  ghost predicate EntryPasses(entry: Entry, previous: seq<byte>, indexEnd: nat, size: nat, n: nat) {
    var id := ShardId(entry);
    && (n > 0 ==> AllZero(entry[|id|..32]))
    && (n > 1 ==> forall i :: 0 <= i < |id| ==> id[i] < 128)
    && (n > 2 ==> id != [] && (previous == [] || Less(previous, id)))
    && (n > 3 ==> entry[32] <= 1)
    && (n > 4 ==> AllZero(entry[33..40]) && AllZero(entry[100..128]))
    && (n > 5 ==> 0 < Number(entry, 48, 52) <= MAX_SHARD && 0 < Number(entry, 52, 56) <= MAX_SHARD)
    && (n > 6 ==> indexEnd <= ShardRange(entry).start && ShardRange(entry).end <= size)
  }

  ghost predicate EntryFault(entry: Entry, previous: seq<byte>, indexEnd: nat, size: nat, f: Fault) {
    var n := match f
      case IdPadding => 0 case Id => 1 case Order => 2 case Kind => 3
      case EntryReserved => 4 case ShardLength => 5 case ShardBounds => 6 case _ => 7;
    n < 7 && EntryPasses(entry, previous, indexEnd, size, n) && !EntryPasses(entry, previous, indexEnd, size, n + 1)
  }

  /** The id before entry `k`, empty for the first. */
  function Previous(entries: seq<Entry>, k: nat): seq<byte>
    requires k <= |entries|
  {
    if k == 0 then [] else ShardId(entries[k - 1])
  }

  /** The fault is that of the first entry that is not in order. */
  ghost predicate EntriesFault(entries: seq<Entry>, indexEnd: nat, size: nat, f: Fault) {
    exists k :: 0 <= k < |entries| && EntriesOk(entries[..k], indexEnd, size)
                && EntryFault(entries[k], Previous(entries, k), indexEnd, size, f)
  }

  // ---------------------------------------------------------------- the check

  method CheckHeader(data: seq<byte>, sha256: seq<byte> -> seq<byte>) returns (v: Verdict)
    ensures v.Accepted? <==> HeaderOk(data, sha256)
    ensures v.Rejected? ==> HeaderFault(data, sha256, v.fault)
  {
    if |data| > MAX_SIZE { return Rejected(Size); }
    if Number(data, 8, 12) != 1 { return Rejected(Version); }
    if !AllZero(Slice(data, 12, 16)) || !AllZero(Slice(data, 76, 96)) { return Rejected(Reserved); }
    if Number(data, 16, 24) != |data| { return Rejected(Length); }
    var shardCount, indexOffset := Number(data, 24, 28), Number(data, 28, 36);
    var entrySize, indexLen := Number(data, 36, 40), Number(data, 40, 44);
    if indexOffset != INDEX_OFFSET || entrySize != ENTRY_SIZE || indexLen != shardCount * entrySize {
      return Rejected(IndexGeometry);
    }
    var indexEnd := indexOffset + indexLen;
    if indexEnd > |data| { return Rejected(IndexBounds); }
    if sha256(data[indexOffset..indexEnd]) != Slice(data, 44, 76) { return Rejected(IndexChecksum); }
    return Accepted;
  }

  /** The checks on one entry; `previous` is the id before it, empty for the first. */
  method CheckEntry(entry: Entry, previous: seq<byte>, indexEnd: nat, size: nat) returns (v: Verdict)
    ensures v.Accepted? <==> Follows(entry, previous, indexEnd, size)
    ensures v.Rejected? ==> EntryFault(entry, previous, indexEnd, size, v.fault)
  {
    var shardId := UntilZero(entry[..32]);
    if !AllZero(entry[|shardId|..32]) { return Rejected(IdPadding); }
    if exists i :: 0 <= i < |shardId| && shardId[i] >= 128 { return Rejected(Id); }
    if shardId == [] || (previous != [] && !Less(previous, shardId)) { return Rejected(Order); }
    if entry[32] > 1 { return Rejected(Kind); }
    if !AllZero(entry[33..40]) || !AllZero(entry[100..128]) { return Rejected(EntryReserved); }
    var offset, compressed, decoded := Number(entry, 40, 48), Number(entry, 48, 52), Number(entry, 52, 56);
    if compressed == 0 || compressed > MAX_SHARD || decoded == 0 || decoded > MAX_SHARD {
      return Rejected(ShardLength);
    }
    if offset < indexEnd || offset + compressed > size { return Rejected(ShardBounds); }
    return Accepted;
  }

  /** The entry loop: the ranges it collects, or the first fault it meets. */
  method CheckEntries(entries: seq<Entry>, indexEnd: nat, size: nat) returns (v: Verdict, ranges: seq<Range>)
    ensures v.Accepted? <==> EntriesOk(entries, indexEnd, size)
    ensures v.Accepted? ==> ranges == Shards(entries)
    ensures v.Rejected? ==> EntriesFault(entries, indexEnd, size, v.fault)
  {
    var previous: seq<byte> := [];
    ranges := [];
    for k := 0 to |entries|
      invariant EntriesOk(entries[..k], indexEnd, size)
      invariant previous == Previous(entries, k)
      invariant ranges == Shards(entries[..k])
    {
      var entry := entries[k];
      v := CheckEntry(entry, previous, indexEnd, size);
      OneMoreEntry(entries, k, indexEnd, size);
      if v.Rejected? {
        if EntriesOk(entries, indexEnd, size) { PrefixInOrder(entries, k + 1, indexEnd, size); }
        return;
      }
      previous := ShardId(entry);
      ranges := ranges + [ShardRange(entry)];
    }
    assert entries[..|entries|] == entries;
    v := Accepted;
  }

  /** Comparing each id with the one before it is enough. */
  lemma {:induction false} AscendingSnoc(ids: seq<seq<byte>>, id: seq<byte>)
    requires Pairwise(Less, ids)
    ensures Pairwise(Less, ids + [id]) <==> ids == [] || Less(ids[|ids| - 1], id)
  {
    var more := ids + [id];
    if ids != [] {
      assert more[|ids| - 1] == ids[|ids| - 1] && more[|ids|] == id;
      if Less(ids[|ids| - 1], id) {
        forall i, j | 0 <= i < j < |more| ensures Less(more[i], more[j]) {
          if j == |ids| && i < |ids| - 1 { LessTransitive(ids[i], ids[|ids| - 1], id); }
        }
      }
    }
  }

  lemma {:induction false} TablesGrow(entries: seq<Entry>, k: nat)
    requires k < |entries|
    ensures entries[..k + 1] == entries[..k] + [entries[k]]
    ensures Ids(entries[..k + 1]) == Ids(entries[..k]) + [ShardId(entries[k])]
    ensures Shards(entries[..k + 1]) == Shards(entries[..k]) + [ShardRange(entries[k])]
  {
    assert entries[..k + 1] == entries[..k] + [entries[k]];
  }

  lemma {:induction false} PrefixInOrder(entries: seq<Entry>, k: nat, indexEnd: nat, size: nat)
    requires k <= |entries| && EntriesOk(entries, indexEnd, size)
    ensures EntriesOk(entries[..k], indexEnd, size)
  {
    assert Ids(entries[..k]) == Ids(entries)[..k];
  }

  lemma {:induction false} OneMoreEntry(entries: seq<Entry>, k: nat, indexEnd: nat, size: nat)
    requires k < |entries| && EntriesOk(entries[..k], indexEnd, size)
    ensures EntriesOk(entries[..k + 1], indexEnd, size) <==>
      Follows(entries[k], Previous(entries, k), indexEnd, size)
    ensures Shards(entries[..k + 1]) == Shards(entries[..k]) + [ShardRange(entries[k])]
  {
    TablesGrow(entries, k);
    AscendingSnoc(Ids(entries[..k]), ShardId(entries[k]));
    if k > 0 { assert EntryOk(entries[..k][k - 1], indexEnd, size); }
  }

  /** Sorts the ranges and compares neighbours. */
  method AnyOverlap(ranges: seq<Range>) returns (overlap: bool)
    requires forall r :: r in ranges ==> r.start < r.end
    ensures overlap <==> !Pairwise(Disjoint, ranges)
  {
    SortedNeighboursSuffice(ranges);
    var sorted := Sort(RangeLe, ranges);
    overlap := exists i :: 0 <= i < |sorted| - 1 && sorted[i].end > sorted[i + 1].start;
  }

  /** The check accepts exactly the well-formed containers; it reports an overlap only
      when everything but disjointness holds. */
  method VerifyCompactMetadata(data: seq<byte>, sha256: seq<byte> -> seq<byte>) returns (v: Verdict)
    ensures v.Accepted? <==> WellFormed(data, sha256)
    ensures v == Rejected(Overlap) <==>
      && HeaderOk(data, sha256)
      && EntriesOk(Entries(data), IndexEnd(data), |data|)
      && !Pairwise(Disjoint, Shards(Entries(data)))
    ensures v.Rejected? && !HeaderOk(data, sha256) ==> HeaderFault(data, sha256, v.fault)
    ensures v.Rejected? && HeaderOk(data, sha256) && v != Rejected(Overlap) ==>
      EntriesFault(Entries(data), IndexEnd(data), |data|, v.fault)
  {
    v := CheckHeader(data, sha256);
    if v.Rejected? { return; }
    var ranges;
    v, ranges := CheckEntries(Entries(data), IndexEnd(data), |data|);
    if v.Rejected? { return; }
    ShardsNonEmpty(Entries(data), IndexEnd(data), |data|);
    var overlap := AnyOverlap(ranges);
    if overlap { v := Rejected(Overlap); }
  }

  lemma {:induction false} ShardsNonEmpty(entries: seq<Entry>, indexEnd: nat, size: nat)
    requires EntriesOk(entries, indexEnd, size)
    ensures forall r :: r in Shards(entries) ==> indexEnd <= r.start < r.end <= size
  {
    forall r | r in Shards(entries) ensures indexEnd <= r.start < r.end <= size {
      var k :| 0 <= k < |entries| && Shards(entries)[k] == r;
      assert EntryOk(entries[k], indexEnd, size);
    }
  }
}
