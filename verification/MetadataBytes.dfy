/** What the gate demands of a compact metadata container, byte by byte. */
module MetadataBytes {
  import opened Bytes
  import opened CompactMetadata
  import opened MetadataBuilder
  import opened BuiltMetadata

  lemma {:induction false} OneDigit(low: byte, rest: nat)
    ensures (low + 256 * rest) % 256 == low && (low + 256 * rest) / 256 == rest
  {
  }

  lemma {:induction false} ReadsBackEncoded(s: seq<byte>)
    ensures Encoded(LittleEndian(s), |s|) == s && LittleEndian(s) < Bound(|s|)
  {
    if s != [] {
      ReadsBackEncoded(s[1..]);
      OneDigit(s[0], LittleEndian(s[1..]));
      assert s == [s[0]] + s[1..];
    }
  }

  /** Some bytes are this number exactly when they are its encoding. */
  lemma {:induction false} NumberExactly(data: seq<byte>, lo: nat, width: nat, n: nat)
    requires lo + width <= |data| && n < Bound(width)
    ensures Number(data, lo, lo + width) == n <==> At(data, lo, Encoded(n, width))
  {
    ReadsBackEncoded(data[lo..lo + width]);
    if At(data, lo, Encoded(n, width)) { NumberIs(data, lo, width, n); }
  }

  predicate ZeroFrom(s: seq<byte>, lo: nat, hi: nat) {
    forall i :: lo <= i < hi ==> i < |s| && s[i] == 0
  }

  lemma {:induction false} ZerosExactly(s: seq<byte>, lo: nat, hi: nat)
    requires lo <= hi <= |s|
    ensures AllZero(s[lo..hi]) <==> ZeroFrom(s, lo, hi)
  {
    var piece := s[lo..hi];
    if AllZero(piece) {
      forall i | lo <= i < hi ensures s[i] == 0 { assert s[i] == piece[i - lo]; }
    }
  }

  // ---------------------------------------------------------------- the header

  /** A header for `count` entries. */
  ghost predicate HeaderDemands(data: seq<byte>, count: nat, sha256: seq<byte> -> seq<byte>) {
    && 96 + 128 * count <= |data| <= 8_388_608
    && At(data, 8, Encoded(1, 4)) && ZeroFrom(data, 12, 16) && At(data, 16, Encoded(|data|, 8))
    && At(data, 24, Encoded(count, 4)) && At(data, 28, Encoded(96, 8)) && At(data, 36, Encoded(128, 4))
    && At(data, 40, Encoded(128 * count, 4)) && ZeroFrom(data, 76, 96)
    && data[44..76] == sha256(data[96..96 + 128 * count])
  }

  lemma {:induction false} SixNumbers(data: seq<byte>, count: nat, four: nat, eight: nat)
    requires four == 4 && eight == 8 && 96 <= |data| < U32 && 128 * count < U32
    ensures Numbers(data, |data|, count) <==>
      && At(data, 8, Encoded(1, four)) && At(data, 16, Encoded(|data|, eight)) && At(data, 24, Encoded(count, four))
      && At(data, 28, Encoded(96, eight)) && At(data, 36, Encoded(128, four))
      && At(data, 40, Encoded(128 * count, four))
  {
    Bounds();
    NumberExactly(data, 8, four, 1);
    NumberExactly(data, 16, eight, |data|);
    NumberExactly(data, 24, four, count);
    NumberExactly(data, 28, eight, 96);
    NumberExactly(data, 36, four, 128);
    NumberExactly(data, 40, four, 128 * count);
  }

  /** The header is in order exactly when its bytes are those of a header for that many entries. */
  lemma {:induction false} HeaderExactly(data: seq<byte>, sha256: seq<byte> -> seq<byte>)
    ensures HeaderOk(data, sha256) <==> HeaderDemands(data, ShardCount(data), sha256)
  {
    var n := ShardCount(data);
    if 96 + 128 * n <= |data| <= 8_388_608 {
      SixNumbers(data, n, 4, 8);
      ZerosExactly(data, 12, 16);
      ZerosExactly(data, 76, 96);
      assert Slice(data, 12, 16) == data[12..16] && Slice(data, 76, 96) == data[76..96];
      assert Slice(data, 44, 76) == data[44..76];
    }
  }

  // ---------------------------------------------------------------- an entry

  predicate Ascii(s: seq<byte>) {
    forall i :: 0 <= i < |s| ==> 1 <= s[i] < 128
  }

  /** An entry with this id, place and lengths. */
  ghost predicate EntryDemands(entry: Entry, id: seq<byte>, offset: nat, length: nat, decoded: nat, indexEnd: nat,
                               size: nat)
  {
    && 1 <= |id| <= 32 && Ascii(id) && entry[..32] == Padded(id)
    && (entry[32] == 0 || entry[32] == 1) && ZeroFrom(entry, 33, 40) && ZeroFrom(entry, 100, 128)
    && At(entry, 40, Encoded(offset, 8)) && At(entry, 48, Encoded(length, 4)) && At(entry, 52, Encoded(decoded, 4))
    && 1 <= length <= 16_777_216 && 1 <= decoded <= 16_777_216
    && indexEnd <= offset && offset + length <= size
  }

  lemma {:induction false} ThreeNumbers(entry: Entry, offset: nat, length: nat, decoded: nat, four: nat, eight: nat)
    requires four == 4 && eight == 8 && offset < Bound(8) && length < U32 && decoded < U32
    ensures Number(entry, 40, 48) == offset && Number(entry, 48, 52) == length && Number(entry, 52, 56) == decoded <==>
      && At(entry, 40, Encoded(offset, eight)) && At(entry, 48, Encoded(length, four))
      && At(entry, 52, Encoded(decoded, four))
  {
    Bounds();
    NumberExactly(entry, 40, eight, offset);
    NumberExactly(entry, 48, four, length);
    NumberExactly(entry, 52, four, decoded);
  }

  lemma {:induction false} UntilPadding(id: seq<byte>, rest: seq<byte>)
    requires (forall i :: 0 <= i < |id| ==> id[i] != 0) && (rest == [] || rest[0] == 0)
    ensures UntilZero(id + rest) == id
  {
    if id == [] {
      assert id + rest == rest;
    } else {
      UntilPadding(id[1..], rest);
      assert (id + rest)[1..] == id[1..] + rest;
    }
  }

  /** Padding with zeros is undone by reading up to the first zero. */
  lemma {:induction false} IdOf(field: seq<byte>, id: seq<byte>)
    requires |field| == 32 && |id| <= 32 && forall i :: 0 <= i < |id| ==> id[i] != 0
    ensures field == Padded(id) <==> UntilZero(field) == id && Tidy(field)
  {
    if field == Padded(id) {
      UntilPadding(id, CompactZeros(32 - |id|));
      assert field == id + CompactZeros(32 - |id|);
    }
    if UntilZero(field) == id && Tidy(field) {
      assert field == field[..|id|] + field[|id|..];
    }
  }

  lemma {:induction false} NumbersFit(entry: Entry)
    ensures Number(entry, 40, 48) < Bound(8) && Number(entry, 48, 52) < U32 && Number(entry, 52, 56) < U32
  {
    Bounds();
    ReadsBackEncoded(entry[40..48]);
    ReadsBackEncoded(entry[48..52]);
    ReadsBackEncoded(entry[52..56]);
  }

  lemma {:induction false} IdExactly(entry: Entry, id: seq<byte>)
    requires id == ShardId(entry)
    ensures AllZero(entry[|id|..32]) && (forall i :: 0 <= i < |id| ==> id[i] < 128) && id != []
      <==> 1 <= |id| <= 32 && Ascii(id) && entry[..32] == Padded(id)
  {
    IdOf(entry[..32], id);
    assert entry[..32][|id|..] == entry[|id|..32];
  }

  /** An entry is in order exactly when its bytes are those of an entry with the id, place and lengths
      that are read from it, and these are allowed. */
  lemma {:induction false} EntryExactly(entry: Entry, indexEnd: nat, size: nat)
    ensures EntryOk(entry, indexEnd, size) <==>
      EntryDemands(entry, ShardId(entry), Number(entry, 40, 48), Number(entry, 48, 52), Number(entry, 52, 56),
                   indexEnd, size)
  {
    NumbersFit(entry);
    ThreeNumbers(entry, Number(entry, 40, 48), Number(entry, 48, 52), Number(entry, 52, 56), 4, 8);
    IdExactly(entry, ShardId(entry));
    ZerosExactly(entry, 33, 40);
    ZerosExactly(entry, 100, 128);
  }
}
