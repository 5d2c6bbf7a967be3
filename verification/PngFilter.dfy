/** Undoing the row filters of section 6 of RFC 2083, four bytes per pixel.

    `FilterRow` is the encoder of the standard.  The decoder loop is specified as its
    inverse: it returns the row that filters back to what was read. */
module PngFilter {
  import opened RowOffsets
  import opened Bytes

  type Row = seq<byte>

  datatype Decoded = Rows(rows: seq<Row>) | WrongLength | UnsupportedFilter

  const BYTES_PER_PIXEL := 4

  function Abs(x: int): int { if x < 0 then -x else x }

  /** Whichever neighbour is nearest to a + b - c, preferring a, then b. */
  function Paeth(a: byte, b: byte, c: byte): (r: byte)
    ensures r == a || r == b || r == c
    ensures var p := a + b - c;
            Abs(p - r) <= Abs(p - a) && Abs(p - r) <= Abs(p - b) && Abs(p - r) <= Abs(p - c)
    ensures r != a ==> Abs(a + b - c - r) < Abs(a + b - c - a)
    ensures r != a && r != b ==> Abs(a + b - c - r) < Abs(a + b - c - b)
  {
    var p := a + b - c;
    var pa, pb, pc := Abs(p - a), Abs(p - b), Abs(p - c);
    if pa <= pb && pa <= pc then a else if pb <= pc then b else c
  }

  /** The byte one pixel to the left, or zero. */
  function Left(row: Row, i: nat): byte
    requires i < |row|
  {
    if i >= BYTES_PER_PIXEL then row[i - BYTES_PER_PIXEL] else 0
  }

  predicate Supported(filter: byte) { filter <= 4 }

  /** What a filter predicts from the pixel to the left and the row above. */
  function Predict(filter: byte, left: byte, up: byte, upLeft: byte): (p: byte)
    requires Supported(filter)
  {
    match filter
    case 0 => 0
    case 1 => left
    case 2 => up
    case 3 => (left + up) / 2
    case _ => Paeth(left, up, upLeft)
  }

  function PredictAt(filter: byte, row: Row, prev: Row, i: nat): byte
    requires Supported(filter) && i < |row| == |prev|
  {
    Predict(filter, Left(row, i), prev[i], Left(prev, i))
  }

  /** The encoder: every byte minus its prediction from original bytes. */
  function FilterRow(filter: byte, row: Row, prev: Row): (filtered: Row)
    requires Supported(filter) && |row| == |prev|
    ensures |filtered| == |row|
  {
    seq(|row|, i requires 0 <= i < |row| => (row[i] - PredictAt(filter, row, prev, i)) % 256)
  }

  lemma {:induction false} SameByte(filter: byte, a: Row, b: Row, prev: Row, i: nat)
    requires Supported(filter) && |a| == |b| == |prev| && i < |a|
    requires FilterRow(filter, a, prev) == FilterRow(filter, b, prev)
    requires i >= 4 ==> a[i - 4] == b[i - 4]
    ensures a[i] == b[i]
  {
    assert FilterRow(filter, a, prev)[i] == FilterRow(filter, b, prev)[i];
  }

  lemma {:induction false} SamePrefix(filter: byte, a: Row, b: Row, prev: Row, n: nat)
    requires Supported(filter) && |a| == |b| == |prev| && n <= |a|
    requires FilterRow(filter, a, prev) == FilterRow(filter, b, prev)
    ensures a[..n] == b[..n]
  {
    if n == 0 {
    } else {
      SamePrefix(filter, a, b, prev, n - 1);
      var i := n - 1;
      if i >= 4 { assert a[..i][i - 4] == b[..i][i - 4]; }
      SameByte(filter, a, b, prev, i);
    }
  }

  /** Filtering loses nothing, whatever the filter and the row above. */
  lemma {:induction false} FilterInjective(filter: byte, a: Row, b: Row, prev: Row)
    requires Supported(filter) && |a| == |b| == |prev|
    requires FilterRow(filter, a, prev) == FilterRow(filter, b, prev)
    ensures a == b
  {
    SamePrefix(filter, a, b, prev, |a|);
    assert a[..|a|] == a && b[..|b|] == b;
  }

  // ---------------------------------------------------------------- the formulas of the standard

  /** The reconstruction of a byte from what was sent for it, by filter number. */
  function Reconstructed(filter: byte, sent: byte, left: byte, up: byte, upLeft: byte): int
    requires filter <= 4
  {
    if filter == 0 then sent
    else if filter == 1 then (sent + left) % 256
    else if filter == 2 then (sent + up) % 256
    else if filter == 3 then (sent + (left + up) / 2) % 256
    else (sent + Paeth(left, up, upLeft)) % 256
  }

  lemma {:induction false} ModuloUndone(x: byte, prediction: int, sent: byte)
    requires 0 <= prediction < 256
    ensures sent == (x - prediction) % 256 <==> x == (sent + prediction) % 256
  {
  }

  lemma {:induction false} SameFormula(filter: byte, sent: byte, left: byte, up: byte, upLeft: byte)
    requires filter <= 4
    ensures Reconstructed(filter, sent, left, up, upLeft) == (sent + Predict(filter, left, up, upLeft)) % 256
  {
  }

  /** Byte `i` of a row is the one that its formula gives, from the original bytes around it. */
  predicate Restores(filter: byte, row: Row, prev: Row, filtered: Row, i: nat)
    requires filter <= 4 && i < |row| == |prev| == |filtered|
  {
    var left, upLeft := if i >= 4 then row[i - 4] else 0, if i >= 4 then prev[i - 4] else 0;
    row[i] == Reconstructed(filter, filtered[i], left, prev[i], upLeft)
  }

  lemma {:induction false} RestoresExactly(filter: byte, row: Row, prev: Row, filtered: Row, i: nat)
    requires filter <= 4 && i < |row| == |prev| == |filtered|
    ensures FilterRow(filter, row, prev)[i] == filtered[i] <==> Restores(filter, row, prev, filtered, i)
  {
    var p := PredictAt(filter, row, prev, i);
    SameFormula(filter, filtered[i], Left(row, i), prev[i], Left(prev, i));
    ModuloUndone(row[i], p, filtered[i]);
  }

  /** A filtered row is one from which the formulas restore every byte of the row: None, Sub, Up,
      Average and Paeth, in the order of their numbers. */
  lemma {:induction false} FilterExactly(filter: byte, row: Row, prev: Row, filtered: Row)
    requires filter <= 4 && |row| == |prev| == |filtered|
    ensures FilterRow(filter, row, prev) == filtered
      <==> forall i :: 0 <= i < |row| ==> Restores(filter, row, prev, filtered, i)
  {
    forall i | 0 <= i < |row|
      ensures FilterRow(filter, row, prev)[i] == filtered[i] <==> Restores(filter, row, prev, filtered, i)
    {
      RestoresExactly(filter, row, prev, filtered, i);
    }
  }

  // ---------------------------------------------------------------- images

  function Above(rows: seq<Row>, y: nat, stride: nat): Row
    requires y <= |rows|
  {
    if y == 0 then seq(stride, i => 0) else rows[y - 1]
  }

  ghost predicate Image(rows: seq<Row>, stride: nat) {
    forall y :: 0 <= y < |rows| ==> |rows[y]| == stride
  }

  /** The encoder's stream: each row's filter byte and filtered bytes, top to bottom. */
  function FilterImage(filters: seq<byte>, rows: seq<Row>, stride: nat): (raw: seq<byte>)
    requires |filters| == |rows| && Image(rows, stride)
    requires forall y :: 0 <= y < |rows| ==> Supported(filters[y])
    ensures |raw| == Offset(|rows|, stride + 1)
  {
    if rows == [] then [] else
      var y := |rows| - 1;
      FilterImage(filters[..y], rows[..y], stride)
        + [filters[y]] + FilterRow(filters[y], rows[y], Above(rows, y, stride))
  }

  /** Row `y` of the stream is row `y` of the image under the filter the stream names. */
  ghost predicate EncodesRow(raw: seq<byte>, rows: seq<Row>, y: nat, stride: nat)
    requires y < |rows| && Image(rows, stride)
  {
    var pos := Offset(y, stride + 1);
    && pos + 1 + stride <= |raw| && Supported(raw[pos])
    && FilterRow(raw[pos], rows[y], Above(rows, y, stride)) == raw[pos + 1..pos + 1 + stride]
  }

  ghost predicate Encodes(raw: seq<byte>, rows: seq<Row>, stride: nat) {
    && Image(rows, stride) && |raw| == Offset(|rows|, stride + 1)
    && forall y :: 0 <= y < |rows| ==> EncodesRow(raw, rows, y, stride)
  }

  lemma {:induction false} EncodesRowExtends(raw: seq<byte>, rows: seq<Row>, y: nat, stride: nat, more: seq<byte>,
                                             row: Row)
    requires y < |rows| && Image(rows, stride) && |row| == stride && EncodesRow(raw, rows, y, stride)
    ensures Image(rows + [row], stride) && EncodesRow(raw + more, rows + [row], y, stride)
  {
    assert Above(rows + [row], y, stride) == Above(rows, y, stride);
  }

  /** A filter byte and a filtered row after a stream of `y` rows encode row `y`. */
  lemma {:induction false} LastRowEncoded(head: seq<byte>, filter: byte, filtered: Row, rows: seq<Row>, y: nat,
                                          stride: nat)
    requires y < |rows| && Image(rows, stride) && Supported(filter) && |head| == Offset(y, stride + 1)
    requires filtered == FilterRow(filter, rows[y], Above(rows, y, stride))
    ensures EncodesRow(head + ([filter] + filtered), rows, y, stride)
  {
    var raw := head + ([filter] + filtered);
    assert raw[|head|] == filter;
    assert raw[|head| + 1..|head| + 1 + stride] == filtered;
  }

  lemma {:induction false} OneRowEncoded(filters: seq<byte>, rows: seq<Row>, stride: nat, n: nat)
    requires |filters| == |rows| == n + 1 && Image(rows, stride) && Supported(filters[n])
    requires forall y :: 0 <= y < n ==> Supported(filters[..n][y])
    requires Encodes(FilterImage(filters[..n], rows[..n], stride), rows[..n], stride)
    ensures Encodes(FilterImage(filters, rows, stride), rows, stride)
  {
    var front, row, raw := rows[..n], rows[n], FilterImage(filters, rows, stride);
    var head, filtered := FilterImage(filters[..n], front, stride), FilterRow(filters[n], row, Above(rows, n, stride));
    assert rows == front + [row];
    assert raw == head + ([filters[n]] + filtered);
    forall y | 0 <= y < |rows| ensures EncodesRow(raw, rows, y, stride) {
      if y < n {
        EncodesRowExtends(head, front, y, stride, [filters[n]] + filtered, row);
      } else {
        LastRowEncoded(head, filters[n], filtered, rows, y, stride);
      }
    }
  }

  /** The encoder's stream encodes the image. */
  lemma {:induction false} EncoderEncodes(filters: seq<byte>, rows: seq<Row>, stride: nat)
    requires |filters| == |rows| && Image(rows, stride)
    requires forall y :: 0 <= y < |rows| ==> Supported(filters[y])
    ensures Encodes(FilterImage(filters, rows, stride), rows, stride)
  {
    if rows == [] {
    } else {
      var n := |rows| - 1;
      EncoderEncodes(filters[..n], rows[..n], stride);
      OneRowEncoded(filters, rows, stride, n);
    }
  }

  lemma {:induction false} SameRows(raw: seq<byte>, a: seq<Row>, b: seq<Row>, stride: nat, n: nat)
    requires Encodes(raw, a, stride) && Encodes(raw, b, stride) && |a| == |b| && n <= |a|
    ensures forall y :: 0 <= y < n ==> a[y] == b[y]
  {
    if n == 0 {
    } else {
      var y := n - 1;
      SameRows(raw, a, b, stride, y);
      assert EncodesRow(raw, a, y, stride) && EncodesRow(raw, b, y, stride);
      assert Above(a, y, stride) == Above(b, y, stride);
      FilterInjective(raw[Offset(y, stride + 1)], a[y], b[y], Above(a, y, stride));
    }
  }

  /** A stream encodes at most one image. */
  lemma {:induction false} EncodedImageUnique(raw: seq<byte>, a: seq<Row>, b: seq<Row>, stride: nat)
    requires Encodes(raw, a, stride) && Encodes(raw, b, stride) && |a| == |b|
    ensures a == b
  {
    SameRows(raw, a, b, stride, |a|);
  }

  // ---------------------------------------------------------------- the decoder

  /** The first `n` bytes are undone and the others still as read. */
  ghost predicate UndoneTo(filter: byte, row: Row, prev: Row, filtered: Row, n: nat)
    requires Supported(filter)
  {
    && n <= |row| == |prev| == |filtered|
    && (forall k :: 0 <= k < n ==> (row[k] - PredictAt(filter, row, prev, k)) % 256 == filtered[k])
    && (forall k :: n <= k < |row| ==> row[k] == filtered[k])
  }

  lemma {:induction false} UndoModulo(filtered: int, prediction: int, x: int)
    requires 0 <= filtered < 256 && x == (filtered + prediction) % 256
    ensures (x - prediction) % 256 == filtered
  {
  }

  /** Predictions up to byte `n` do not look at byte `n`. */
  lemma {:induction false} SamePrediction(filter: byte, row: Row, prev: Row, n: nat, x: byte, k: nat)
    requires Supported(filter) && k <= n < |row| == |prev|
    ensures PredictAt(filter, row[n := x], prev, k) == PredictAt(filter, row, prev, k)
  {
    assert Left(row[n := x], k) == Left(row, k);
  }

  lemma {:induction false} UndoOne(filter: byte, row: Row, prev: Row, filtered: Row, n: nat, x: byte)
    requires Supported(filter) && UndoneTo(filter, row, prev, filtered, n) && n < |row|
    requires x == (row[n] + PredictAt(filter, row, prev, n)) % 256
    ensures UndoneTo(filter, row[n := x], prev, filtered, n + 1)
  {
    var row' := row[n := x];
    UndoModulo(filtered[n], PredictAt(filter, row, prev, n), x);
    forall k | 0 <= k <= n ensures (row'[k] - PredictAt(filter, row', prev, k)) % 256 == filtered[k] {
      SamePrediction(filter, row, prev, n, x, k);
      assert row'[k] == if k == n then x else row[k];
    }
  }

  method UndoByte(filter: byte, x: byte, left: byte, up: byte, upLeft: byte) returns (r: byte)
    requires Supported(filter)
    ensures r == (x + Predict(filter, left, up, upLeft)) % 256
  {
    var v: int, l: int := x, left;
    if filter == 1 {
      v := (v + left) % 256;
    } else if filter == 2 {
      v := (v + up) % 256;
    } else if filter == 3 {
      v := (v + (l + up) / 2) % 256;
    } else if filter == 4 {
      v := (v + Paeth(left, up, upLeft)) % 256;
    }
    r := v;
  }

  /** One row, byte by byte in place.  An unknown filter is noticed only when there is a byte
      to undo. */
  method UnfilterRow(filter: byte, filtered: Row, prev: Row) returns (ok: bool, out: Row)
    requires |filtered| == |prev|
    ensures ok <==> Supported(filter) || filtered == []
    ensures ok ==> |out| == |filtered|
    ensures ok && Supported(filter) ==> FilterRow(filter, out, prev) == filtered
  {
    var row := new byte[|filtered|](i requires 0 <= i < |filtered| => filtered[i]);
    assert row[..] == filtered;
    for i := 0 to |filtered|
      invariant i > 0 ==> Supported(filter)
      invariant Supported(filter) ==> UndoneTo(filter, row[..], prev, filtered, i)
    {
      if !Supported(filter) {
        return false, [];
      }
      ghost var was := row[..];
      var left, upLeft := if i >= 4 then row[i - 4] else 0, if i >= 4 then prev[i - 4] else 0;
      row[i] := UndoByte(filter, row[i], left, prev[i], upLeft);
      UndoOne(filter, was, prev, filtered, i, row[i]);
      assert row[..] == was[i := row[i]];
    }
    return true, row[..];
  }

  /** The filter byte of row `y`. */
  function FilterByte(raw: seq<byte>, y: nat, height: nat, stride: nat): byte
    requires |raw| == Offset(height, stride + 1) && y < height
  {
    OffsetGrows(y, height, stride + 1);
    raw[Offset(y, stride + 1)]
  }

  ghost predicate FiltersSupported(raw: seq<byte>, height: nat, stride: nat)
    requires |raw| == Offset(height, stride + 1)
  {
    forall y :: 0 <= y < height ==> Supported(FilterByte(raw, y, height, stride))
  }

  /** The rows decoded so far encode what was read. */
  ghost predicate DecodedSoFar(raw: seq<byte>, rows: seq<Row>, height: nat, stride: nat)
    requires |raw| == Offset(height, stride + 1) && |rows| <= height && Image(rows, stride)
  {
    forall k :: 0 <= k < |rows| ==> EncodesRow(raw, rows, k, stride) && Supported(FilterByte(raw, k, height, stride))
  }

  lemma {:induction false} OneMoreDecoded(raw: seq<byte>, rows: seq<Row>, height: nat, stride: nat, row: Row)
    requires |raw| == Offset(height, stride + 1) && |rows| < height && Image(rows, stride) && |row| == stride
    requires DecodedSoFar(raw, rows, height, stride)
    requires Image(rows + [row], stride) && EncodesRow(raw, rows + [row], |rows|, stride)
    ensures DecodedSoFar(raw, rows + [row], height, stride)
  {
    assert raw + [] == raw;
    forall k | 0 <= k < |rows| ensures EncodesRow(raw, rows + [row], k, stride) {
      EncodesRowExtends(raw, rows, k, stride, [], row);
    }
  }

  /** The decoder succeeds exactly when the length is right and every filter byte is known (or rows
      are empty), and the stream encodes what it returns. */
  method Unfilter(raw: seq<byte>, width: nat, height: nat) returns (r: Decoded)
    ensures r == WrongLength <==> |raw| != height * (width * 4 + 1)
    ensures |raw| == height * (width * 4 + 1) ==>
      && |raw| == Offset(height, width * 4 + 1)
      && (r.Rows? <==> width == 0 || FiltersSupported(raw, height, width * 4))
      && (r.Rows? ==> |r.rows| == height && Image(r.rows, width * 4))
      && (r.Rows? && width > 0 ==> Encodes(raw, r.rows, width * 4))
  {
    var stride := width * 4;
    OffsetIsProduct(height, stride + 1);
    if |raw| != height * (stride + 1) {
      return WrongLength;
    }
    var rows: seq<Row>, pos := [], 0;
    for y := 0 to height
      invariant pos == Offset(y, stride + 1) && |rows| == y && Image(rows, stride)
      invariant width > 0 ==> DecodedSoFar(raw, rows, height, stride)
    {
      OffsetGrows(y, height, stride + 1);
      var filter, filtered := raw[pos], raw[pos + 1..pos + 1 + stride];
      var prev := if rows == [] then seq(stride, i => 0) else rows[|rows| - 1];
      var ok, row := UnfilterRow(filter, filtered, prev);
      if !ok {
        assert !Supported(FilterByte(raw, y, height, stride));
        return UnsupportedFilter;
      }
      if width > 0 {
        assert prev == Above(rows + [row], y, stride);
        OneMoreDecoded(raw, rows, height, stride, row);
      }
      rows := rows + [row];
      pos := pos + 1 + stride;
    }
    return Rows(rows);
  }

  /** Exactly the filters 0 to 4 are known. */
  lemma {:induction false} KnownFilters(raw: seq<byte>, height: nat, stride: nat)
    requires |raw| == Offset(height, stride + 1)
    ensures FiltersSupported(raw, height, stride)
      <==> forall y :: 0 <= y < height ==> FilterByte(raw, y, height, stride) in [0, 1, 2, 3, 4]
  {
  }

  /** Byte `i` of row `y`, where there is one. */
  function ByteAt(rows: seq<Row>, y: int, i: int): byte {
    if 0 <= y < |rows| && 0 <= i < |rows[y]| then rows[y][i] else 0
  }

  /** A decoded image, byte by byte: each is reconstructed from the byte sent for it, the pixel to its
      left and the row above, with zeros outside the image. */
  lemma {:induction false} DecodedByte(raw: seq<byte>, rows: seq<Row>, stride: nat, y: nat, i: nat)
    requires Encodes(raw, rows, stride) && y < |rows| && i < stride
    ensures var at := Offset(y, stride + 1);
      && at + 1 + i < |raw| && raw[at] <= 4
      && rows[y][i] == Reconstructed(raw[at], raw[at + 1 + i], ByteAt(rows, y, i - 4), ByteAt(rows, y - 1, i),
                                     ByteAt(rows, y - 1, i - 4))
  {
    assert EncodesRow(raw, rows, y, stride);
    var at := Offset(y, stride + 1);
    RestoredByte(raw[at], rows[y], Above(rows, y, stride), raw[at + 1..at + 1 + stride], i);
    assert raw[at + 1..at + 1 + stride][i] == raw[at + 1 + i];
  }

  lemma {:induction false} RestoredByte(filter: byte, row: Row, prev: Row, filtered: Row, i: nat)
    requires filter <= 4 && i < |row| == |prev| == |filtered| && FilterRow(filter, row, prev) == filtered
    ensures Restores(filter, row, prev, filtered, i)
  {
    FilterExactly(filter, row, prev, filtered);
  }

  /** Whatever filters an encoder chooses, decoding its stream gives back the image. */
  method RoundTrip(filters: seq<byte>, rows: seq<Row>, width: nat) returns (r: Decoded)
    requires |filters| == |rows| && Image(rows, width * 4)
    requires forall y :: 0 <= y < |rows| ==> Supported(filters[y])
    ensures r == Rows(rows)
  {
    var raw := FilterImage(filters, rows, width * 4);
    OffsetIsProduct(|rows|, width * 4 + 1);
    r := Unfilter(raw, width, |rows|);
    EncoderEncodes(filters, rows, width * 4);
    forall y | 0 <= y < |rows| ensures Supported(FilterByte(raw, y, |rows|, width * 4)) {
      assert EncodesRow(raw, rows, y, width * 4);
    }
    if width > 0 {
      EncodedImageUnique(raw, rows, r.rows, width * 4);
    } else {
      assert forall y :: 0 <= y < |rows| ==> r.rows[y] == [] == rows[y];
    }
  }
}
