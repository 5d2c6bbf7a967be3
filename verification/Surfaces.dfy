/** Rectangles written into a surface of rows, and what its rows then show. */
module Surfaces {
  import opened RowOffsets

  /** Part of a surface: `bytes` from byte `at` on, in each of `rows` rows from `first` on. */
  datatype Area = Area(at: nat, first: nat, bytes: nat, rows: nat)

  /** Row `k` of the pixels sent for an area. */
  function Piece<T>(raw: seq<T>, bytes: nat, k: nat): (row: seq<T>)
    requires Offset(k, bytes) + bytes <= |raw|
    ensures |row| == bytes
  {
    Window(raw, Offset(k, bytes), bytes)
  }

  ghost predicate RowFits(length: nat, stride: nat, a: Area, k: nat) {
    Offset(a.first + k, stride) + a.at + a.bytes <= length
  }

  ghost predicate RowsFit<T>(length: nat, stride: nat, a: Area, raw: seq<T>, rows: nat) {
    Offset(rows, a.bytes) <= |raw| && (rows > 0 ==> RowFits(length, stride, a, rows - 1))
  }

  /** The buffer after the first `rows` rows of the area have been copied. */
  ghost function Patched<T>(buf: seq<T>, stride: nat, a: Area, raw: seq<T>, rows: nat): (s: seq<T>)
    requires RowsFit(|buf|, stride, a, raw, rows)
    ensures |s| == |buf|
  {
    if rows == 0 then buf
    else Splice(Patched(buf, stride, a, raw, rows - 1), Offset(a.first + rows - 1, stride) + a.at,
      Piece(raw, a.bytes, rows - 1))
  }

  lemma {:induction false} OneMoreRow<T>(buf: seq<T>, stride: nat, a: Area, raw: seq<T>, k: nat)
    requires Offset(k, a.bytes) + a.bytes <= |raw|
    requires RowsFit(|buf|, stride, a, raw, k) && RowFits(|buf|, stride, a, k)
    ensures RowsFit(|buf|, stride, a, raw, k + 1)
    ensures Patched(buf, stride, a, raw, k + 1)
      == Splice(Patched(buf, stride, a, raw, k), Offset(a.first + k, stride) + a.at, Piece(raw, a.bytes, k))
  {
  }

  /** The first `width` bytes of row `y`: what is visible of it. */
  function VisibleRow<T>(buf: seq<T>, stride: nat, width: nat, y: nat): (row: seq<T>)
    requires Offset(y, stride) + width <= |buf|
    ensures |row| == width
  {
    Window(buf, Offset(y, stride), width)
  }

  /** The buffer shows these rows; what follows each row does not matter. */
  ghost predicate Displays<T>(buf: seq<T>, stride: nat, width: nat, rows: seq<seq<T>>) {
    forall y :: 0 <= y < |rows| ==> Offset(y, stride) + width <= |buf| && rows[y] == VisibleRow(buf, stride, width, y)
  }

  ghost function RedrawnRow<T>(row: seq<T>, a: Area, raw: seq<T>, y: nat): (after: seq<T>)
    requires a.at + a.bytes <= |row| && |raw| == Offset(a.rows, a.bytes)
    ensures |after| == |row|
  {
    if a.first <= y < a.first + a.rows then
      OffsetGrows(y - a.first, a.rows, a.bytes);
      Splice(row, a.at, Piece(raw, a.bytes, y - a.first))
    else row
  }

  /** Rows with the pixels of an area replaced by those sent for it. */
  ghost function Redrawn<T>(rows: seq<seq<T>>, width: nat, a: Area, raw: seq<T>): (after: seq<seq<T>>)
    requires forall y :: 0 <= y < |rows| ==> |rows[y]| == width
    requires a.at + a.bytes <= width && |raw| == Offset(a.rows, a.bytes)
    ensures |after| == |rows|
    ensures forall y :: 0 <= y < |after| ==> |after[y]| == width
  {
    seq(|rows|, y requires 0 <= y < |rows| => RedrawnRow(rows[y], a, raw, y))
  }

  lemma {:induction false} SpliceElsewhere<T>(buf: seq<T>, at: nat, row: seq<T>, from: nat, n: nat)
    requires at + |row| <= |buf| && from + n <= |buf| && (from + n <= at || at + |row| <= from)
    ensures Window(Splice(buf, at, row), from, n) == Window(buf, from, n)
  {
  }

  lemma {:induction false} SpliceWithin<T>(buf: seq<T>, from: nat, width: nat, at: nat, row: seq<T>)
    requires from + width <= |buf| && at + |row| <= width
    ensures Window(Splice(buf, from + at, row), from, width) == Splice(Window(buf, from, width), at, row)
  {
  }

  lemma {:induction false} SpliceTwice<T>(buf: seq<T>, at: nat, row: seq<T>)
    requires at + |row| <= |buf|
    ensures Splice(Splice(buf, at, row), at, row) == Splice(buf, at, row)
  {
  }

  /** Writing into a row changes what it shows ... */
  lemma {:induction false} WrittenRow<T>(buf: seq<T>, stride: nat, width: nat, height: nat, at: nat, pixels: seq<T>,
                                         y: nat)
    requires width <= stride && at + |pixels| <= width && |buf| == Offset(height, stride) && y < height
    ensures Offset(y, stride) + width <= |buf|
    ensures VisibleRow(Splice(buf, Offset(y, stride) + at, pixels), stride, width, y)
      == Splice(VisibleRow(buf, stride, width, y), at, pixels)
  {
    OffsetGrows(y, height, stride);
    SpliceWithin(buf, Offset(y, stride), width, at, pixels);
  }

  /** ... and no other row. */
  lemma {:induction false} UnwrittenRow<T>(buf: seq<T>, stride: nat, width: nat, height: nat, at: nat, pixels: seq<T>,
                                           w: nat, y: nat)
    requires width <= stride && at + |pixels| <= width && |buf| == Offset(height, stride)
    requires y < height && w < height && w != y
    ensures Offset(y, stride) + width <= |buf| && Offset(w, stride) + at + |pixels| <= |buf|
    ensures VisibleRow(Splice(buf, Offset(w, stride) + at, pixels), stride, width, y)
      == VisibleRow(buf, stride, width, y)
  {
    OffsetGrows(y, height, stride);
    OffsetGrows(w, height, stride);
    var from, start := Offset(y, stride), Offset(w, stride) + at;
    if y < w { OffsetGrows(y, w, stride); } else { OffsetGrows(w, y, stride); }
    SpliceElsewhere(buf, start, pixels, from, width);
  }

  /** A row once the first `k` rows of the area have arrived. */
  ghost function RowSoFar<T>(row: seq<T>, a: Area, raw: seq<T>, k: nat, y: nat): (after: seq<T>)
    requires a.at + a.bytes <= |row| && |raw| == Offset(a.rows, a.bytes) && k <= a.rows
    ensures |after| == |row|
  {
    if y < a.first + k then RedrawnRow(row, a, raw, y) else row
  }

  lemma {:induction false} NextRowArrives<T>(row: seq<T>, a: Area, raw: seq<T>, k: nat, y: nat)
    requires a.at + a.bytes <= |row| && |raw| == Offset(a.rows, a.bytes) && k < a.rows
    ensures Offset(k, a.bytes) + a.bytes <= |raw|
    ensures RowSoFar(row, a, raw, k + 1, y)
      == if y == a.first + k then Splice(RowSoFar(row, a, raw, k, y), a.at, Piece(raw, a.bytes, k))
        else RowSoFar(row, a, raw, k, y)
  {
    OffsetGrows(k, a.rows, a.bytes);
  }

  /** Everything that lets row `k` of the area be copied. */
  lemma {:induction false} RowsInside(stride: nat, a: Area, height: nat, sent: nat, k: nat)
    requires a.at + a.bytes <= stride && a.first + a.rows <= height && sent == Offset(a.rows, a.bytes) && k < a.rows
    ensures Offset(k, a.bytes) + a.bytes <= sent
    ensures RowFits(Offset(height, stride), stride, a, k)
  {
    OffsetGrows(k, a.rows, a.bytes);
    OffsetGrows(a.first + k, height, stride);
  }

  /** Copying row `k` of the area moves every visible row from its state after `k` rows to the next. */
  lemma {:induction false} ThisRowArrives<T>(before: seq<T>, stride: nat, width: nat, height: nat, a: Area, raw: seq<T>,
                                             k: nat)
    requires width <= stride && |before| == Offset(height, stride)
    requires a.at + a.bytes <= width && a.first + a.rows <= height && |raw| == Offset(a.rows, a.bytes) && k < a.rows
    requires Offset(a.first + k, stride) + width <= |before|
    ensures Offset(k, a.bytes) + a.bytes <= |raw| && RowFits(|before|, stride, a, k)
    ensures var y := a.first + k;
      VisibleRow(Splice(before, Offset(y, stride) + a.at, Piece(raw, a.bytes, k)), stride, width, y)
      == Splice(VisibleRow(before, stride, width, y), a.at, Piece(raw, a.bytes, k))
  {
    RowsInside(stride, a, height, |raw|, k);
    WrittenRow(before, stride, width, height, a.at, Piece(raw, a.bytes, k), a.first + k);
  }

  lemma {:induction false} OtherRowStays<T>(before: seq<T>, stride: nat, width: nat, height: nat, a: Area, raw: seq<T>,
                                            k: nat, y: nat)
    requires width <= stride && |before| == Offset(height, stride) && y < height && y != a.first + k
    requires a.at + a.bytes <= width && a.first + a.rows <= height && |raw| == Offset(a.rows, a.bytes) && k < a.rows
    requires Offset(y, stride) + width <= |before|
    ensures Offset(k, a.bytes) + a.bytes <= |raw| && RowFits(|before|, stride, a, k)
    ensures VisibleRow(Splice(before, Offset(a.first + k, stride) + a.at, Piece(raw, a.bytes, k)), stride, width, y)
      == VisibleRow(before, stride, width, y)
  {
    RowsInside(stride, a, height, |raw|, k);
    UnwrittenRow(before, stride, width, height, a.at, Piece(raw, a.bytes, k), a.first + k, y);
  }

  lemma {:induction false} RowArrives<T>(row: seq<T>, before: seq<T>, stride: nat, width: nat, height: nat, a: Area,
                                         raw: seq<T>, k: nat, y: nat)
    requires width <= stride && |before| == Offset(height, stride) && y < height && |row| == width
    requires a.at + a.bytes <= width && a.first + a.rows <= height && |raw| == Offset(a.rows, a.bytes) && k < a.rows
    requires Offset(y, stride) + width <= |before|
    requires VisibleRow(before, stride, width, y) == RowSoFar(row, a, raw, k, y)
    ensures Offset(k, a.bytes) + a.bytes <= |raw| && RowFits(|before|, stride, a, k)
    ensures VisibleRow(Splice(before, Offset(a.first + k, stride) + a.at, Piece(raw, a.bytes, k)), stride, width, y)
      == RowSoFar(row, a, raw, k + 1, y)
  {
    RowsInside(stride, a, height, |raw|, k);
    NextRowArrives(row, a, raw, k, y);
    if y == a.first + k {
      ThisRowArrives(before, stride, width, height, a, raw, k);
    } else {
      OtherRowStays(before, stride, width, height, a, raw, k, y);
    }
  }

  lemma {:induction false} PatchedShows<T>(buf: seq<T>, stride: nat, width: nat, height: nat, a: Area, raw: seq<T>,
                                           y: nat)
    requires width <= stride && |buf| == Offset(height, stride) && y < height
    requires a.at + a.bytes <= width && a.first + a.rows <= height && |raw| == Offset(a.rows, a.bytes)
    ensures RowsFit(|buf|, stride, a, raw, a.rows) && Offset(y, stride) + width <= |buf|
    ensures VisibleRow(Patched(buf, stride, a, raw, a.rows), stride, width, y)
      == RedrawnRow(VisibleRow(buf, stride, width, y), a, raw, y)
  {
    OffsetGrows(y, height, stride);
    var row := VisibleRow(buf, stride, width, y);
    for k := 0 to a.rows
      invariant RowsFit(|buf|, stride, a, raw, k)
      invariant VisibleRow(Patched(buf, stride, a, raw, k), stride, width, y) == RowSoFar(row, a, raw, k, y)
    {
      RowArrives(row, Patched(buf, stride, a, raw, k), stride, width, height, a, raw, k, y);
      OneMoreRow(buf, stride, a, raw, k);
    }
  }

  /** The buffer is redrawn as the rows it shows are. */
  lemma {:induction false} PatchedDisplays<T>(buf: seq<T>, stride: nat, width: nat, a: Area, raw: seq<T>,
                                              rows: seq<seq<T>>)
    requires width <= stride && |buf| == Offset(|rows|, stride) && Displays(buf, stride, width, rows)
    requires a.at + a.bytes <= width && a.first + a.rows <= |rows| && |raw| == Offset(a.rows, a.bytes)
    ensures RowsFit(|buf|, stride, a, raw, a.rows)
    ensures Displays(Patched(buf, stride, a, raw, a.rows), stride, width, Redrawn(rows, width, a, raw))
  {
    if a.rows > 0 { RowsInside(stride, a, |rows|, |raw|, a.rows - 1); }
    forall y | 0 <= y < |rows|
      ensures Offset(y, stride) + width <= |buf|
      ensures Redrawn(rows, width, a, raw)[y] == VisibleRow(Patched(buf, stride, a, raw, a.rows), stride, width, y)
    {
      PatchedShows(buf, stride, width, |rows|, a, raw, y);
    }
  }

  /** The rows of a buffer, whatever is in it. */
  ghost function AllRows<T>(buf: seq<T>, stride: nat, width: nat, height: nat): (rows: seq<seq<T>>)
    requires width <= stride && |buf| == Offset(height, stride)
    ensures |rows| == height && Displays(buf, stride, width, rows)
  {
    EveryRowInside(stride, width, height);
    seq(height, y requires 0 <= y < height => VisibleRow(buf, stride, width, y))
  }

  lemma {:induction false} EveryRowInside(stride: nat, width: nat, height: nat)
    requires width <= stride
    ensures forall y :: 0 <= y < height ==> Offset(y, stride) + width <= Offset(height, stride)
  {
    forall y | 0 <= y < height
      ensures Offset(y, stride) + width <= Offset(height, stride)
    {
      OffsetGrows(y, height, stride);
    }
  }

  /** The rows of pixels sent for a whole surface. */
  ghost function Sent<T>(raw: seq<T>, width: nat, height: nat): (rows: seq<seq<T>>)
    requires |raw| == Offset(height, width)
    ensures |rows| == height && forall y :: 0 <= y < height ==> |rows[y]| == width
  {
    EveryRowInside(width, width, height);
    seq(height, y requires 0 <= y < height => Piece(raw, width, y))
  }

  /** An area that covers every row replaces whatever was there. */
  lemma {:induction false} FullRedraw<T>(rows: seq<seq<T>>, width: nat, raw: seq<T>)
    requires |raw| == Offset(|rows|, width)
    requires forall y :: 0 <= y < |rows| ==> |rows[y]| == width
    ensures Redrawn(rows, width, Area(0, 0, width, |rows|), raw) == Sent(raw, width, |rows|)
  {
    var a := Area(0, 0, width, |rows|);
    forall y | 0 <= y < |rows|
      ensures RedrawnRow(rows[y], a, raw, y) == Sent(raw, width, |rows|)[y]
    {
      OffsetGrows(y, |rows|, width);
    }
  }

  /** Redrawing the same area with the same pixels again changes nothing. */
  lemma {:induction false} RedrawnTwice<T>(rows: seq<seq<T>>, width: nat, a: Area, raw: seq<T>)
    requires forall y :: 0 <= y < |rows| ==> |rows[y]| == width
    requires a.at + a.bytes <= width && |raw| == Offset(a.rows, a.bytes)
    ensures Redrawn(Redrawn(rows, width, a, raw), width, a, raw) == Redrawn(rows, width, a, raw)
  {
    var once := Redrawn(rows, width, a, raw);
    forall y | 0 <= y < |rows|
      ensures RedrawnRow(once[y], a, raw, y) == once[y]
    {
      if a.first <= y < a.first + a.rows {
        OffsetGrows(y - a.first, a.rows, a.bytes);
        SpliceTwice(rows[y], a.at, Piece(raw, a.bytes, y - a.first));
      }
    }
  }
}
