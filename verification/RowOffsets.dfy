/** Row starts in a buffer of equally long rows, by addition instead of multiplication. */
module RowOffsets {

  function Offset(y: nat, stride: nat): (o: nat) {
    if y == 0 then 0 else Offset(y - 1, stride) + stride
  }

  lemma {:induction false} OffsetIsProduct(y: nat, stride: nat)
    ensures Offset(y, stride) == y * stride
  {
    if y == 0 {
    } else {
      OffsetIsProduct(y - 1, stride);
      assert y * stride == (y - 1) * stride + stride;
    }
  }

  /** Rows follow each other: a later row starts after an earlier one has ended. */
  lemma {:induction false} OffsetGrows(y: nat, height: nat, stride: nat)
    requires y <= height
    ensures Offset(y, stride) <= Offset(height, stride)
    ensures y < height ==> Offset(y, stride) + stride <= Offset(height, stride)
  {
    if y == height {
    } else {
      OffsetGrows(y, height - 1, stride);
    }
  }

  lemma {:induction false} NarrowerIsSmaller(rows: nat, narrow: nat, wide: nat)
    requires narrow <= wide
    ensures Offset(rows, narrow) <= Offset(rows, wide)
  {
    if rows == 0 {
    } else {
      NarrowerIsSmaller(rows - 1, narrow, wide);
    }
  }

  /** `n` elements from `from` on. */
  function Window<T>(s: seq<T>, from: nat, n: nat): (w: seq<T>)
    requires from + n <= |s|
    ensures |w| == n && forall i :: 0 <= i < n ==> w[i] == s[from + i]
  {
    seq(n, i requires 0 <= i < n => s[from + i])
  }

  lemma {:induction false} WindowIsSlice<T>(s: seq<T>, from: nat, n: nat)
    requires from + n <= |s|
    ensures Window(s, from, n) == s[from..from + n]
  {
  }

  /** `s` with `part` written at `at`. */
  function Splice<T>(s: seq<T>, at: nat, part: seq<T>): (r: seq<T>)
    requires at + |part| <= |s|
    ensures |r| == |s| && forall i :: 0 <= i < |s| ==> r[i] == if at <= i < at + |part| then part[i - at] else s[i]
  {
    seq(|s|, i requires 0 <= i < |s| => if at <= i < at + |part| then part[i - at] else s[i])
  }
}
