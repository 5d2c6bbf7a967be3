/** The run-length encoding of RGBA pixels. */
module PixelRuns {
  import opened Bytes

  type Pixel = p: seq<byte> | |p| == 4 witness [0, 0, 0, 0]

  const MAX_RUN := 65535

  datatype Run = Run(count: nat, pixel: Pixel)

  function Copies(p: Pixel, n: nat): (s: seq<byte>)
    ensures |s| == 4 * n
  {
    if n == 0 then [] else p + Copies(p, n - 1)
  }

  /** What a list of runs stands for. */
  function Expand(runs: seq<Run>): seq<byte> {
    if runs == [] then [] else Copies(runs[0].pixel, runs[0].count) + Expand(runs[1..])
  }

  /** Run lengths fit the file, and a run is followed by one of the same pixel only if full. */
  ghost predicate Canonical(runs: seq<Run>) {
    && (forall k :: 0 <= k < |runs| ==> 1 <= runs[k].count <= MAX_RUN)
    && (forall k :: 0 <= k < |runs| - 1 && runs[k].pixel == runs[k + 1].pixel ==> runs[k].count == MAX_RUN)
  }

  lemma {:induction false} ExpandConcat(a: seq<Run>, b: seq<Run>)
    ensures Expand(a + b) == Expand(a) + Expand(b)
  {
    if a == [] {
      assert a + b == b;
    } else {
      assert (a + b)[1..] == a[1..] + b;
      ExpandConcat(a[1..], b);
    }
  }

  lemma {:induction false} CopiesSplit(p: Pixel, m: nat, n: nat)
    ensures Copies(p, m + n) == Copies(p, m) + Copies(p, n)
  {
    if m == 0 {
    } else {
      CopiesSplit(p, m - 1, n);
    }
  }

  // ---------------------------------------------------------------- uniqueness

  lemma {:induction false} FirstPixel(runs: seq<Run>)
    requires Canonical(runs) && runs != []
    ensures |Expand(runs)| >= 4 && Expand(runs)[..4] == runs[0].pixel
  {
  }

  lemma {:induction false} InsideRun(p: Pixel, n: nat, rest: seq<byte>, c: nat)
    requires c < n
    ensures |Copies(p, n) + rest| >= 4 * c + 4 && (Copies(p, n) + rest)[4 * c..4 * c + 4] == p
  {
    CopiesSplit(p, c, n - c);
    assert (Copies(p, n) + rest)[4 * c..4 * c + 4] == Copies(p, n - c)[..4];
  }

  lemma {:induction false} AfterRun(runs: seq<Run>)
    requires Canonical(runs) && runs != []
    ensures |Expand(runs)| >= 4 * runs[0].count && Expand(runs)[4 * runs[0].count..] == Expand(runs[1..])
    ensures |runs| == 1 ==> |Expand(runs)| == 4 * runs[0].count
    ensures |runs| > 1 ==>
      |Expand(runs)| >= 4 * runs[0].count + 4
      && Expand(runs)[4 * runs[0].count..4 * runs[0].count + 4] == runs[1].pixel
  {
    var c := runs[0].count;
    if |runs| > 1 {
      assert Canonical(runs[1..]);
      FirstPixel(runs[1..]);
      assert Expand(runs)[4 * c..4 * c + 4] == Expand(runs[1..])[..4];
    }
  }

  /** A canonical list cannot stop a run early and go on with the same pixel. */
  lemma {:induction false} RunEndsThere(runs: seq<Run>, rest: seq<byte>, n: nat)
    requires Canonical(runs) && runs != [] && runs[0].count < n <= MAX_RUN
    ensures Expand(runs) != Copies(runs[0].pixel, n) + rest
  {
    InsideRun(runs[0].pixel, n, rest, runs[0].count);
    AfterRun(runs);
  }

  lemma {:induction false} SameFirst(a: seq<Run>, b: seq<Run>)
    requires Canonical(a) && Canonical(b) && a != [] && b != [] && Expand(a) == Expand(b)
    ensures a[0] == b[0]
  {
    FirstPixel(a);
    FirstPixel(b);
    if a[0].count < b[0].count { RunEndsThere(a, Expand(b[1..]), b[0].count); }
    if b[0].count < a[0].count { RunEndsThere(b, Expand(a[1..]), a[0].count); }
  }

  lemma {:induction false} SameRest(a: seq<Run>, b: seq<Run>)
    requires Canonical(a) && Canonical(b) && a != [] && b != [] && Expand(a) == Expand(b) && a[0] == b[0]
    ensures Canonical(a[1..]) && Canonical(b[1..]) && Expand(a[1..]) == Expand(b[1..])
  {
    AfterRun(a);
    AfterRun(b);
  }

  /** Two canonical lists for the same pixels are the same list. */
  lemma {:induction false} CanonicalIsUnique(a: seq<Run>, b: seq<Run>)
    requires Canonical(a) && Canonical(b) && Expand(a) == Expand(b)
    ensures a == b
    decreases |a|
  {
    if a == [] || b == [] {
      if a != [] { FirstPixel(a); }
      if b != [] { FirstPixel(b); }
    } else {
      SameFirst(a, b);
      SameRest(a, b);
      CanonicalIsUnique(a[1..], b[1..]);
      assert a == [a[0]] + a[1..] && b == [b[0]] + b[1..];
    }
  }

  // ---------------------------------------------------------------- bytes in the file

  function PackRun(r: Run): (s: seq<byte>)
    requires r.count <= MAX_RUN
    ensures |s| == 6
  {
    [r.count % 256, r.count / 256] + r.pixel
  }

  function Pack(runs: seq<Run>): (s: seq<byte>)
    requires forall k :: 0 <= k < |runs| ==> runs[k].count <= MAX_RUN
    ensures |s| == 6 * |runs|
  {
    if runs == [] then [] else PackRun(runs[0]) + Pack(runs[1..])
  }

  function Count16(low: int, high: int): (n: nat)
    requires low >= 0 && high >= 0
  {
    low + 256 * high
  }

  function Unpack(s: seq<byte>): (runs: seq<Run>) {
    if |s| < 6 then [] else [Run(Count16(s[0], s[1]), s[2..6])] + Unpack(s[6..])
  }

  /** A reader of the file sees exactly the runs that were written. */
  lemma {:induction false} UnpackPack(runs: seq<Run>)
    requires forall k :: 0 <= k < |runs| ==> runs[k].count <= MAX_RUN
    ensures Unpack(Pack(runs)) == runs
  {
    if runs == [] {
    } else {
      var s, head := Pack(runs), PackRun(runs[0]);
      UnpackPack(runs[1..]);
      assert s[6..] == Pack(runs[1..]);
      assert s[2..6] == head[2..6] == runs[0].pixel;
      assert s[0] == head[0] && s[1] == head[1];
    }
  }

  /** A count is what two bytes hold. */
  lemma {:induction false} CountFits(n: nat)
    ensures n <= MAX_RUN <==> n < 256 * 256
  {
  }

  lemma {:induction false} PackTail(head: seq<byte>, rest: seq<byte>, at: nat)
    requires |head| == 6 && at + 6 <= |rest|
    ensures (head + rest)[at + 6] == rest[at] && (head + rest)[at + 7] == rest[at + 1]
    ensures (head + rest)[at + 8..at + 12] == rest[at + 2..at + 6]
  {
  }

  /** Six bytes for each run: its count, low byte first, and its pixel. */
  lemma {:induction false} PackedLayout(runs: seq<Run>, k: nat, at: nat)
    requires forall i :: 0 <= i < |runs| ==> runs[i].count <= MAX_RUN
    requires k < |runs| && at == 6 * k
    ensures var s := Pack(runs);
      (s[at] as int) + 256 * (s[at + 1] as int) == runs[k].count && s[at + 2..at + 6] == runs[k].pixel
  {
    var head, rest := PackRun(runs[0]), Pack(runs[1..]);
    if k == 0 {
      assert head[2..6] == runs[0].pixel && (head + rest)[2..6] == head[2..6];
    } else {
      PackedLayout(runs[1..], k - 1, at - 6);
      PackTail(head, rest, at - 6);
    }
  }

  lemma {:induction false} PackSnoc(runs: seq<Run>, r: Run)
    requires forall k :: 0 <= k < |runs| ==> runs[k].count <= MAX_RUN
    requires r.count <= MAX_RUN
    ensures Pack(runs + [r]) == Pack(runs) + PackRun(r)
  {
    if runs == [] {
      assert Pack([r]) == PackRun(r) + Pack([]);
      assert [] + [r] == [r];
    } else {
      assert (runs + [r])[1..] == runs[1..] + [r];
      PackSnoc(runs[1..], r);
    }
  }

  lemma {:induction false} ExpandLength(runs: seq<Run>)
    requires forall k :: 0 <= k < |runs| ==> 1 <= runs[k].count
    ensures 4 * |runs| <= |Expand(runs)|
  {
    if runs == [] {
    } else {
      ExpandLength(runs[1..]);
    }
  }

  /** `r` is the run that starts at `pos`: as long as the pixels and the limit allow. */
  predicate RunAt(rgba: seq<byte>, pos: nat, r: Run) {
    var end := pos + 4 * r.count;
    && 1 <= r.count <= MAX_RUN && end <= |rgba|
    && rgba[pos..end] == Copies(r.pixel, r.count)
    && (r.count == MAX_RUN || end + 4 > |rgba| || rgba[end..end + 4] != r.pixel)
  }

  /** The inner loop: how often the pixel at `pos` repeats, up to the longest run. */
  lemma {:induction false} CopiesExtend(rgba: seq<byte>, pos: nat, next: nat, pixel: Pixel, count: nat)
    requires pos <= next && next + 4 <= |rgba|
    requires rgba[pos..next] == Copies(pixel, count) && rgba[next..next + 4] == pixel
    ensures rgba[pos..next + 4] == Copies(pixel, count + 1)
  {
    OneCopy(pixel);
    CopiesSplit(pixel, count, 1);
    assert rgba[pos..next + 4] == rgba[pos..next] + rgba[next..next + 4];
  }

  lemma {:induction false} OneCopy(pixel: Pixel)
    ensures Copies(pixel, 1) == pixel
  {
    assert Copies(pixel, 1) == pixel + Copies(pixel, 0);
  }

  method NextRun(rgba: seq<byte>, pos: nat) returns (r: Run)
    requires |rgba| % 4 == 0 && pos % 4 == 0 && pos < |rgba|
    ensures RunAt(rgba, pos, r) && r.pixel == rgba[pos..pos + 4]
  {
    var pixel: Pixel, count, next := rgba[pos..pos + 4], 1, pos + 4;
    OneCopy(pixel);
    while next < |rgba| && count < MAX_RUN && rgba[next..next + 4] == pixel
      invariant 1 <= count <= MAX_RUN && next == pos + 4 * count <= |rgba|
      invariant rgba[pos..next] == Copies(pixel, count)
    {
      CopiesExtend(rgba, pos, next, pixel, count);
      count := count + 1;
      next := next + 4;
    }
    return Run(count, pixel);
  }

  lemma {:induction false} CanonicalSnoc(runs: seq<Run>, r: Run)
    requires Canonical(runs) && 1 <= r.count <= MAX_RUN
    requires runs != [] && runs[|runs| - 1].pixel == r.pixel ==> runs[|runs| - 1].count == MAX_RUN
    ensures Canonical(runs + [r])
  {
  }

  /** The last run does not go on at `pos` unless it is full. */
  predicate Stops(rgba: seq<byte>, pos: nat, runs: seq<Run>) {
    runs != [] && pos + 4 <= |rgba| && runs[|runs| - 1].pixel == rgba[pos..pos + 4] ==>
      runs[|runs| - 1].count == MAX_RUN
  }

  /** `chunks` are the packed canonical runs of everything before `pos`, and the last of
      them does not go on there. */
  ghost predicate EncodedTo(rgba: seq<byte>, pos: nat, chunks: seq<byte>, runs: seq<Run>) {
    && pos <= |rgba| && Canonical(runs) && Expand(runs) == rgba[..pos] && chunks == Pack(runs)
    && Stops(rgba, pos, runs)
  }

  lemma {:induction false} RunStops(rgba: seq<byte>, pos: nat, runs: seq<Run>, r: Run)
    requires RunAt(rgba, pos, r)
    ensures Stops(rgba, pos + 4 * r.count, runs + [r])
  {
  }

  lemma {:induction false} ExpandSnoc(runs: seq<Run>, r: Run)
    ensures Expand(runs + [r]) == Expand(runs) + Copies(r.pixel, r.count)
  {
    ExpandConcat(runs, [r]);
    assert Expand([r]) == Copies(r.pixel, r.count) + Expand([]) == Copies(r.pixel, r.count);
  }

  lemma {:induction false} RunExpands(rgba: seq<byte>, pos: nat, end: nat, runs: seq<Run>, r: Run)
    requires pos <= end <= |rgba| && Expand(runs) == rgba[..pos] && rgba[pos..end] == Copies(r.pixel, r.count)
    ensures Expand(runs + [r]) == rgba[..end]
  {
    ExpandSnoc(runs, r);
    assert rgba[..end] == rgba[..pos] + rgba[pos..end];
  }

  lemma {:induction false} RunWritten(rgba: seq<byte>, pos: nat, chunks: seq<byte>, runs: seq<Run>, r: Run, end: nat,
                                      longer: seq<byte>, more: seq<Run>)
    requires Canonical(runs) && Canonical(more) && r.count <= MAX_RUN && more == runs + [r]
    requires pos <= end <= |rgba| && chunks == Pack(runs) && longer == chunks + PackRun(r)
    requires Expand(runs) == rgba[..pos] && rgba[pos..end] == Copies(r.pixel, r.count)
    requires Stops(rgba, end, more)
    ensures EncodedTo(rgba, end, longer, more)
  {
    PackSnoc(runs, r);
    RunExpands(rgba, pos, end, runs, r);
  }

  lemma {:induction false} StaysCanonical(rgba: seq<byte>, pos: nat, runs: seq<Run>, r: Run)
    requires Canonical(runs) && Stops(rgba, pos, runs) && 1 <= r.count <= MAX_RUN
    requires pos + 4 <= |rgba| && r.pixel == rgba[pos..pos + 4]
    ensures Canonical(runs + [r])
  {
    CanonicalSnoc(runs, r);
  }

  lemma {:induction false} OneRun(rgba: seq<byte>, pos: nat, chunks: seq<byte>, runs: seq<Run>, r: Run)
    requires EncodedTo(rgba, pos, chunks, runs) && RunAt(rgba, pos, r)
    requires pos + 4 <= |rgba| && r.pixel == rgba[pos..pos + 4]
    ensures EncodedTo(rgba, pos + 4 * r.count, chunks + PackRun(r), runs + [r])
  {
    StaysCanonical(rgba, pos, runs, r);
    RunStops(rgba, pos, runs, r);
    RunWritten(rgba, pos, chunks, runs, r, pos + 4 * r.count, chunks + PackRun(r), runs + [r]);
  }

  lemma {:induction false} AllEncoded(rgba: seq<byte>, chunks: seq<byte>, runs: seq<Run>)
    requires EncodedTo(rgba, |rgba|, chunks, runs)
    ensures Expand(runs) == rgba && 2 * |chunks| <= 3 * |rgba|
  {
    assert rgba[..|rgba|] == rgba;
    ExpandLength(runs);
  }

  lemma {:induction false} Aligned(pos: nat, size: nat, count: nat)
    requires pos % 4 == 0 && size % 4 == 0 && pos < size
    ensures pos + 4 <= size && (pos + 4 * count) % 4 == 0
  {
  }

  /** One turn of the loop of `EncodeRuns`. */
  method WriteRun(rgba: seq<byte>, chunks: seq<byte>, ghost runs: seq<Run>, pos: nat)
    returns (longer: seq<byte>, ghost more: seq<Run>, next: nat)
    requires |rgba| % 4 == 0 && pos % 4 == 0 && pos < |rgba|
    requires EncodedTo(rgba, pos, chunks, runs)
    ensures next % 4 == 0 && pos < next && EncodedTo(rgba, next, longer, more)
  {
    var r := NextRun(rgba, pos);
    Aligned(pos, |rgba|, r.count);
    OneRun(rgba, pos, chunks, runs, r);
    longer, more, next := chunks + PackRun(r), runs + [r], pos + 4 * r.count;
  }

  /** The encoder writes the canonical runs of the image, in at most three halves of its size. */
  method EncodeRuns(rgba: seq<byte>) returns (chunks: seq<byte>, ghost runs: seq<Run>)
    requires |rgba| % 4 == 0
    ensures Canonical(runs) && Expand(runs) == rgba
    ensures chunks == Pack(runs)
    ensures 2 * |chunks| <= 3 * |rgba|
  {
    chunks, runs := [], [];
    var pos := 0;
    while pos < |rgba|
      invariant pos % 4 == 0 && EncodedTo(rgba, pos, chunks, runs)
      decreases |rgba| - pos
    {
      chunks, runs, pos := WriteRun(rgba, chunks, runs, pos);
    }
    AllEncoded(rgba, chunks, runs);
  }
}
