/** RGB565 scanout rows expanded to packed RGBA, per pixel, in blocks of sixteen, and on vector lanes. */
module PixelConversion {
  import opened RowOffsets

  type Quad = q: seq<bv8> | |q| == 4 witness [0, 0, 0, 0]

  /** The four bytes that two bytes of a row turn into. */
  type Expansion = (bv8, bv8) -> Quad

  // ---------------------------------------------------------------- one pixel

  function Word(lo: bv8, hi: bv8): bv16 {
    (lo as bv16) | ((hi as bv16) << 8)
  }

  function Low(w: bv16): bv8 {
    (w & 0xff) as bv8
  }

  function High(w: bv16): bv8 {
    (w >> 8) as bv8
  }

  function Rgba(lo: bv8, hi: bv8): (c: Quad) {
    var value := Word(lo, hi);
    var red := (value >> 11) & 0x1f;
    var green := (value >> 5) & 0x3f;
    var blue := value & 0x1f;
    [Low((red << 3) | (red >> 2)), Low((green << 2) | (green >> 4)), Low((blue << 3) | (blue >> 2)), 0xff]
  }

  /** The arithmetic form of the same colour: quotients and remainders instead of bits. */
  function Reference(value: bv16): (c: Quad) {
    var red, green, blue := value / 2048, value / 32 % 64, value % 32;
    [Low(red * 8 + red / 4), Low(green * 4 + green / 16), Low(blue * 8 + blue / 4), 255]
  }

  lemma {:induction false} MatchesReference(lo: bv8, hi: bv8)
    ensures Rgba(lo, hi) == Reference(Word(lo, hi))
  {
  }

  /** Every colour can be packed again without loss. */
  function Packed(red: bv8, green: bv8, blue: bv8): bv16 {
    ((red as bv16 >> 3) << 11) | ((green as bv16 >> 2) << 5) | (blue as bv16 >> 3)
  }

  lemma {:induction false} PackedAgain(lo: bv8, hi: bv8)
    ensures Packed(Rgba(lo, hi)[0], Rgba(lo, hi)[1], Rgba(lo, hi)[2]) == Word(lo, hi)
  {
  }

  lemma {:induction false} WordBytes(lo: bv8, hi: bv8)
    ensures Low(Word(lo, hi)) == lo && High(Word(lo, hi)) == hi
  {
  }

  /** Two different pixels never look the same. */
  lemma {:induction false} RgbaInjective(lo: bv8, hi: bv8, lo': bv8, hi': bv8)
    requires Rgba(lo, hi) == Rgba(lo', hi')
    ensures lo == lo' && hi == hi'
  {
    PackedAgain(lo, hi);
    PackedAgain(lo', hi');
    WordBytes(lo, hi);
    WordBytes(lo', hi');
  }

  // ---------------------------------------------------------------- a run of pixels

  /** The first `n` pixels of a row one after the other, each expanded by `f`. */
  function Spread(row: seq<bv8>, n: nat, f: Expansion): (c: seq<bv8>)
    requires 2 * n <= |row|
    ensures |c| == 4 * n
  {
    if n == 0 then [] else Spread(row, n - 1, f) + f(row[2 * n - 2], row[2 * n - 1])
  }

  /** Pixels can be expanded in pieces. */
  lemma {:induction false} SpreadPieces(row: seq<bv8>, x: nat, n: nat, f: Expansion)
    requires 2 * x + 2 * n <= |row|
    ensures Spread(row, x + n, f) == Spread(row, x, f) + Spread(row[2 * x..], n, f)
  {
    if n > 0 {
      SpreadPieces(row, x, n - 1, f);
      var rest := row[2 * x..];
      assert rest[2 * n - 2] == row[2 * (x + n) - 2] && rest[2 * n - 1] == row[2 * (x + n) - 1];
    }
  }

  lemma {:induction false} SpreadReadsPrefix(row: seq<bv8>, other: seq<bv8>, n: nat, f: Expansion)
    requires 2 * n <= |row| && 2 * n <= |other|
    requires forall k :: 0 <= k < 2 * n ==> row[k] == other[k]
    ensures Spread(row, n, f) == Spread(other, n, f)
  {
    if n > 0 { SpreadReadsPrefix(row, other, n - 1, f); }
  }

  lemma {:induction false} SliceOfFirst<T>(a: seq<T>, b: seq<T>, from: nat, to: nat)
    requires from <= to <= |a|
    ensures (a + b)[from..to] == a[from..to]
  {
  }

  lemma {:induction false} SliceOfSecond<T>(a: seq<T>, b: seq<T>, from: nat, to: nat)
    requires from <= to <= |b|
    ensures (a + b)[|a| + from..|a| + to] == b[from..to]
  {
  }

  lemma {:induction false} ColourAt(row: seq<bv8>, n: nat, x: nat, f: Expansion)
    requires 2 * n <= |row| && x < n
    ensures Spread(row, n, f)[4 * x..4 * x + 4] == f(row[2 * x], row[2 * x + 1])
  {
    var before, last := Spread(row, n - 1, f), f(row[2 * n - 2], row[2 * n - 1]);
    if x == n - 1 {
      SliceOfSecond(before, last, 0, 4);
    } else {
      ColourAt(row, n - 1, x, f);
      SliceOfFirst(before, last, 4 * x, 4 * x + 4);
    }
  }

  /** The `n` pixels at the front of a row, one by one. */
  method ScalarPixels(row: seq<bv8>, n: nat) returns (output: seq<bv8>)
    requires 2 * n <= |row|
    ensures output == Spread(row, n, Rgba)
  {
    output := [];
    for x := 0 to n
      invariant output == Spread(row, x, Rgba)
    {
      output := output + Rgba(row[2 * x], row[2 * x + 1]);
    }
  }

  method Rgb565BlockScalar(block: seq<bv8>) returns (output: seq<bv8>)
    requires |block| == 32
    ensures output == Spread(block, 16, Rgba)
  {
    output := ScalarPixels(block, 16);
  }

  // ---------------------------------------------------------------- vector lanes

  /** Little-endian words of a byte vector. */
  function Words(bytes: seq<bv8>): (w: seq<bv16>)
    ensures |w| == |bytes| / 2
  {
    if |bytes| < 2 then [] else [Word(bytes[0], bytes[1])] + Words(bytes[2..])
  }

  function ToBytes(words: seq<bv16>): (b: seq<bv8>)
    ensures |b| == 2 * |words|
  {
    if words == [] then [] else [Low(words[0]), High(words[0])] + ToBytes(words[1..])
  }

  function Zip(a: seq<bv16>, b: seq<bv16>): (z: seq<bv16>)
    requires |a| == |b|
    ensures |z| == 2 * |a|
  {
    if a == [] then [] else [a[0], b[0]] + Zip(a[1..], b[1..])
  }

  function Lanes(f: bv16 -> bv16, words: seq<bv16>): (w: seq<bv16>)
    ensures |w| == |words|
  {
    if words == [] then [] else [f(words[0])] + Lanes(f, words[1..])
  }

  function RedGreen(pixel: bv16): bv16 {
    var red, green := pixel >> 11, (pixel >> 5) & 63;
    ((red << 3) | (red >> 2)) | (((green << 2) | (green >> 4)) << 8)
  }

  function BlueAlpha(pixel: bv16): bv16 {
    var blue := pixel & 31;
    ((blue << 3) | (blue >> 2)) | 0xff00
  }

  /** The two lanes of a pixel hold the four bytes of its colour. */
  lemma {:induction false} LanesHoldColour(lo: bv8, hi: bv8)
    ensures var p := Word(lo, hi);
      [Low(RedGreen(p)), High(RedGreen(p)), Low(BlueAlpha(p)), High(BlueAlpha(p))] == Rgba(lo, hi)
  {
  }

  lemma {:induction false} InterleavedLanes(bytes: seq<bv8>, n: nat)
    requires |bytes| == 2 * n
    ensures var w := Words(bytes);
      ToBytes(Zip(Lanes(RedGreen, w), Lanes(BlueAlpha, w))) == Spread(bytes, n, Rgba)
  {
    if n > 0 {
      var w, tail := Words(bytes), Words(bytes[2..]);
      assert w[1..] == tail;
      InterleavedLanes(bytes[2..], n - 1);
      PairToBytes(RedGreen(w[0]), BlueAlpha(w[0]), Zip(Lanes(RedGreen, tail), Lanes(BlueAlpha, tail)));
      LanesHoldColour(bytes[0], bytes[1]);
      SpreadPieces(bytes, 1, n - 1, Rgba);
      assert Spread(bytes, 1, Rgba) == Spread(bytes, 0, Rgba) + Rgba(bytes[0], bytes[1]);
    }
  }

  lemma {:induction false} PairToBytes(a: bv16, b: bv16, rest: seq<bv16>)
    ensures ToBytes([a, b] + rest) == [Low(a), High(a), Low(b), High(b)] + ToBytes(rest)
  {
    assert ([a, b] + rest)[1..] == [b] + rest;
    assert ([b] + rest)[1..] == rest;
  }

  lemma {:induction false} ToBytesConcat(a: seq<bv16>, b: seq<bv16>)
    ensures ToBytes(a + b) == ToBytes(a) + ToBytes(b)
  {
    if a == [] {
      assert a + b == b;
    } else {
      assert (a + b)[1..] == a[1..] + b;
      ToBytesConcat(a[1..], b);
    }
  }

  lemma {:induction false} SlicesOfTail<T>(a: seq<T>, n: nat)
    requires 0 < n <= |a|
    ensures a[..n][1..] == a[1..][..n - 1] && a[1..][n - 1..] == a[n..]
  {
  }

  lemma {:induction false} ZipSplit(a: seq<bv16>, b: seq<bv16>, n: nat)
    requires |a| == |b| && n <= |a|
    ensures Zip(a, b) == Zip(a[..n], b[..n]) + Zip(a[n..], b[n..])
  {
    if n == 0 {
      assert a[0..] == a && b[0..] == b;
    } else {
      ZipSplit(a[1..], b[1..], n - 1);
      SlicesOfTail(a, n);
      SlicesOfTail(b, n);
    }
  }

  /** Interleaves two eight-lane vectors into the lower and the upper half of the result. */
  function InterleaveLow(a: seq<bv16>, b: seq<bv16>): (z: seq<bv16>)
    requires |a| == |b| == 8
  {
    Zip(a[..4], b[..4])
  }

  function InterleaveHigh(a: seq<bv16>, b: seq<bv16>): (z: seq<bv16>)
    requires |a| == |b| == 8
  {
    Zip(a[4..], b[4..])
  }

  method Rgb565HalfSimd(bytes: seq<bv8>) returns (output: seq<bv8>)
    requires |bytes| == 16
    ensures output == Spread(bytes, 8, Rgba)
  {
    var pixels := Words(bytes);
    var redGreen := Lanes(RedGreen, pixels);
    var blueAlpha := Lanes(BlueAlpha, pixels);
    var low, high := InterleaveLow(redGreen, blueAlpha), InterleaveHigh(redGreen, blueAlpha);
    output := ToBytes(low) + ToBytes(high);
    ZipSplit(redGreen, blueAlpha, 4);
    ToBytesConcat(low, high);
    InterleavedLanes(bytes, 8);
  }

  /** The vector form of a block is the per-pixel form. */
  method Rgb565BlockSimd(block: seq<bv8>) returns (output: seq<bv8>)
    requires |block| == 32
    ensures output == Spread(block, 16, Rgba)
  {
    var low := Rgb565HalfSimd(block[..16]);
    var high := Rgb565HalfSimd(block[16..]);
    SpreadPieces(block, 8, 8, Rgba);
    SpreadReadsPrefix(block, block[..16], 8, Rgba);
    output := low + high;
  }

  // ---------------------------------------------------------------- the whole frame

  datatype Backend = Scalar | Simd

  method ConvertBlock(backend: Backend, block: seq<bv8>) returns (output: seq<bv8>)
    requires |block| == 32
    ensures output == Spread(block, 16, Rgba)
  {
    match backend {
      case Scalar => output := Rgb565BlockScalar(block);
      case Simd => output := Rgb565BlockSimd(block);
    }
  }

  method AppendBlock(rgba: seq<bv8>, done: seq<bv8>, row: seq<bv8>, x: nat, backend: Backend) returns (longer: seq<bv8>)
    requires 2 * x + 32 <= |row| && done == rgba + Spread(row, x, Rgba)
    ensures longer == rgba + Spread(row, x + 16, Rgba)
  {
    var block := ConvertBlock(backend, row[2 * x..2 * x + 32]);
    longer := done + block;
    OneBlock(row, x, Rgba);
  }

  method AppendRemainder(rgba: seq<bv8>, done: seq<bv8>, row: seq<bv8>, x: nat, width: nat) returns (longer: seq<bv8>)
    requires x <= width && 2 * width <= |row| && done == rgba + Spread(row, x, Rgba)
    ensures longer == rgba + Spread(row, width, Rgba)
  {
    var rest := ScalarPixels(row[2 * x..], width - x);
    longer := done + rest;
    SpreadPieces(row, x, width - x, Rgba);
  }

  /** One row in whole blocks of sixteen pixels, then the pixels that are left. */
  method AppendRow(rgba: seq<bv8>, row: seq<bv8>, width: nat, backend: Backend) returns (longer: seq<bv8>)
    requires |row| == 2 * width
    ensures longer == rgba + Spread(row, width, Rgba)
  {
    longer := rgba;
    var x := 0;
    while x + 16 <= width
      invariant x <= width
      invariant longer == rgba + Spread(row, x, Rgba)
    {
      longer := AppendBlock(rgba, longer, row, x, backend);
      x := x + 16;
    }
    longer := AppendRemainder(rgba, longer, row, x, width);
  }

  lemma {:induction false} OneBlock(row: seq<bv8>, x: nat, f: Expansion)
    requires 2 * x + 32 <= |row|
    ensures Spread(row, x + 16, f) == Spread(row, x, f) + Spread(row[2 * x..2 * x + 32], 16, f)
  {
    SpreadPieces(row, x, 16, f);
    SpreadReadsPrefix(row[2 * x..], row[2 * x..2 * x + 32], 16, f);
  }

  ghost predicate Fits(raw: seq<bv8>, width: nat, height: nat, stride: nat) {
    2 * width <= stride && Offset(height, stride) <= |raw|
  }

  function Row(raw: seq<bv8>, width: nat, stride: nat, y: nat): (row: seq<bv8>)
    requires Offset(y, stride) + 2 * width <= |raw|
    ensures |row| == 2 * width
  {
    Window(raw, Offset(y, stride), 2 * width)
  }

  function Image(raw: seq<bv8>, width: nat, height: nat, stride: nat, f: Expansion): (image: seq<bv8>)
    requires Fits(raw, width, height, stride)
    ensures |image| == 4 * Offset(height, width)
  {
    if height == 0 then []
      else Image(raw, width, height - 1, stride, f) + Spread(Row(raw, width, stride, height - 1), width, f)
  }

  /** The four bytes of an image at an offset, if it has them. */
  function QuadAt(image: seq<bv8>, at: nat): seq<bv8> {
    if at + 4 <= |image| then image[at..at + 4] else []
  }

  /** The expansion of the two bytes at an offset, if there are two. */
  function ExpandedAt(raw: seq<bv8>, from: nat, f: Expansion): seq<bv8> {
    if from + 2 <= |raw| then f(raw[from], raw[from + 1]) else []
  }

  lemma {:induction false} QuadOfSecond(a: seq<bv8>, b: seq<bv8>, from: nat)
    requires from + 4 <= |b|
    ensures QuadAt(a + b, |a| + from) == b[from..from + 4]
  {
    SliceOfSecond(a, b, from, from + 4);
  }

  lemma {:induction false} PixelInLastRow(before: seq<bv8>, row: seq<bv8>, width: nat, x: nat, raw: seq<bv8>,
                                          from: nat, f: Expansion)
    requires x < width && |row| == 2 * width && from + 2 * width <= |raw| && row == Window(raw, from, 2 * width)
    ensures QuadAt(before + Spread(row, width, f), |before| + 4 * x) == ExpandedAt(raw, from + 2 * x, f)
  {
    ColourAt(row, width, x, f);
    QuadOfSecond(before, Spread(row, width, f), 4 * x);
    assert row[2 * x] == raw[from + 2 * x] && row[2 * x + 1] == raw[from + 2 * x + 1];
  }

  lemma {:induction false} QuadOfPrefix(image: seq<bv8>, longer: seq<bv8>, at: nat)
    requires image <= longer && at + 4 <= |image|
    ensures QuadAt(longer, at) == QuadAt(image, at)
  {
    assert longer[at..at + 4] == longer[..|image|][at..at + 4];
  }

  /** Every image begins with the images of fewer rows. */
  lemma {:induction false} FewerRowsFit(raw: seq<bv8>, width: nat, y: nat, height: nat, stride: nat)
    requires Fits(raw, width, height, stride) && y < height
    ensures Fits(raw, width, y, stride) && Fits(raw, width, y + 1, stride) && Offset(y, stride) + stride <= |raw|
  {
    OffsetGrows(y, height, stride);
  }

  lemma {:induction false} NextRowOfImage(raw: seq<bv8>, width: nat, y: nat, stride: nat, f: Expansion)
    requires Fits(raw, width, y + 1, stride) && Fits(raw, width, y, stride) && Offset(y, stride) + stride <= |raw|
    ensures Image(raw, width, y + 1, stride, f)
      == Image(raw, width, y, stride, f) + Spread(Row(raw, width, stride, y), width, f)
  {
  }

  lemma {:induction false} ImageGrows(raw: seq<bv8>, width: nat, y: nat, height: nat, stride: nat, f: Expansion)
    requires Fits(raw, width, height, stride) && y <= height && Fits(raw, width, y, stride)
    ensures Image(raw, width, y, stride, f) <= Image(raw, width, height, stride, f)
    decreases height
  {
    if y == height {
    } else {
      FewerRowsFit(raw, width, height - 1, height, stride);
      NextRowOfImage(raw, width, height - 1, stride, f);
      ImageGrows(raw, width, y, height - 1, stride, f);
    }
  }

  lemma {:induction false} ImagePrefix(raw: seq<bv8>, width: nat, y: nat, height: nat, stride: nat, f: Expansion)
    requires Fits(raw, width, height, stride) && y < height
    ensures Fits(raw, width, y, stride) && Offset(y, stride) + stride <= |raw|
    ensures Image(raw, width, y, stride, f) + Spread(Row(raw, width, stride, y), width, f)
         <= Image(raw, width, height, stride, f)
  {
    FewerRowsFit(raw, width, y, height, stride);
    NextRowOfImage(raw, width, y, stride, f);
    ImageGrows(raw, width, y + 1, height, stride, f);
  }

  lemma {:induction false} PixelInPrefix(before: seq<bv8>, row: seq<bv8>, width: nat, x: nat, raw: seq<bv8>, from: nat,
                                         f: Expansion, image: seq<bv8>, at: nat)
    requires x < width && |row| == 2 * width && from + 2 * width <= |raw| && row == Window(raw, from, 2 * width)
    requires before + Spread(row, width, f) <= image && at == |before| + 4 * x
    ensures QuadAt(image, at) == ExpandedAt(raw, from + 2 * x, f)
  {
    PixelInLastRow(before, row, width, x, raw, from, f);
    QuadOfPrefix(before + Spread(row, width, f), image, at);
  }

  lemma {:induction false} PixelInImage(raw: seq<bv8>, width: nat, height: nat, stride: nat, x: nat, y: nat,
                                        f: Expansion, image: seq<bv8>, at: nat, from: nat)
    requires Fits(raw, width, height, stride) && image == Image(raw, width, height, stride, f)
    requires x < width && y < height && at == 4 * Offset(y, width) + 4 * x && from == Offset(y, stride)
    ensures QuadAt(image, at) == ExpandedAt(raw, from + 2 * x, f)
  {
    ImagePrefix(raw, width, y, height, stride, f);
    var before, row := Image(raw, width, y, stride, f), Row(raw, width, stride, y);
    PixelInPrefix(before, row, width, x, raw, from, f, image, at);
  }

  /** Pixel (x, y) lands at offset 4 * (y * width + x), and the image has nothing else in it. */
  lemma {:induction false} ImageLayout(raw: seq<bv8>, width: nat, height: nat, stride: nat, x: nat, y: nat,
                                       f: Expansion)
    requires 2 * width <= stride && height * stride <= |raw| && x < width && y < height
    ensures Fits(raw, width, height, stride) && y * width >= 0 && 0 <= y * stride <= |raw| - 2 * x - 2
    ensures |Image(raw, width, height, stride, f)| == 4 * (height * width)
    ensures QuadAt(Image(raw, width, height, stride, f), 4 * (y * width + x))
      == f(raw[y * stride + 2 * x], raw[y * stride + 2 * x + 1])
  {
    OffsetIsProduct(height, stride);
    OffsetIsProduct(height, width);
    OffsetIsProduct(y, stride);
    OffsetIsProduct(y, width);
    OffsetGrows(y, height, stride);
    var image := Image(raw, width, height, stride, f);
    PixelInImage(raw, width, height, stride, x, y, f, image, 4 * (y * width + x), y * stride);
  }

  /** Row padding and whatever follows the last row never reach the image. */
  lemma {:induction false} PaddingUnread(raw: seq<bv8>, other: seq<bv8>, width: nat, height: nat, stride: nat,
                                         f: Expansion)
    requires Fits(raw, width, height, stride) && Fits(other, width, height, stride)
    requires forall y :: 0 <= y < height ==> SameRow(raw, other, width, stride, y)
    ensures Image(raw, width, height, stride, f) == Image(other, width, height, stride, f)
  {
    if height > 0 {
      assert SameRow(raw, other, width, stride, height - 1);
      PaddingUnread(raw, other, width, height - 1, stride, f);
    }
  }

  ghost predicate SameRow(raw: seq<bv8>, other: seq<bv8>, width: nat, stride: nat, y: nat) {
    var from := Offset(y, stride);
    from + 2 * width <= |raw| && from + 2 * width <= |other|
    && Window(raw, from, 2 * width) == Window(other, from, 2 * width)
  }

  lemma {:induction false} RowIsInside(raw: seq<bv8>, width: nat, height: nat, stride: nat, y: nat)
    requires 2 * width <= stride && height * stride <= |raw| && y < height
    ensures Offset(y + 1, stride) <= |raw|
    ensures 0 <= y * stride <= y * stride + width * 2 <= |raw|
    ensures raw[y * stride..y * stride + width * 2] == Row(raw, width, stride, y)
  {
    OffsetIsProduct(y, stride);
    OffsetIsProduct(height, stride);
    OffsetGrows(y, height, stride);
    WindowIsSlice(raw, y * stride, width * 2);
  }

  /** The traversal, whichever block converter it is given. */
  lemma {:induction false} RowAppended(rgba: seq<bv8>, raw: seq<bv8>, width: nat, y: nat, stride: nat)
    requires Fits(raw, width, y + 1, stride) && Fits(raw, width, y, stride) && Offset(y, stride) + stride <= |raw|
    ensures rgba + Image(raw, width, y, stride, Rgba) + Spread(Row(raw, width, stride, y), width, Rgba)
      == rgba + Image(raw, width, y + 1, stride, Rgba)
  {
    NextRowOfImage(raw, width, y, stride, Rgba);
  }

  method AppendFrameWith(rgba: seq<bv8>, raw: seq<bv8>, width: nat, height: nat, stride: nat, backend: Backend)
    returns (longer: seq<bv8>)
    requires 2 * width <= stride && height * stride <= |raw|
    ensures Fits(raw, width, height, stride)
    ensures longer == rgba + Image(raw, width, height, stride, Rgba)
  {
    longer := rgba;
    for y := 0 to height
      invariant Fits(raw, width, y, stride)
      invariant longer == rgba + Image(raw, width, y, stride, Rgba)
    {
      RowIsInside(raw, width, height, stride, y);
      var row := raw[y * stride..y * stride + width * 2];
      longer := AppendRow(longer, row, width, backend);
      RowAppended(rgba, raw, width, y, stride);
    }
  }

  /** Rows of at least one block go to the vector form where the machine has one. */
  method AppendFrame(rgba: seq<bv8>, raw: seq<bv8>, width: nat, height: nat, stride: nat, vectors: bool)
    returns (longer: seq<bv8>)
    requires 2 * width <= stride && height * stride <= |raw|
    ensures Fits(raw, width, height, stride)
    ensures longer == rgba + Image(raw, width, height, stride, Rgba)
  {
    if width >= 16 && vectors {
      longer := AppendFrameWith(rgba, raw, width, height, stride, Simd);
    } else {
      longer := AppendFrameWith(rgba, raw, width, height, stride, Scalar);
    }
  }

  // ---------------------------------------------------------------- checks before the conversion

  datatype Problem = ValueTooLarge | RowOverflow | StrideTooSmall | SizeOverflow | TooShort | ImageOverflow | NoMemory

  datatype Conversion = Converted(rgba: seq<bv8>) | Refused(problem: Problem)

  /** What the machine offers: the largest `usize`, the largest image it can allocate, and
      whether it has vector lanes. */
  datatype Machine = Machine(usizeMax: nat, memory: nat, vectors: bool)

  /** Exactly the frames the conversion accepts. */
  ghost predicate Acceptable(m: Machine, raw: seq<bv8>, width: nat, height: nat, stride: nat) {
    && height <= m.usizeMax && stride <= m.usizeMax
    && 2 * width <= stride && stride * height <= |raw|
    && 4 * (width * height) <= m.usizeMax && 4 * (width * height) <= m.memory
  }

  lemma {:induction false} Products(width: nat, height: nat)
    ensures width * height >= 0
    ensures width * height == height * width
    ensures width * height <= (width * height) * 4 == 4 * (width * height)
  {
  }

  method Rgb565FrameToRgba(m: Machine, raw: seq<bv8>, width: nat, height: nat, stride: nat) returns (r: Conversion)
    requires |raw| <= m.usizeMax
    ensures r.Converted? <==> Acceptable(m, raw, width, height, stride)
    ensures r.Converted? ==>
      Fits(raw, width, height, stride) && r.rgba == Image(raw, width, height, stride, Rgba)
    ensures r == Refused(NoMemory) ==>
      2 * width <= stride && stride * height <= |raw| && 4 * (width * height) > m.memory
  {
    Products(width, height);
    Products(stride, height);
    if width > m.usizeMax || height > m.usizeMax || stride > m.usizeMax { return Refused(ValueTooLarge); }
    var packedStride := width * 2;
    if packedStride > m.usizeMax { return Refused(RowOverflow); }
    if stride < packedStride { return Refused(StrideTooSmall); }
    var expected := stride * height;
    if expected > m.usizeMax { return Refused(SizeOverflow); }
    if |raw| < expected { return Refused(TooShort); }
    var pixels := width * height;
    if pixels > m.usizeMax || pixels * 4 > m.usizeMax { return Refused(ImageOverflow); }
    if pixels * 4 > m.memory { return Refused(NoMemory); }
    var rgba := AppendFrame([], raw, width, height, stride, m.vectors);
    return Converted(rgba);
  }
}
