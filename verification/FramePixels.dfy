/** What a frame does to each single pixel, and the shape of a frame in plain numbers. */
module FramePixels {
  import opened Options
  import opened RowOffsets
  import opened Surfaces
  import opened PixelConversion
  import opened FramebufferStream
  import opened StreamReplica

  /** The shape check in unbounded arithmetic: a rectangle of at least one pixel inside a surface of
      at most 16 MiB, two bytes for each of its pixels, and for a keyframe the whole surface. */
  lemma {:induction false} ShapeInNumbers(h: Header)
    ensures var g, r := h.geometry, h.rect;
      && g.stridePixels * g.height >= 0 && r.width * r.height >= 0
      && (ValidateShape(h) <==>
            && 1 <= r.width && r.x + r.width <= g.width <= g.stridePixels
            && 1 <= r.height && r.y + r.height <= g.height
            && 2 * (g.stridePixels * g.height) <= 16_777_216
            && h.rawBytes == 2 * (r.width * r.height)
            && (h.kind == Keyframe ==> r.x == 0 && r.y == 0 && r.width == g.width && r.height == g.height))
  {
    ValidShape(h);
    ByteProduct(h.rect.width, h.rect.height);
    ByteProduct(h.geometry.stridePixels, h.geometry.height);
  }

  predicate Covers(a: Area, y: nat, i: nat) {
    a.first <= y < a.first + a.rows && a.at <= i < a.at + a.bytes
  }

  /** Byte `i` of row `y` after an area was drawn over it: the byte sent for it, or what was there. */
  function DrawnOver<T>(was: T, a: Area, raw: seq<T>, y: nat, i: nat): T
    requires |raw| == Offset(a.rows, a.bytes)
  {
    if Covers(a, y, i) then
      OffsetGrows(y - a.first, a.rows, a.bytes);
      raw[Offset(y - a.first, a.bytes) + (i - a.at)]
    else was
  }

  lemma {:induction false} RedrawnAt<T>(row: seq<T>, a: Area, raw: seq<T>, y: nat, i: nat)
    requires a.at + a.bytes <= |row| && |raw| == Offset(a.rows, a.bytes) && i < |row|
    ensures RedrawnRow(row, a, raw, y)[i] == DrawnOver(row[i], a, raw, y, i)
  {
    if a.first <= y < a.first + a.rows {
      OffsetGrows(y - a.first, a.rows, a.bytes);
    }
  }

  /** Copying an area into a buffer does to its bytes what is done to the rows it shows. */
  lemma {:induction false} PatchedAt<T>(buf: seq<T>, stride: nat, width: nat, height: nat, a: Area, raw: seq<T>,
                                        y: nat, i: nat)
    requires width <= stride && |buf| == Offset(height, stride) && y < height && i < width
    requires a.at + a.bytes <= width && a.first + a.rows <= height && |raw| == Offset(a.rows, a.bytes)
    ensures RowsFit(|buf|, stride, a, raw, a.rows) && Offset(y, stride) + width <= |buf|
    ensures Patched(buf, stride, a, raw, a.rows)[Offset(y, stride) + i]
      == DrawnOver(buf[Offset(y, stride) + i], a, raw, y, i)
  {
    PatchedShows(buf, stride, width, height, a, raw, y);
    RedrawnAt(VisibleRow(buf, stride, width, y), a, raw, y, i);
    assert VisibleRow(Patched(buf, stride, a, raw, a.rows), stride, width, y)[i]
      == Patched(buf, stride, a, raw, a.rows)[Offset(y, stride) + i];
  }

  // ---------------------------------------------------------------- pixels

  predicate Inside(r: Rect, x: nat, y: nat) {
    r.x <= x < r.x + r.width && r.y <= y < r.y + r.height
  }

  /** The two bytes sent for pixel (x, y) of a rectangle: its pixels follow each other row by row.
      `Offset(n, bytes)` is `n * bytes` (`RowOffsets.OffsetIsProduct`). */
  ghost predicate SentPixel(raw: seq<bv8>, r: Rect, x: nat, y: nat, lo: bv8, hi: bv8) {
    r.x <= x && r.y <= y &&
    var at := Offset(y - r.y, 2 * r.width) + 2 * (x - r.x);
    at + 1 < |raw| && lo == raw[at] && hi == raw[at + 1]
  }

  ghost predicate PicturePixel(p: Picture, x: nat, y: nat, lo: bv8, hi: bv8) {
    y < |p.rows| && 2 * x + 1 < |p.rows[y]| && lo == p.rows[y][2 * x] && hi == p.rows[y][2 * x + 1]
  }

  lemma {:induction false} DrawnOverPixel(r: Rect, raw: seq<bv8>, x: nat, y: nat, low: bv8, high: bv8,
                                          lo: bv8, hi: bv8)
    requires |raw| == Offset(r.height, 2 * r.width)
    ensures (lo == DrawnOver(low, AreaOf(r), raw, y, 2 * x) && hi == DrawnOver(high, AreaOf(r), raw, y, 2 * x + 1))
      <==> if Inside(r, x, y) then SentPixel(raw, r, x, y, lo, hi) else lo == low && hi == high
  {
    if Inside(r, x, y) {
      OffsetGrows(y - r.y, r.height, 2 * r.width);
    }
  }

  /** What a producer promises with a delta: inside the rectangle the pixels sent, outside it what
      was there before. */
  lemma {:induction false} DeltaInPixels(before: Picture, after: Picture, h: Header, raw: seq<bv8>, x: nat, y: nat,
                                         lo: bv8, hi: bv8)
    requires TurnsInto(before, after, h, raw) && WellShaped(h) && |raw| == h.rawBytes
    requires x < h.geometry.width && y < h.geometry.height
    ensures PicturePixel(after, x, y, lo, hi) <==>
      if Inside(h.rect, x, y) then SentPixel(raw, h.rect, x, y, lo, hi) else PicturePixel(before, x, y, lo, hi)
  {
    var a := AreaOf(h.rect);
    RedrawnAt(before.rows[y], a, raw, y, 2 * x);
    RedrawnAt(before.rows[y], a, raw, y, 2 * x + 1);
    DrawnOverPixel(h.rect, raw, x, y, before.rows[y][2 * x], before.rows[y][2 * x + 1], lo, hi);
  }

  /** What a producer promises with a keyframe: every pixel of the surface, row by row. */
  lemma {:induction false} KeyframeInPixels(surface: Picture, h: Header, raw: seq<bv8>, x: nat, y: nat, lo: bv8,
                                            hi: bv8)
    requires Carries(surface, h, raw) && WellShaped(h) && h.kind == Keyframe && |raw| == h.rawBytes
    requires x < h.geometry.width && y < h.geometry.height
    ensures PicturePixel(surface, x, y, lo, hi) <==> SentPixel(raw, h.rect, x, y, lo, hi)
  {
    OffsetGrows(y, h.geometry.height, 2 * h.geometry.width);
  }

  /** The two bytes of pixel (x, y) in a frame buffer. */
  ghost predicate BufferPixel(buf: seq<bv8>, g: Geometry, x: nat, y: nat, lo: bv8, hi: bv8) {
    var at := Offset(y, 2 * g.stridePixels) + 2 * x;
    at + 1 < |buf| && lo == buf[at] && hi == buf[at + 1]
  }

  /** The colour of pixel (x, y) in an image. */
  ghost predicate ImagePixel(image: seq<bv8>, width: nat, x: nat, y: nat, colour: Quad) {
    QuadAt(image, 4 * (Offset(y, width) + x)) == colour
  }

  lemma {:induction false} PatchedPixel(buf: seq<bv8>, g: Geometry, r: Rect, raw: seq<bv8>, x: nat, y: nat, lo: bv8,
                                        hi: bv8)
    requires GeometryOk(g) && RectInside(r, g) && |buf| == SurfaceBytes(g) && |raw| == Offset(r.height, 2 * r.width)
    requires x < g.width && y < g.height
    ensures RowsFit(|buf|, 2 * g.stridePixels, AreaOf(r), raw, r.height)
    ensures BufferPixel(Patched(buf, 2 * g.stridePixels, AreaOf(r), raw, r.height), g, x, y, lo, hi) <==>
      if Inside(r, x, y) then SentPixel(raw, r, x, y, lo, hi) else BufferPixel(buf, g, x, y, lo, hi)
  {
    var from := Offset(y, 2 * g.stridePixels);
    PatchedAt(buf, 2 * g.stridePixels, 2 * g.width, g.height, AreaOf(r), raw, y, 2 * x);
    PatchedAt(buf, 2 * g.stridePixels, 2 * g.width, g.height, AreaOf(r), raw, y, 2 * x + 1);
    DrawnOverPixel(r, raw, x, y, buf[from + 2 * x], buf[from + 2 * x + 1], lo, hi);
  }

  lemma {:induction false} ImageOfBuffer(g: Geometry, buf: seq<bv8>, x: nat, y: nat, f: Expansion, image: seq<bv8>,
                                         from: nat)
    requires Fits(buf, g.width, g.height, 2 * g.stridePixels)
    requires image == Image(buf, g.width, g.height, 2 * g.stridePixels, f) && from == Offset(y, 2 * g.stridePixels)
    requires x < g.width && y < g.height
    ensures QuadAt(image, 4 * (Offset(y, g.width) + x)) == ExpandedAt(buf, from + 2 * x, f)
  {
    var at := 4 * Offset(y, g.width) + 4 * x;
    PixelInImage(buf, g.width, g.height, 2 * g.stridePixels, x, y, f, image, at, from);
  }

  lemma {:induction false} RenderedPixel(g: Geometry, buf: seq<bv8>, x: nat, y: nat, lo: bv8, hi: bv8)
    requires GeometryOk(g) && |buf| == SurfaceBytes(g) && x < g.width && y < g.height
    requires BufferPixel(buf, g, x, y, lo, hi)
    ensures ImagePixel(Rendered(buf, g), g.width, x, y, Reference(Word(lo, hi)))
  {
    ImageOfBuffer(g, buf, x, y, Rgba, Rendered(buf, g), Offset(y, 2 * g.stridePixels));
    MatchesReference(lo, hi);
  }

  lemma {:induction false} ShownByDrawing(s: State, h: Header, raw: seq<bv8>, host: Host)
    requires WellShaped(h) && |raw| == h.rawBytes && Drawn(s, h, raw, host).1.Shown?
    requires h.kind == Keyframe || |s.rgb565| == SurfaceBytes(h.geometry)
    ensures var (t, out) := Drawn(s, h, raw, host);
      DrawnCompletely(s, t, h, raw) && out.frame.rgba == Rendered(t.rgb565, h.geometry)
  {
    ValidShape(h);
    CopyCannotFail(h, SurfaceBytes(h.geometry), raw);
  }

  lemma {:induction false} ShownIsDrawn(s: State, h: Header, p: Payload, host: Host)
    requires ValidState(s) && Apply(s, h, p, host).1.Shown?
    ensures WellShaped(h) && p.decoded.Some? && |p.decoded.value| == h.rawBytes
    ensures Apply(s, h, p, host) == Drawn(s, h, p.decoded.value, host)
    ensures h.kind == Keyframe || (h.kind == RectDelta && s.geometry == Some(h.geometry))
  {
    ValidShape(h);
    ShownExactly(s, h, p, host);
  }

  /** A frame that is shown: the buffer has the pixels sent inside the rectangle and its old ones
      outside, and the image has the colour of every pixel of the buffer at its place. */
  lemma {:induction false} ShownPixels(s: State, h: Header, p: Payload, host: Host, x: nat, y: nat, lo: bv8, hi: bv8)
    requires x < h.geometry.width && y < h.geometry.height
    requires ValidState(s) && Desktop(host) && Apply(s, h, p, host).1.Shown?
    ensures var (t, out) := Apply(s, h, p, host);
      && p.decoded.Some?
      && (BufferPixel(t.rgb565, h.geometry, x, y, lo, hi) <==>
            if Inside(h.rect, x, y) then SentPixel(p.decoded.value, h.rect, x, y, lo, hi)
            else BufferPixel(s.rgb565, h.geometry, x, y, lo, hi))
      && (BufferPixel(t.rgb565, h.geometry, x, y, lo, hi) ==>
            ImagePixel(out.frame.rgba, h.geometry.width, x, y, Reference(Word(lo, hi))))
  {
    var g, t := h.geometry, Apply(s, h, p, host).0;
    ShownIsDrawn(s, h, p, host);
    ShownByDrawing(s, h, p.decoded.value, host);
    var canvas := if h.kind == Keyframe then Zeros(SurfaceBytes(g)) else s.rgb565;
    PatchedPixel(canvas, g, h.rect, p.decoded.value, x, y, lo, hi);
    if BufferPixel(t.rgb565, g, x, y, lo, hi) {
      RenderedPixel(g, t.rgb565, x, y, lo, hi);
    }
  }
}
